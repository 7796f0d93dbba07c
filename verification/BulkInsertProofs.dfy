/** What every run of the bulk insert buffer keeps, and where every run ends. */
module BulkInsertProofs {
  import opened Options
  import opened BulkInsertSpec

  // ---------------------------------------------------------------- safety

  /** One insert at a time, and thresholds that hold between steps. */
  ghost predicate Bounded<T>(cfg: Config, s: State<T>) {
    && s.inFlight == (if s.flushing.Some? then {s.flushing.value} else {})
    && |s.queue| as real < cfg.maxQueueSize + 1.0
    && (forall b | b in s.batches :: b != [] && |b| as real < cfg.maxQueueSize + 1.0)
    && (s.flushing.None? ==> !AtLeast(|s.queue|, cfg.maxSize))
  }

  /** Every accepted document is queued, was handed over once, or was dropped, and order is kept. */
  ghost predicate Conserved<T>(s: State<T>) {
    && |s.accepted| == |s.fates| + |s.queue|
    && s.queue == s.accepted[|s.fates|..]
    && Flatten(s.batches) == Kept(s.accepted[..|s.fates|], s.fates)
    && s.dropped == Drops(s.fates)
  }

  /** Suspended calls wait for real flights; a call that owns or has finished a flush saw its documents leave. */
  ghost predicate Accounted<T>(s: State<T>) {
    && (forall f | f in s.inFlight + s.broken :: f < |s.batches|)
    && s.inFlight !! s.broken
    && (forall id | id in s.calls :: && id < s.nextCall
                                     && s.calls[id].at.flight < |s.batches|
                                     && s.calls[id].mark <= |s.accepted|
                                     && (s.calls[id].at.Owning? ==> s.calls[id].mark <= |s.fates|))
    && (forall r | r in s.resolved :: r.call < s.nextCall && r.mark <= r.departed <= |s.fates|)
  }

  /** A live timer belongs to a nonempty queue, and an idle buffer holding documents has a timer. */
  ghost predicate Timed<T>(s: State<T>) {
    && (s.queue == [] ==> s.timer == Null)
    && (s.queue != [] && s.flushing.None? ==> s.timer != Null)
  }

  ghost predicate HasWaiter(calls: map<nat, Call>) {
    exists id :: id in calls && calls[id].at.Waiting?
  }

  /** The stale handle of a fired timer is only ever left behind while some call waits to look at the queue. */
  ghost predicate Watched<T>(s: State<T>) {
    && s.broken == {}
    && (s.timer == Fired ==> HasWaiter(s.calls))
  }

  ghost predicate Inv<T>(cfg: Config, s: State<T>) {
    && Bounded(cfg, s) && Conserved(s) && Accounted(s) && Timed(s)
    && (!cfg.onErrorThrows ==> Watched(s))
  }

  /** The invariant except for the two facts a flush or a scheduled timer is about to restore. */
  ghost predicate Unsettled<T>(cfg: Config, s: State<T>) {
    && s.inFlight == (if s.flushing.Some? then {s.flushing.value} else {})
    && |s.queue| as real < cfg.maxQueueSize + 1.0
    && (forall b | b in s.batches :: b != [] && |b| as real < cfg.maxQueueSize + 1.0)
    && Conserved(s) && Accounted(s)
    && (s.queue == [] ==> s.timer == Null)
    && (!cfg.onErrorThrows ==> s.broken == {})
  }

  lemma FlushCallKeepsHistory<T>(cfg: Config, s: State<T>, id: nat, mark: nat, start: Start)
    requires Conserved(s)
    ensures Conserved(FlushCall(s, id, mark, start))
  {
    var t := FlushCall(s, id, mark, start);
    if s.flushing.None? && s.queue != [] {
      var n := |s.fates|;
      KeptAll(s.accepted[..n], s.fates, s.queue);
      assert s.accepted == s.accepted[..n] + s.queue;
      assert t.batches[..|t.batches| - 1] == s.batches;
      assert t.accepted[..|t.fates|] == s.accepted;
    }
  }

  lemma WaitKeeps<T>(cfg: Config, s: State<T>, id: nat, mark: nat, start: Start)
    requires Unsettled(cfg, s) && id < s.nextCall && mark <= |s.accepted|
    requires s.flushing.Some?
    ensures Inv(cfg, FlushCall(s, id, mark, start))
  {
    var t := FlushCall(s, id, mark, start);
    assert t.calls[id].at.Waiting?;
    assert Conserved(t);
    assert Accounted(t);
  }

  lemma HandOverKeeps<T>(cfg: Config, s: State<T>, id: nat, mark: nat, start: Start)
    requires Unsettled(cfg, s) && id < s.nextCall && mark <= |s.accepted|
    requires s.flushing.None?
    ensures Inv(cfg, FlushCall(s, id, mark, start))
  {
    HandOverBounded(cfg, s, id, mark, start);
    assert Conserved(FlushCall(s, id, mark, start)) by {
      FlushCallKeepsHistory(cfg, s, id, mark, start);
    }
    assert Accounted(FlushCall(s, id, mark, start)) by {
      HandOverAccounted(s, id, mark, start);
    }
  }

  lemma HandOverBounded<T>(cfg: Config, s: State<T>, id: nat, mark: nat, start: Start)
    requires s.flushing.None? && s.inFlight == {} && |s.queue| as real < cfg.maxQueueSize + 1.0
    requires forall b | b in s.batches :: b != [] && |b| as real < cfg.maxQueueSize + 1.0
    ensures var t := FlushCall(s, id, mark, start);
            && Bounded(cfg, t) && Timed(t) && t.timer == Null && t.broken == s.broken
  {
    var t := FlushCall(s, id, mark, start);
    assert t.queue == [];
    if s.queue != [] {
      assert t.batches == s.batches + [s.queue];
    }
  }

  lemma HandOverAccounted<T>(s: State<T>, id: nat, mark: nat, start: Start)
    requires Accounted(s) && id < s.nextCall && mark <= |s.accepted| == |s.fates| + |s.queue|
    requires s.flushing.None?
    ensures Accounted(FlushCall(s, id, mark, start))
  {
    var t := FlushCall(s, id, mark, start);
    assert t.calls == s.calls || t.calls == s.calls[id := Call(Owning(|s.batches|), mark)];
    assert |t.fates| == |s.accepted|;
  }

  lemma FlushCallKeeps<T>(cfg: Config, s: State<T>, id: nat, mark: nat, start: Start)
    requires Unsettled(cfg, s) && id < s.nextCall && mark <= |s.accepted|
    ensures Inv(cfg, FlushCall(s, id, mark, start))
  {
    if s.flushing.Some? {
      WaitKeeps(cfg, s, id, mark, start);
    } else {
      HandOverKeeps(cfg, s, id, mark, start);
    }
  }

  lemma NewFlushKeeps<T>(cfg: Config, s: State<T>, start: Start)
    requires Unsettled(cfg, s)
    ensures Inv(cfg, NewFlush(s, start))
  {
    FlushCallKeeps(cfg, s.(nextCall := s.nextCall + 1), s.nextCall, |s.accepted|, start);
  }

  lemma ScheduleKeeps<T>(cfg: Config, s: State<T>)
    requires Unsettled(cfg, s) && !AtLeast(|s.queue|, cfg.maxSize)
    requires !cfg.onErrorThrows && s.timer == Fired ==> HasWaiter(s.calls)
    ensures Inv(cfg, ScheduleFlush(s))
  {
    var t := ScheduleFlush(s);
    assert Conserved(t) && Accounted(t) && Bounded(cfg, t) && Timed(t);
    if t.timer == Fired && !cfg.onErrorThrows {
      assert t == s;
    }
  }

  lemma FlushOrScheduleKeeps<T>(cfg: Config, s: State<T>, start: Start)
    requires Unsettled(cfg, s)
    requires !cfg.onErrorThrows && s.timer == Fired ==> HasWaiter(s.calls)
    ensures Inv(cfg, FlushOrSchedule(cfg, s, start))
  {
    if AtLeast(|s.queue|, cfg.maxSize) {
      NewFlushKeeps(cfg, s, start);
    } else {
      ScheduleKeeps(cfg, s);
    }
  }

  lemma DropKeepsHistory<T>(s: State<T>)
    requires Conserved(s) && s.queue != []
    ensures Conserved(DropOldest(s))
  {
    var n := |s.fates|;
    KeptNone(s.accepted[..n], s.fates, s.accepted[n]);
    assert s.accepted[..n + 1] == s.accepted[..n] + [s.accepted[n]];
  }

  lemma PushKeepsHistory<T>(s: State<T>, t: State<T>, document: T)
    requires Conserved(s)
    requires t == s.(queue := s.queue + [document], accepted := s.accepted + [document])
    ensures Conserved(t)
  {
    assert t.accepted[..|t.fates|] == s.accepted[..|s.fates|];
    assert t.queue == t.accepted[|t.fates|..];
  }

  lemma AcceptKeeps<T>(cfg: Config, s: State<T>, document: T)
    requires Inv(cfg, s)
    ensures Unsettled(cfg, Accept(cfg, s, document))
  {
    var t := Accept(cfg, s, document);
    assert Conserved(t) by {
      if Full(cfg, s) {
        DropKeepsHistory(s);
        PushKeepsHistory(DropOldest(s), t, document);
      } else {
        PushKeepsHistory(s, t, document);
      }
    }
    assert |t.queue| as real < cfg.maxQueueSize + 1.0 by {
      assert Full(cfg, s) ==> |t.queue| == |s.queue|;
    }
  }

  lemma ResumeKeeps<T>(cfg: Config, s: State<T>, id: nat, start: Start)
    requires Inv(cfg, s) && Ready(s, id)
    ensures Inv(cfg, ResumeCall(s, id, start))
  {
    var call := s.calls[id];
    var rest := s.(calls := s.calls - {id});
    if call.at.flight !in s.broken && call.at.Waiting? && s.queue != [] {
      FlushCallKeeps(cfg, rest, id, call.mark, start);
    } else if !cfg.onErrorThrows && s.timer == Fired {
      var other :| other in s.calls && s.calls[other].at.Waiting?;
      assert other in rest.calls;
    }
  }

  lemma SettleKeeps<T>(cfg: Config, s: State<T>, flight: nat, outcome: Outcome, start: Start)
    requires Inv(cfg, s) && Enabled(cfg, s, InsertSettles(flight, outcome, start))
    ensures Unsettled(cfg, SettleFlight(s, flight, outcome))
  {
  }

  /** Each step, in any interleaving, keeps the whole invariant. */
  lemma StepKeepsInv<T>(cfg: Config, s: State<T>, step: Step<T>)
    requires Inv(cfg, s) && Enabled(cfg, s, step)
    ensures Inv(cfg, Next(cfg, s, step))
  {
    match step
    case Enqueue(document, start) =>
      AcceptKeeps(cfg, s, document);
      FlushOrScheduleKeeps(cfg, Accept(cfg, s, document), start);
    case Flush(start) =>
      NewFlushKeeps(cfg, s, start);
    case TimerFires(start) =>
      NewFlushKeeps(cfg, s.(timer := Fired), start);
    case InsertSettles(flight, outcome, start) =>
      SettleKeeps(cfg, s, flight, outcome, start);
      FlushOrScheduleKeeps(cfg, SettleFlight(s, flight, outcome), start);
    case Resume(id, start) =>
      ResumeKeeps(cfg, s, id, start);
  }

  lemma {:induction false} ExecKeepsInv<T>(cfg: Config, s: State<T>, steps: seq<Step<T>>)
    requires Inv(cfg, s)
    ensures Inv(cfg, Exec(cfg, s, steps))
    decreases |steps|
  {
    if steps != [] {
      if Enabled(cfg, s, steps[0]) {
        StepKeepsInv(cfg, s, steps[0]);
        ExecKeepsInv(cfg, Next(cfg, s, steps[0]), steps[1..]);
      } else {
        ExecKeepsInv(cfg, s, steps[1..]);
      }
    }
  }

  ghost predicate Reachable<T(!new)>(cfg: Config, s: State<T>) {
    exists steps :: s == Exec(cfg, Init(), steps)
  }

  lemma ReachableInv<T(!new)>(cfg: Config, s: State<T>)
    requires Reachable(cfg, s)
    ensures Inv(cfg, s)
  {
    var steps :| s == Exec(cfg, Init(), steps);
    ExecKeepsInv(cfg, Init(), steps);
  }

  /** A list of enabled steps with the states it passes through ends where the list of states ends. */
  lemma {:induction false} Follows<T>(cfg: Config, steps: seq<Step<T>>, states: seq<State<T>>)
    requires |states| == |steps| + 1
    requires forall k | 0 <= k < |steps| ::
               Enabled(cfg, states[k], steps[k]) && states[k + 1] == Next(cfg, states[k], steps[k])
    ensures Exec(cfg, states[0], steps) == states[|steps|]
    decreases |steps|
  {
    if steps != [] {
      Follows(cfg, steps[1..], states[1..]);
    }
  }
}
