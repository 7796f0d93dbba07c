/** The promises of the bulk insert buffer, over every script of steps. */
module BulkInsertTheorems {
  import opened Options
  import opened BulkInsertSpec
  import opened BulkInsertProofs

  // ---------------------------------------------------------------- conservation, bounds, flush

  /**
   Nothing is lost, duplicated or reordered: what was handed to `insertMany`, batch after batch, followed by
   the queue, is the list of accepted documents without the dropped ones.
   */
  lemma Conservation<T(!new)>(cfg: Config, s: State<T>)
    requires Reachable(cfg, s)
    ensures |s.accepted| == |s.fates| + |s.queue|
    ensures Flatten(s.batches) + s.queue == Kept(s.accepted, s.fates + Verdicts(true, |s.queue|))
    ensures |s.accepted| == |Flatten(s.batches)| + |s.queue| + s.dropped
  {
    ReachableInv(cfg, s);
    var n := |s.fates|;
    KeptAll(s.accepted[..n], s.fates, s.queue);
    assert s.accepted == s.accepted[..n] + s.queue;
    KeptLength(s.accepted[..n], s.fates);
  }

  lemma FlushNeverDrops<T>(s: State<T>, id: nat, mark: nat, start: Start)
    ensures var t := FlushCall(s, id, mark, start); s.fates <= t.fates && t.dropped == s.dropped
  {
  }

  lemma FlushOrScheduleNeverDrops<T>(cfg: Config, s: State<T>, start: Start)
    ensures var t := FlushOrSchedule(cfg, s, start); s.fates <= t.fates && t.dropped == s.dropped
  {
    FlushNeverDrops(s.(nextCall := s.nextCall + 1), s.nextCall, |s.accepted|, start);
  }

  /** A step drops at most one document, only as `enqueue` meets a full queue, and then the oldest queued one. */
  lemma OnlyOldestDropped<T(!new)>(cfg: Config, s: State<T>, step: Step<T>)
    requires Reachable(cfg, s) && Enabled(cfg, s, step)
    ensures var t := Next(cfg, s, step);
            && s.fates <= t.fates
            && (t.dropped != s.dropped <==> step.Enqueue? && Full(cfg, s))
            && (t.dropped != s.dropped ==>
                && t.dropped == s.dropped + 1
                && s.queue != [] && |s.fates| < |s.accepted| && s.queue[0] == s.accepted[|s.fates|]
                && |s.fates| < |t.fates| && !t.fates[|s.fates|])
  {
    ReachableInv(cfg, s);
    match step
    case Enqueue(document, start) =>
      var room := Accept(cfg, s, document);
      FlushOrScheduleNeverDrops(cfg, room, start);
      assert s.fates <= room.fates;
    case Flush(start) =>
      FlushNeverDrops(s.(nextCall := s.nextCall + 1), s.nextCall, |s.accepted|, start);
    case TimerFires(start) =>
      FlushNeverDrops(s.(timer := Fired, nextCall := s.nextCall + 1), s.nextCall, |s.accepted|, start);
    case InsertSettles(flight, outcome, start) =>
      FlushOrScheduleNeverDrops(cfg, SettleFlight(s, flight, outcome), start);
    case Resume(id, start) =>
      FlushNeverDrops(s.(calls := s.calls - {id}), id, s.calls[id].mark, start);
  }

  lemma BoundsHold<T(!new)>(cfg: Config, s: State<T>)
    requires Reachable(cfg, s)
    ensures |s.inFlight| <= 1
    ensures |s.queue| as real < cfg.maxQueueSize + 1.0
    ensures forall b | b in s.batches :: b != [] && |b| as real < cfg.maxQueueSize + 1.0
    ensures s.inFlight == {} ==> !AtLeast(|s.queue|, cfg.maxSize)
  {
    ReachableInv(cfg, s);
  }

  /** The queue keeps within `maxQueueSize` in all runs exactly when that is a whole number. */
  lemma QueueBoundExactly<T(!new)>(cfg: Config, document: T)
    ensures (forall steps: seq<Step<T>> :: |Exec(cfg, Init(), steps).queue| as real <= cfg.maxQueueSize)
            <==> cfg.maxQueueSize.Floor as real == cfg.maxQueueSize
  {
    if cfg.maxQueueSize.Floor as real == cfg.maxQueueSize {
      forall steps: seq<Step<T>> ensures |Exec(cfg, Init(), steps).queue| as real <= cfg.maxQueueSize {
        WholeBound(cfg, Exec(cfg, Init(), steps));
      }
    } else {
      var steps := Overfill(cfg, document);
      assert !(|Exec(cfg, Init(), steps).queue| as real <= cfg.maxQueueSize);
    }
  }

  lemma WholeBound<T(!new)>(cfg: Config, s: State<T>)
    requires Reachable(cfg, s) && cfg.maxQueueSize.Floor as real == cfg.maxQueueSize
    ensures |s.queue| as real <= cfg.maxQueueSize
  {
    BoundsHold(cfg, s);
    WholeBelow(|s.queue|, cfg.maxQueueSize.Floor);
  }

  lemma WholeBelow(n: nat, bound: int)
    requires n as real < bound as real + 1.0
    ensures n <= bound
  {
    assert bound as real + 1.0 == (bound + 1) as real;
  }

  lemma Overfill<T>(cfg: Config, document: T) returns (steps: seq<Step<T>>)
    requires cfg.maxQueueSize.Floor as real != cfg.maxQueueSize
    ensures |Exec(cfg, Init(), steps).queue| as real > cfg.maxQueueSize
  {
    var first, second := Step.Enqueue(document, Returns), Step.Flush(Returns);
    var s0: State<T> := Init();
    var s1 := Next(cfg, s0, first);
    var s2 := Next(cfg, s1, second);
    var rest := GrowInFlight(cfg, s2, document, cfg.maxQueueSize.Floor + 1);
    var later := [second] + rest;
    assert Exec(cfg, s1, later) == Exec(cfg, s2, rest) by {
      assert later[1..] == rest;
    }
    steps := [first] + later;
    assert steps[1..] == later;
  }

  /** During an insert the queue grows with each arrival as long as it is not full. */
  lemma GrowInFlight<T>(cfg: Config, s: State<T>, document: T, n: nat) returns (steps: seq<Step<T>>)
    requires s.flushing.Some?
    requires forall k: nat | k < |s.queue| + n :: !AtLeast(k, cfg.maxQueueSize)
    ensures |Exec(cfg, s, steps).queue| == |s.queue| + n
    decreases n
  {
    if n == 0 {
      steps := [];
    } else {
      var step := Enqueue(document, Returns);
      var rest := GrowInFlight(cfg, Next(cfg, s, step), document, n - 1);
      steps := [step] + rest;
    }
  }

  // ---------------------------------------------------------------- drain

  ghost predicate Stranded<T>(s: State<T>) {
    && s.queue != [] && s.timer != Armed && s.inFlight == {}
    && (forall id | Ready(s, id) :: s.calls[id].at.Owning? || s.calls[id].at.flight in s.broken)
  }

  /** No timer, insert or suspended call is left to run. */
  ghost predicate Quiescent<T>(s: State<T>) {
    s.timer != Armed && s.inFlight == {} && forall id :: !Ready(s, id)
  }

  ghost predicate InternalStep<T(!new)>(cfg: Config, s: State<T>, t: State<T>) {
    exists step: Step<T> :: step.Internal() && Enabled(cfg, s, step) && t == Next(cfg, s, step)
  }

  function ReadyCalls<T>(s: State<T>): set<nat> {
    set id | id in s.calls && Ready(s, id)
  }

  function QueueRank<T>(s: State<T>): nat { if s.queue == [] then 0 else 1 }
  function TimerRank<T>(s: State<T>): nat { if s.timer == Armed then 1 else 0 }

  /** The four ranks, compared lexicographically. */
  ghost predicate Descends<T>(s: State<T>, t: State<T>) {
    (QueueRank(s), |s.inFlight|, TimerRank(s), |ReadyCalls(s)| decreases to
     QueueRank(t), |t.inFlight|, TimerRank(t), |ReadyCalls(t)|)
  }

  lemma InternalStepDescends<T>(cfg: Config, s: State<T>, step: Step<T>)
    requires Inv(cfg, s) && Enabled(cfg, s, step) && step.Internal()
    ensures Descends(s, Next(cfg, s, step))
  {
    match step
    case TimerFires(start) => TimerDescends(cfg, s, start);
    case InsertSettles(flight, outcome, start) => SettleDescends(cfg, s, flight, outcome, start);
    case Resume(id, start) => ResumeDescends(cfg, s, id, start);
  }

  lemma TimerDescends<T>(cfg: Config, s: State<T>, start: Start)
    requires Inv(cfg, s) && s.timer == Armed
    ensures Descends(s, NewFlush(s.(timer := Fired), start))
  {
    var t := NewFlush(s.(timer := Fired), start);
    assert t.timer != Armed && (t.queue == [] || (t.queue == s.queue && t.inFlight == s.inFlight));
  }

  lemma SettleDescends<T>(cfg: Config, s: State<T>, flight: nat, outcome: Outcome, start: Start)
    requires Inv(cfg, s) && flight in s.inFlight
    ensures Descends(s, FlushOrSchedule(cfg, SettleFlight(s, flight, outcome), start))
  {
    var t := SettleFlight(s, flight, outcome);
    assert t.inFlight == {} && t.flushing.None?;
    var u := FlushOrSchedule(cfg, t, start);
    if AtLeast(|t.queue|, cfg.maxSize) {
      assert u.queue == [] && s.queue != [];
    } else {
      assert u.queue == s.queue && u.inFlight == {};
    }
  }

  lemma ResumeDescends<T>(cfg: Config, s: State<T>, id: nat, start: Start)
    requires Inv(cfg, s) && Ready(s, id)
    ensures Descends(s, ResumeCall(s, id, start))
  {
    var t := ResumeCall(s, id, start);
    if QueueRank(t) == QueueRank(s) {
      assert t.inFlight == s.inFlight && t.calls.Keys <= s.calls.Keys;
      assert !Ready(t, id);
      assert forall other | Ready(t, other) :: Ready(s, other);
      assert ReadyCalls(t) <= ReadyCalls(s) - {id};
      CardinalityMonotone(ReadyCalls(t), ReadyCalls(s) - {id});
    }
  }

  lemma CardinalityMonotone<T>(a: set<T>, b: set<T>)
    requires a <= b
    ensures |a| <= |b|
  {
    if a != {} {
      var x :| x in a;
      CardinalityMonotone(a - {x}, b - {x});
    }
  }

  /** When `onError` never throws, no reachable state holds documents that nothing will come back for. */
  lemma NotStranded<T(!new)>(cfg: Config, s: State<T>)
    requires Reachable(cfg, s) && !cfg.onErrorThrows
    ensures !Stranded(s)
  {
    ReachableInv(cfg, s);
    WaiterIsReady(cfg, s);
  }

  lemma WaiterIsReady<T>(cfg: Config, s: State<T>)
    requires Inv(cfg, s) && !cfg.onErrorThrows
    ensures !Stranded(s)
  {
    if s.queue != [] && s.timer != Armed && s.inFlight == {} {
      var id :| id in s.calls && s.calls[id].at.Waiting?;
      assert Ready(s, id);
    }
  }

  lemma QuiescentIsDrained<T>(cfg: Config, s: State<T>)
    requires Inv(cfg, s) && !cfg.onErrorThrows && Quiescent(s)
    ensures s.queue == [] && s.calls == map[]
  {
    WaiterIsReady(cfg, s);
    if s.calls != map[] {
      var id :| id in s.calls;
      assert Ready(s, id);
    }
  }

  /** A history without `enqueue` and `flush` calls that never stops while something can still run. */
  ghost predicate RunsOn<T(!new)>(cfg: Config, run: nat -> State<T>) {
    forall k: nat :: InternalStep(cfg, run(k), run(k + 1)) || (Quiescent(run(k)) && run(k + 1) == run(k))
  }

  /** Once producers stop, every run ends with an empty queue and no `flush()` call left waiting. */
  lemma Drains<T(!new)>(cfg: Config, run: nat -> State<T>)
    requires !cfg.onErrorThrows && Reachable(cfg, run(0)) && RunsOn(cfg, run)
    ensures exists n: nat :: run(n).queue == [] && run(n).calls == map[] && Quiescent(run(n))
  {
    ReachableInv(cfg, run(0));
    var n := DrainsFrom(cfg, run, 0);
  }

  lemma DrainsFrom<T(!new)>(cfg: Config, run: nat -> State<T>, k: nat) returns (n: nat)
    requires !cfg.onErrorThrows && Inv(cfg, run(k)) && RunsOn(cfg, run)
    ensures run(n).queue == [] && run(n).calls == map[] && Quiescent(run(n))
    decreases QueueRank(run(k)), |run(k).inFlight|, TimerRank(run(k)), |ReadyCalls(run(k))|
  {
    if Quiescent(run(k)) {
      QuiescentIsDrained(cfg, run(k));
      n := k;
    } else {
      assert InternalStep(cfg, run(k), run(k + 1));
      var step: Step<T> :| step.Internal() && Enabled(cfg, run(k), step) && run(k + 1) == Next(cfg, run(k), step);
      StepKeepsInv(cfg, run(k), step);
      InternalStepDescends(cfg, run(k), step);
      n := DrainsFrom(cfg, run, k + 1);
    }
  }

  // ---------------------------------------------------------------- exact conditions

  /**
   A throwing `onError` makes a waiter give up before it looks at the queue again.  With a stale timer the
   documents then stay behind; the one escape is a threshold of one document, where no timer is ever set.
   */
  lemma StrandingExactly<T(!new)>(cfg: Config, document: T)
    ensures (forall steps: seq<Step<T>> :: !Stranded(Exec(cfg, Init(), steps)))
            <==> !cfg.onErrorThrows || cfg.maxSize <= 1.0
  {
    if !cfg.onErrorThrows || cfg.maxSize <= 1.0 {
      forall steps: seq<Step<T>> ensures !Stranded(Exec(cfg, Init(), steps)) {
        ExecKeepsInv(cfg, Init(), steps);
        if !cfg.onErrorThrows {
          NotStranded(cfg, Exec(cfg, Init(), steps));
        }
      }
    } else {
      StrandingScript(cfg, document);
    }
  }

  /** The second document arrives during a flight, its timer fires, and the failing insert's handler throws. */
  lemma StrandingScript<T(!new)>(cfg: Config, document: T)
    requires cfg.onErrorThrows && cfg.maxSize > 1.0
    ensures exists steps: seq<Step<T>> :: Stranded(Exec(cfg, Init(), steps))
  {
    var arrive, flush, fire := Enqueue(document, Returns), Step.Flush(Returns), TimerFires(Returns);
    var fail := InsertSettles(0, Rejected, Returns);
    var s0: State<T> := Init();
    var s1 := Next(cfg, s0, arrive);
    var s2 := Next(cfg, s1, flush);
    var s3 := Next(cfg, s2, arrive);
    var s4 := Next(cfg, s3, fire);
    var s5 := Next(cfg, s4, fail);
    assert s2.queue == [] && s2.inFlight == {0};
    assert s4.timer == Fired && s4.queue == [document] && s4.calls[1] == Call(Waiting(0), 2);
    assert Stranded(s5);
    var steps := [arrive, flush, arrive, fire, fail];
    Follows(cfg, steps, [s0, s1, s2, s3, s4, s5]);
  }

  /** Documents are dropped only during an insert, unless some length reaches `maxQueueSize` and not `maxSize`. */
  lemma IdleDropsExactly<T(!new)>(cfg: Config, document: T)
    ensures (forall steps: seq<Step<T>> :: var s := Exec(cfg, Init(), steps); Full(cfg, s) ==> s.inFlight != {})
            <==> forall n: nat :: AtLeast(n, cfg.maxQueueSize) ==> AtLeast(n, cfg.maxSize)
  {
    if n: nat :| AtLeast(n, cfg.maxQueueSize) && !AtLeast(n, cfg.maxSize) {
      var m := LeastFull(cfg, n);
      var steps := Fill(cfg, Init(), document, m);
      var s := Exec(cfg, Init(), steps);
      assert Full(cfg, s) && s.inFlight == {};
    } else {
      forall steps: seq<Step<T>>
        ensures var s := Exec(cfg, Init(), steps); Full(cfg, s) ==> s.inFlight != {}
      {
        ExecKeepsInv(cfg, Init(), steps);
      }
    }
  }

  lemma LeastFull(cfg: Config, n: nat) returns (m: nat)
    requires AtLeast(n, cfg.maxQueueSize)
    ensures m <= n && AtLeast(m, cfg.maxQueueSize) && forall k: nat | k < m :: !AtLeast(k, cfg.maxQueueSize)
  {
    m := n;
    while m > 0 && AtLeast(m - 1, cfg.maxQueueSize)
      invariant m <= n && AtLeast(m, cfg.maxQueueSize)
    {
      m := m - 1;
    }
  }

  lemma Fill<T>(cfg: Config, s: State<T>, document: T, n: nat) returns (steps: seq<Step<T>>)
    requires s.flushing.None? && s.inFlight == {}
    requires forall k: nat | k < |s.queue| + n :: !AtLeast(k, cfg.maxQueueSize)
    requires !AtLeast(|s.queue| + n, cfg.maxSize)
    ensures var t := Exec(cfg, s, steps); |t.queue| == |s.queue| + n && t.inFlight == {}
    decreases n
  {
    if n == 0 {
      steps := [];
    } else {
      var step := Enqueue(document, Returns);
      var t := Next(cfg, s, step);
      assert !AtLeast(|s.queue| + 1, cfg.maxSize);
      var rest := Fill(cfg, t, document, n - 1);
      steps := [step] + rest;
    }
  }
}
