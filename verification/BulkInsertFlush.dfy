/** What a resolved `flush()` call means: for the documents accepted before it, and for their inserts. */
module BulkInsertFlush {
  import opened Options
  import opened BulkInsertSpec
  import opened BulkInsertProofs

  // ---------------------------------------------------------------- where a document went

  /** How many documents were handed over according to these verdicts. */
  function Handed(fates: seq<bool>): nat {
    if fates == [] then 0
    else Handed(fates[..|fates| - 1]) + if fates[|fates| - 1] then 1 else 0
  }

  lemma {:induction false} HandedPrefix(fates: seq<bool>, i: nat, j: nat)
    requires i < j <= |fates|
    ensures Handed(fates[..i]) + (if fates[i] then 1 else 0) <= Handed(fates[..j])
    decreases j
  {
    assert fates[..j][..j - 1] == fates[..j - 1];
    if i < j - 1 {
      HandedPrefix(fates, i, j - 1);
    }
  }

  /** The documents kept stand in the order of their verdicts. */
  lemma {:induction false} KeptAt<T>(documents: seq<T>, fates: seq<bool>, i: nat)
    requires |documents| == |fates| && i < |fates|
    ensures |Kept(documents, fates)| == Handed(fates)
    ensures fates[i] ==>
              Handed(fates[..i]) < Handed(fates) && Kept(documents, fates)[Handed(fates[..i])] == documents[i]
    decreases |fates|
  {
    var n := |fates| - 1;
    KeptLength(documents, fates);
    HandedDrops(fates);
    if i < n {
      KeptAt(documents[..n], fates[..n], i);
      assert fates[..n][..i] == fates[..i];
    } else {
      KeptLength(documents[..n], fates[..n]);
      HandedDrops(fates[..n]);
    }
  }

  lemma {:induction false} HandedDrops(fates: seq<bool>)
    ensures Handed(fates) + Drops(fates) == |fates|
  {
    if fates != [] {
      HandedDrops(fates[..|fates| - 1]);
    }
  }

  /**
   Once a `flush()` promise resolves, each document accepted before the call was dropped, or stands in the batches
   at its own place: the one after all documents accepted earlier and handed over.
   */
  lemma FlushMeans<T(!new)>(cfg: Config, s: State<T>, r: Resolution, i: nat)
    requires Reachable(cfg, s) && r in s.resolved && i < r.mark
    ensures i < |s.fates| <= |s.accepted|
    ensures s.fates[i] ==>
              var place := Handed(s.fates[..i]);
              place < |Flatten(s.batches)| && Flatten(s.batches)[place] == s.accepted[i]
    ensures forall j | i < j < |s.fates| && s.fates[i] :: Handed(s.fates[..i]) < Handed(s.fates[..j])
  {
    ReachableInv(cfg, s);
    KeptAt(s.accepted[..|s.fates|], s.fates, i);
    forall j | i < j < |s.fates| && s.fates[i] ensures Handed(s.fates[..i]) < Handed(s.fates[..j]) {
      HandedPrefix(s.fates, i, j);
    }
  }

  /** Document i was handed over in batch f: its place among the documents handed over lies within that batch. */
  predicate InBatch<T>(s: State<T>, i: nat, f: nat) {
    && i < |s.fates| && s.fates[i] && f < |s.batches|
    && |Flatten(s.batches[..f])| <= Handed(s.fates[..i]) < |Flatten(s.batches[..f + 1])|
  }

  /** And there it is. */
  lemma InBatchHolds<T(!new)>(cfg: Config, s: State<T>, i: nat, f: nat)
    requires Reachable(cfg, s) && InBatch(s, i, f)
    ensures i < |s.accepted|
    ensures var at := Handed(s.fates[..i]) - |Flatten(s.batches[..f])|;
            at < |s.batches[f]| && s.batches[f][at] == s.accepted[i]
  {
    ReachableInv(cfg, s);
    HandedAt(s, i);
    FlattenStep(s.batches, f);
    FlattenPrefix(s.batches, f + 1);
    assert Flatten(s.batches)[Handed(s.fates[..i])] == Flatten(s.batches[..f + 1])[Handed(s.fates[..i])];
  }

  lemma HandedAt<T>(s: State<T>, i: nat)
    requires Conserved(s) && i < |s.fates| && s.fates[i]
    ensures var place := Handed(s.fates[..i]);
            place < |Flatten(s.batches)| && Flatten(s.batches)[place] == s.accepted[i]
  {
    KeptAt(s.accepted[..|s.fates|], s.fates, i);
  }

  lemma FlattenStep<T>(batches: seq<seq<T>>, f: nat)
    requires f < |batches|
    ensures Flatten(batches[..f + 1]) == Flatten(batches[..f]) + batches[f]
  {
    assert batches[..f + 1][..f] == batches[..f];
  }

  lemma {:induction false} FlattenPrefix<T>(batches: seq<seq<T>>, f: nat)
    requires f <= |batches|
    ensures Flatten(batches[..f]) <= Flatten(batches)
    decreases |batches|
  {
    if f < |batches| {
      var n := |batches| - 1;
      FlattenPrefix(batches[..n], f);
      assert batches[..n][..f] == batches[..f];
    } else {
      assert batches[..f] == batches;
    }
  }

  // ---------------------------------------------------------------- the inserts a call waits for

  predicate HasResolved<T>(s: State<T>, id: nat) {
    exists r :: r in s.resolved && r.call == id
  }

  /** No insert in flight holds any of the first `mark` documents. */
  ghost predicate InsertsSettled<T>(s: State<T>, mark: nat) {
    forall i: nat, f: nat | i < mark && f in s.inFlight :: !InBatch(s, i, f)
  }

  /** Batch g was handed over when the first `mark` documents had all left the queue. */
  ghost predicate Later<T>(s: State<T>, g: nat, mark: nat) {
    mark <= |s.fates| && g < |s.batches| && Handed(s.fates[..mark]) <= |Flatten(s.batches[..g])|
  }

  lemma LaterHoldsNone<T>(s: State<T>, g: nat, mark: nat, i: nat)
    requires Later(s, g, mark) && i < mark
    ensures !InBatch(s, i, g)
  {
    HandedPrefix(s.fates, i, mark);
  }

  lemma LaterStays<T>(s: State<T>, t: State<T>, g: nat, mark: nat)
    requires Later(s, g, mark) && s.fates <= t.fates && s.batches <= t.batches
    ensures Later(t, g, mark)
  {
    assert t.fates[..mark] == s.fates[..mark] && t.batches[..g] == s.batches[..g];
  }

  /** A batch handed over now is later than any documents that have left the queue. */
  lemma NextIsLater<T>(s: State<T>, t: State<T>, mark: nat)
    requires Conserved(s) && mark <= |s.fates|
    requires s.fates <= t.fates && s.batches < t.batches
    ensures Later(t, |s.batches|, mark)
  {
    var n := |s.fates|;
    assert t.fates[..mark] == s.fates[..mark] && t.batches[..|s.batches|] == s.batches && s.fates[..n] == s.fates;
    if mark < n {
      HandedPrefix(s.fates, mark, n);
    }
    if n > 0 {
      KeptAt(s.accepted[..n], s.fates, 0);
    }
  }

  /**
   The documents of call `id` have left the queue, and of the inserts that may hold one of them, only `awaited`
   can be in flight, while the call is suspended behind it.
   */
  ghost predicate Serves<T>(s: State<T>, id: nat, mark: nat, awaited: Option<nat>) {
    && id < s.nextCall && mark <= |s.fates|
    && (HasResolved(s, id) ==> id !in s.calls)
    && (forall g: nat | g in s.inFlight :: Some(g) == awaited || Later(s, g, mark))
    && (awaited.Some? ==>
          awaited.value < |s.batches| && (awaited.value in s.inFlight ==> SuspendedOn(s, id, awaited.value)))
  }

  predicate SuspendedOn<T>(s: State<T>, id: nat, f: nat) {
    id in s.calls && s.calls[id].at.flight == f
  }

  lemma ServedCall<T>(s: State<T>, id: nat, mark: nat, awaited: Option<nat>)
    requires Serves(s, id, mark, awaited) && HasResolved(s, id)
    ensures InsertsSettled(s, mark)
  {
    forall i: nat, f: nat | i < mark && f in s.inFlight ensures !InBatch(s, i, f) {
      LaterHoldsNone(s, f, mark, i);
    }
  }

  /** The call may only be the one being served once nothing it waited for is in flight. */
  lemma FlushCallServes<T>(s: State<T>, id: nat, mark: nat, awaited: Option<nat>,
                           call: nat, callMark: nat, start: Start)
    requires Serves(s, id, mark, awaited) && Conserved(s)
    requires s.inFlight == (if s.flushing.Some? then {s.flushing.value} else {})
    requires call == id ==> id !in s.calls && !HasResolved(s, id)
    ensures Serves(FlushCall(s, call, callMark, start), id, mark, awaited)
  {
    var t := FlushCall(s, call, callMark, start);
    assert s.fates <= t.fates && s.batches <= t.batches;
    forall g: nat | g in t.inFlight ensures Some(g) == awaited || Later(t, g, mark) {
      if g in s.inFlight {
        if Some(g) != awaited {
          LaterStays(s, t, g, mark);
        }
      } else {
        NextIsLater(s, t, mark);
      }
    }
  }

  lemma StepServes<T>(cfg: Config, s: State<T>, id: nat, mark: nat, awaited: Option<nat>, step: Step<T>)
    requires Inv(cfg, s) && Serves(s, id, mark, awaited) && Enabled(cfg, s, step)
    ensures Serves(Next(cfg, s, step), id, mark, awaited)
  {
    match step
    case Enqueue(document, start) =>
      EnqueueServes(cfg, s, id, mark, awaited, document, start);
    case Flush(start) =>
      NewFlushServes(s, id, mark, awaited, start);
    case TimerFires(start) =>
      NewFlushServes(s.(timer := Fired), id, mark, awaited, start);
    case InsertSettles(flight, outcome, start) =>
      SettleServes(cfg, s, id, mark, awaited, flight, outcome, start);
    case Resume(call, start) =>
      ResumeServes(s, id, mark, awaited, call, start);
  }

  lemma EnqueueServes<T>(cfg: Config, s: State<T>, id: nat, mark: nat, awaited: Option<nat>, document: T, start: Start)
    requires Inv(cfg, s) && Serves(s, id, mark, awaited)
    ensures Serves(FlushOrSchedule(cfg, Accept(cfg, s, document), start), id, mark, awaited)
  {
    var t := Accept(cfg, s, document);
    AcceptKeeps(cfg, s, document);
    KeepsServing(s, t, id, mark, awaited);
    FlushOrScheduleServes(cfg, t, id, mark, awaited, start);
  }

  lemma SettleServes<T>(cfg: Config, s: State<T>, id: nat, mark: nat, awaited: Option<nat>,
                        flight: nat, outcome: Outcome, start: Start)
    requires Inv(cfg, s) && Serves(s, id, mark, awaited)
    requires Enabled(cfg, s, InsertSettles(flight, outcome, start))
    ensures Serves(FlushOrSchedule(cfg, SettleFlight(s, flight, outcome), start), id, mark, awaited)
  {
    var t := SettleFlight(s, flight, outcome);
    SettleKeeps(cfg, s, flight, outcome, start);
    KeepsServing(s, t, id, mark, awaited);
    FlushOrScheduleServes(cfg, t, id, mark, awaited, start);
  }

  lemma KeepsServing<T>(s: State<T>, t: State<T>, id: nat, mark: nat, awaited: Option<nat>)
    requires Serves(s, id, mark, awaited)
    requires t.calls == s.calls && t.nextCall >= s.nextCall && t.resolved == s.resolved && t.inFlight <= s.inFlight
    requires s.fates <= t.fates && s.batches <= t.batches
    ensures Serves(t, id, mark, awaited)
  {
    forall g: nat | g in t.inFlight ensures Some(g) == awaited || Later(t, g, mark) {
      if Some(g) != awaited {
        LaterStays(s, t, g, mark);
      }
    }
  }

  lemma NewFlushServes<T>(s: State<T>, id: nat, mark: nat, awaited: Option<nat>, start: Start)
    requires Serves(s, id, mark, awaited) && Conserved(s)
    requires s.inFlight == (if s.flushing.Some? then {s.flushing.value} else {})
    ensures Serves(NewFlush(s, start), id, mark, awaited)
  {
    var t := s.(nextCall := s.nextCall + 1);
    KeepsServing(s, t, id, mark, awaited);
    FlushCallServes(t, id, mark, awaited, s.nextCall, |s.accepted|, start);
  }

  lemma FlushOrScheduleServes<T>(cfg: Config, s: State<T>, id: nat, mark: nat, awaited: Option<nat>, start: Start)
    requires Serves(s, id, mark, awaited) && Conserved(s)
    requires s.inFlight == (if s.flushing.Some? then {s.flushing.value} else {})
    ensures Serves(FlushOrSchedule(cfg, s, start), id, mark, awaited)
  {
    if AtLeast(|s.queue|, cfg.maxSize) {
      NewFlushServes(s, id, mark, awaited, start);
    } else {
      KeepsServing(s, ScheduleFlush(s), id, mark, awaited);
    }
  }

  lemma ResumeServes<T>(s: State<T>, id: nat, mark: nat, awaited: Option<nat>, call: nat, start: Start)
    requires Serves(s, id, mark, awaited) && Conserved(s) && Ready(s, call)
    requires s.inFlight == (if s.flushing.Some? then {s.flushing.value} else {})
    ensures Serves(ResumeCall(s, call, start), id, mark, awaited)
  {
    var rest := s.(calls := s.calls - {call});
    assert Serves(rest, id, mark, awaited) by {
      forall g: nat | g in rest.inFlight ensures Some(g) == awaited || Later(rest, g, mark) {
        assert Some(g) != awaited ==> Later(s, g, mark);
      }
    }
    var suspended := s.calls[call];
    if suspended.at.flight !in s.broken {
      if suspended.at.Waiting? && s.queue != [] {
        FlushCallServes(rest, id, mark, awaited, call, suspended.mark, start);
      } else {
        var t := ResolveCall(rest, call, suspended.mark);
        forall g: nat | g in t.inFlight ensures Some(g) == awaited || Later(t, g, mark) {
          assert Some(g) != awaited ==> Later(rest, g, mark);
        }
      }
    }
  }

  lemma {:induction false} ExecServes<T>(cfg: Config, s: State<T>, id: nat, mark: nat, awaited: Option<nat>,
                                         steps: seq<Step<T>>)
    requires Inv(cfg, s) && Serves(s, id, mark, awaited)
    ensures Serves(Exec(cfg, s, steps), id, mark, awaited)
    decreases |steps|
  {
    if steps != [] {
      if Enabled(cfg, s, steps[0]) {
        StepServes(cfg, s, id, mark, awaited, steps[0]);
        StepKeepsInv(cfg, s, steps[0]);
        ExecServes(cfg, Next(cfg, s, steps[0]), id, mark, awaited, steps[1..]);
      } else {
        ExecServes(cfg, s, id, mark, awaited, steps[1..]);
      }
    }
  }

  // ---------------------------------------------------------------- the exact condition

  lemma CallIsNew<T>(cfg: Config, s: State<T>)
    requires Inv(cfg, s)
    ensures s.nextCall !in s.calls && !HasResolved(s, s.nextCall)
  {
  }

  /** A call that finds no insert running, or no document queued, is served from the start. */
  lemma FlushStartsServing<T>(cfg: Config, s: State<T>, start: Start) returns (awaited: Option<nat>)
    requires Inv(cfg, s) && (s.flushing.None? || s.queue == [])
    ensures Serves(NewFlush(s, start), s.nextCall, |s.accepted|, awaited)
  {
    CallIsNew(cfg, s);
    var t := NewFlush(s, start);
    awaited := t.flushing;
    if t.resolved != s.resolved {
      assert t.resolved[..|s.resolved|] == s.resolved;
    }
    assert s.nextCall in t.calls ==> t.resolved == s.resolved;
  }

  /** A call that waits behind an insert with documents queued may resolve while their own insert is running. */
  lemma ResolvesTooEarly<T>(cfg: Config, s: State<T>, start: Start) returns (steps: seq<Step<T>>)
    requires Inv(cfg, s) && s.flushing.Some? && s.queue != []
    ensures var u := Exec(cfg, NewFlush(s, start), steps);
            && HasResolved(u, s.nextCall)
            && |s.batches| in u.inFlight && |s.batches| < |u.batches| && u.batches[|s.batches|] == s.queue
            && InBatch(u, |s.fates|, |s.batches|) && |s.fates| < |s.accepted|
  {
    var f := s.flushing.value;
    steps := [InsertSettles(f, Settled, Returns), Step.Flush(Returns), Resume(s.nextCall, Returns)];
    var s0 := NewFlush(s, start);
    var s1 := Next(cfg, s0, steps[0]);
    var s2 := Next(cfg, s1, steps[1]);
    SettledThenFlushed(cfg, s, start);
    var s3 := Next(cfg, s2, steps[2]);
    Follows(cfg, steps, [s0, s1, s2, s3]);
    QueueIsInBatch(s, s3);
  }

  /** The queue of s as batch |s.batches| in flight, and call `id` still waiting behind the insert before it. */
  ghost predicate Passed<T>(s: State<T>, u: State<T>, id: nat, f: nat) {
    && u.queue == [] && u.flushing == Some(|s.batches|) && u.inFlight == {|s.batches|}
    && u.batches == s.batches + [s.queue] && u.fates == s.fates + Verdicts(true, |s.queue|)
    && f !in u.broken && id in u.calls && u.calls[id] == Call(Waiting(f), |s.accepted|)
  }

  lemma HandsQueueOver<T>(s: State<T>, a: State<T>, id: nat, f: nat)
    requires a.flushing.None? && a.inFlight == {} && a.queue == s.queue != []
    requires a.batches == s.batches && a.fates == s.fates && f !in a.broken
    requires id < a.nextCall && id in a.calls && a.calls[id] == Call(Waiting(f), |s.accepted|)
    ensures Passed(s, NewFlush(a, Returns), id, f)
  {
  }

  lemma SettledThenFlushed<T>(cfg: Config, s: State<T>, start: Start)
    requires Inv(cfg, s) && s.flushing.Some? && s.queue != []
    ensures var f, waiting := s.flushing.value, NewFlush(s, start);
            && f < |s.batches| && Enabled(cfg, waiting, InsertSettles(f, Settled, Returns))
            && var after := FlushOrSchedule(cfg, SettleFlight(waiting, f, Settled), Returns);
               Passed(s, NewFlush(after, Returns), s.nextCall, f)
  {
    var f := s.flushing.value;
    var a := SettleFlight(NewFlush(s, start), f, Settled);
    if AtLeast(|a.queue|, cfg.maxSize) {
      HandsQueueOver(s, a, s.nextCall, f);
    } else {
      HandsQueueOver(s, ScheduleFlush(a), s.nextCall, f);
    }
  }

  /** The whole queue handed over at once goes into one batch, its first document included. */
  lemma QueueIsInBatch<T>(s: State<T>, u: State<T>)
    requires Conserved(s) && s.queue != []
    requires u.batches == s.batches + [s.queue] && u.fates == s.fates + Verdicts(true, |s.queue|)
    ensures InBatch(u, |s.fates|, |s.batches|)
  {
    var n, g := |s.fates|, |s.batches|;
    assert u.fates[..n] == s.fates && s.fates[..n] == s.fates;
    assert u.batches[..g] == s.batches && u.batches[..g + 1] == u.batches;
    FlattenStep(u.batches, g);
    if n > 0 {
      KeptAt(s.accepted[..n], s.fates, 0);
    }
  }

  /**
   A `flush()` promise resolves only after the inserts of all documents accepted before the call have settled, in
   every continuation, exactly when the call finds no insert running or nothing queued.
   */
  lemma ResolvesAfterInsertsExactly<T(!new)>(cfg: Config, s: State<T>, start: Start)
    requires Reachable(cfg, s)
    ensures (forall steps: seq<Step<T>> ::
               var u := Exec(cfg, Next(cfg, s, Step.Flush(start)), steps);
               HasResolved(u, s.nextCall) ==> InsertsSettled(u, |s.accepted|))
            <==> s.flushing.None? || s.queue == []
  {
    ReachableInv(cfg, s);
    var t := NewFlush(s, start);
    assert t == Next(cfg, s, Step.Flush(start));
    if s.flushing.None? || s.queue == [] {
      var awaited := FlushStartsServing(cfg, s, start);
      StepKeepsInv(cfg, s, Step.Flush(start));
      forall steps: seq<Step<T>> | HasResolved(Exec(cfg, t, steps), s.nextCall)
        ensures InsertsSettled(Exec(cfg, t, steps), |s.accepted|)
      {
        ExecServes(cfg, t, s.nextCall, |s.accepted|, awaited, steps);
        ServedCall(Exec(cfg, t, steps), s.nextCall, |s.accepted|, awaited);
      }
    } else {
      var steps := ResolvesTooEarly(cfg, s, start);
      var u := Exec(cfg, t, steps);
      assert InBatch(u, |s.fates|, |s.batches|);
      assert HasResolved(u, s.nextCall) && !InsertsSettled(u, |s.accepted|);
    }
  }
}
