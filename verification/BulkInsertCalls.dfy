/** What becomes of every `flush()` call: it resolves, or it rejects for one of two reasons. */
module BulkInsertCalls {
  import opened Options
  import opened BulkInsertSpec
  import opened BulkInsertProofs
  import opened BulkInsertTheorems
  import opened BulkInsertFlush

  /** The call has resolved, answering for that many documents. */
  ghost predicate ResolvedWith<T>(s: State<T>, id: nat, mark: nat) {
    exists r :: r in s.resolved && r.call == id && r.mark == mark
  }

  predicate Pending<T>(s: State<T>, id: nat, mark: nat) {
    id in s.calls && s.calls[id].mark == mark
  }

  ghost predicate Tracked<T>(s: State<T>, id: nat, mark: nat) {
    Pending(s, id, mark) || ResolvedWith(s, id, mark)
  }

  // ---------------------------------------------------------------- no call resolves twice

  ghost predicate Once<T>(s: State<T>) {
    && (forall id | id in s.calls :: id < s.nextCall)
    && (forall r | r in s.resolved :: r.call < s.nextCall && r.call !in s.calls)
    && forall i, j | 0 <= i < j < |s.resolved| :: s.resolved[i].call != s.resolved[j].call
  }

  lemma ResolveOnce<T>(s: State<T>, id: nat, mark: nat)
    requires Once(s) && id < s.nextCall && id !in s.calls && !HasResolved(s, id)
    ensures Once(ResolveCall(s, id, mark))
  {
    var t := ResolveCall(s, id, mark);
    forall i, j | 0 <= i < j < |t.resolved| ensures t.resolved[i].call != t.resolved[j].call {
      assert s.resolved[i] in s.resolved;
    }
  }

  lemma FlushCallOnce<T>(s: State<T>, id: nat, mark: nat, start: Start)
    requires Once(s) && id < s.nextCall && id !in s.calls && !HasResolved(s, id)
    ensures Once(FlushCall(s, id, mark, start))
  {
    if s.flushing.None? && s.queue == [] {
      ResolveOnce(s.(timer := Null), id, mark);
    }
  }

  lemma NewFlushOnce<T>(s: State<T>, start: Start)
    requires Once(s)
    ensures Once(NewFlush(s, start))
  {
    FlushCallOnce(s.(nextCall := s.nextCall + 1), s.nextCall, |s.accepted|, start);
  }

  lemma ResumeOnce<T>(s: State<T>, id: nat, start: Start)
    requires Once(s) && id in s.calls
    ensures Once(ResumeCall(s, id, start))
  {
    var rest := s.(calls := s.calls - {id});
    assert Once(rest) && !HasResolved(rest, id);
    if s.calls[id].at.Waiting? && s.queue != [] {
      FlushCallOnce(rest, id, s.calls[id].mark, start);
    } else {
      ResolveOnce(rest, id, s.calls[id].mark);
    }
  }

  lemma StepOnce<T>(cfg: Config, s: State<T>, step: Step<T>)
    requires Once(s) && Enabled(cfg, s, step)
    ensures Once(Next(cfg, s, step))
  {
    match step
    case Enqueue(document, start) => NewFlushOnce(Accept(cfg, s, document), start);
    case Flush(start) => NewFlushOnce(s, start);
    case TimerFires(start) => NewFlushOnce(s.(timer := Fired), start);
    case InsertSettles(flight, outcome, start) => NewFlushOnce(SettleFlight(s, flight, outcome), start);
    case Resume(id, start) => ResumeOnce(s, id, start);
  }

  lemma {:induction false} ExecOnce<T>(cfg: Config, s: State<T>, steps: seq<Step<T>>)
    requires Once(s)
    ensures Once(Exec(cfg, s, steps))
    decreases |steps|
  {
    if steps != [] {
      if Enabled(cfg, s, steps[0]) {
        StepOnce(cfg, s, steps[0]);
        ExecOnce(cfg, Next(cfg, s, steps[0]), steps[1..]);
      } else {
        ExecOnce(cfg, s, steps[1..]);
      }
    }
  }

  /** A `flush()` promise resolves at most once, and not while its call is still suspended. */
  lemma ResolvesAtMostOnce<T(!new)>(cfg: Config, s: State<T>)
    requires Reachable(cfg, s)
    ensures Once(s)
  {
    var steps :| s == Exec(cfg, Init(), steps);
    ExecOnce(cfg, Init(), steps);
  }

  // ---------------------------------------------------------------- how a call is lost

  /**
   The call rejects: the error handler of the insert it waited for threw, or the call hands the queue over itself
   and `insertMany` throws.
   */
  predicate Rejects<T>(s: State<T>, step: Step<T>, id: nat) {
    && step.Resume? && step.call == id && id in s.calls
    && (s.calls[id].at.flight in s.broken
        || (s.calls[id].at.Waiting? && s.flushing.None? && s.queue != [] && step.start.Throws?))
  }

  lemma ResolvedStays<T>(s: State<T>, t: State<T>, id: nat, mark: nat)
    requires ResolvedWith(s, id, mark) && s.resolved <= t.resolved
    ensures ResolvedWith(t, id, mark)
  {
    var r :| r in s.resolved && r.call == id && r.mark == mark;
    assert r in t.resolved;
  }

  lemma FlushCallTracks<T>(s: State<T>, call: nat, callMark: nat, start: Start, id: nat, mark: nat)
    requires Tracked(s, id, mark) && call != id
    ensures Tracked(FlushCall(s, call, callMark, start), id, mark)
  {
    if ResolvedWith(s, id, mark) {
      ResolvedStays(s, FlushCall(s, call, callMark, start), id, mark);
    }
  }

  /** The call that flushes is resolved or suspended afterwards, unless `insertMany` throws. */
  lemma FlushingCall<T>(s: State<T>, id: nat, mark: nat, start: Start)
    requires id !in s.calls && !HasResolved(s, id)
    ensures Tracked(FlushCall(s, id, mark, start), id, mark) <==> s.flushing.Some? || s.queue == [] || start.Returns?
  {
    var t := FlushCall(s, id, mark, start);
    if s.flushing.None? && s.queue == [] {
      assert t.resolved[|s.resolved|] == Resolution(id, mark, |s.fates|);
    }
  }

  lemma OtherStepTracks<T>(cfg: Config, s: State<T>, step: Step<T>, id: nat, mark: nat)
    requires Once(s) && Enabled(cfg, s, step) && Tracked(s, id, mark) && !step.Resume?
    ensures Tracked(Next(cfg, s, step), id, mark)
  {
    assert id < s.nextCall;
    match step
    case Enqueue(document, start) =>
      var t := Accept(cfg, s, document);
      FlushCallTracks(t.(nextCall := t.nextCall + 1), t.nextCall, |t.accepted|, start, id, mark);
    case Flush(start) =>
      FlushCallTracks(s.(nextCall := s.nextCall + 1), s.nextCall, |s.accepted|, start, id, mark);
    case TimerFires(start) =>
      FlushCallTracks(s.(timer := Fired, nextCall := s.nextCall + 1), s.nextCall, |s.accepted|, start, id, mark);
    case InsertSettles(flight, outcome, start) =>
      var t := SettleFlight(s, flight, outcome);
      FlushCallTracks(t.(nextCall := t.nextCall + 1), t.nextCall, |t.accepted|, start, id, mark);
  }

  lemma OtherResumeTracks<T>(s: State<T>, call: nat, start: Start, id: nat, mark: nat)
    requires call in s.calls && Tracked(s, id, mark) && call != id
    ensures Tracked(ResumeCall(s, call, start), id, mark)
  {
    var rest := s.(calls := s.calls - {call});
    assert Tracked(rest, id, mark) by {
      if ResolvedWith(s, id, mark) {
        ResolvedStays(s, rest, id, mark);
      }
    }
    if s.calls[call].at.Waiting? && s.queue != [] {
      FlushCallTracks(rest, call, s.calls[call].mark, start, id, mark);
    } else if ResolvedWith(s, id, mark) {
      ResolvedStays(s, ResolveCall(rest, call, s.calls[call].mark), id, mark);
    }
  }

  lemma OwnResume<T>(s: State<T>, id: nat, start: Start)
    requires Once(s) && id in s.calls
    ensures Tracked(ResumeCall(s, id, start), id, s.calls[id].mark) <==> !Rejects(s, Resume(id, start), id)
  {
    var mark, rest := s.calls[id].mark, s.(calls := s.calls - {id});
    assert !HasResolved(rest, id);
    FlushingCall(rest, id, mark, start);
    var t := ResolveCall(rest, id, mark);
    assert t.resolved[|s.resolved|] == Resolution(id, mark, |s.fates|);
  }

  /** A suspended call goes on being suspended, or resolves for its own documents, exactly unless it rejects. */
  lemma CallIsLostExactly<T>(cfg: Config, s: State<T>, step: Step<T>, id: nat)
    requires Once(s) && Enabled(cfg, s, step) && id in s.calls
    ensures Tracked(Next(cfg, s, step), id, s.calls[id].mark) <==> !Rejects(s, step, id)
  {
    if !step.Resume? {
      OtherStepTracks(cfg, s, step, id, s.calls[id].mark);
    } else if step.call == id {
      OwnResume(s, id, step.start);
    } else {
      OtherResumeTracks(s, step.call, step.start, id, s.calls[id].mark);
    }
  }

  /** A new call answers for all documents accepted so far, unless `insertMany` throws at once. */
  lemma NewCallIsTracked<T>(cfg: Config, s: State<T>, start: Start)
    requires Once(s)
    ensures Tracked(Next(cfg, s, Step.Flush(start)), s.nextCall, |s.accepted|)
            <==> s.flushing.Some? || s.queue == [] || start.Returns?
  {
    FlushingCall(s.(nextCall := s.nextCall + 1), s.nextCall, |s.accepted|, start);
  }

  /** It resolves at once exactly on an idle buffer with nothing queued. */
  lemma ResolvesAtOnceExactly<T>(cfg: Config, s: State<T>, start: Start)
    requires Once(s)
    ensures HasResolved(Next(cfg, s, Step.Flush(start)), s.nextCall) <==> s.flushing.None? && s.queue == []
  {
    var t := Next(cfg, s, Step.Flush(start));
    if s.flushing.None? && s.queue == [] {
      assert t.resolved[|s.resolved|].call == s.nextCall;
    }
  }

  // ---------------------------------------------------------------- every call resolves

  ghost predicate ReturningStep<T(!new)>(cfg: Config, s: State<T>, t: State<T>) {
    exists step: Step<T> :: step.Internal() && step.start.Returns? && Enabled(cfg, s, step) && t == Next(cfg, s, step)
  }

  /** A history without producers, in which every call of `insertMany` returns a promise. */
  ghost predicate ReturningRun<T(!new)>(cfg: Config, run: nat -> State<T>) {
    forall k: nat :: ReturningStep(cfg, run(k), run(k + 1)) || (Quiescent(run(k)) && run(k + 1) == run(k))
  }

  lemma {:induction false} RunTracks<T(!new)>(cfg: Config, run: nat -> State<T>, n: nat, id: nat, mark: nat)
    requires !cfg.onErrorThrows && ReturningRun(cfg, run)
    requires Inv(cfg, run(0)) && Once(run(0)) && Tracked(run(0), id, mark)
    ensures Inv(cfg, run(n)) && Once(run(n)) && Tracked(run(n), id, mark)
  {
    if n > 0 {
      RunTracks(cfg, run, n - 1, id, mark);
      var s := run(n - 1);
      assert ReturningStep(cfg, s, run(n - 1 + 1)) || (Quiescent(s) && run(n - 1 + 1) == s);
      if ReturningStep(cfg, s, run(n)) {
        var step: Step<T> :|
          step.Internal() && step.start.Returns? && Enabled(cfg, s, step) && run(n) == Next(cfg, s, step);
        StepKeepsInv(cfg, s, step);
        StepOnce(cfg, s, step);
        StepTracks(cfg, s, step, id, mark);
      }
    }
  }

  lemma StepTracks<T>(cfg: Config, s: State<T>, step: Step<T>, id: nat, mark: nat)
    requires Once(s) && s.broken == {} && Enabled(cfg, s, step) && step.start.Returns? && Tracked(s, id, mark)
    ensures Tracked(Next(cfg, s, step), id, mark)
  {
    if Pending(s, id, mark) {
      CallIsLostExactly(cfg, s, step, id);
    } else if step.Resume? {
      OtherResumeTracks(s, step.call, step.start, id, mark);
    } else {
      OtherStepTracks(cfg, s, step, id, mark);
    }
  }

  /**
   If `onError` never throws and `insertMany` always returns a promise, then once producers stop the queue empties
   and every suspended `flush()` call resolves, each for the documents accepted before it.
   */
  lemma CallsResolve<T(!new)>(cfg: Config, run: nat -> State<T>)
    requires !cfg.onErrorThrows && Reachable(cfg, run(0)) && ReturningRun(cfg, run)
    ensures exists n: nat ::
              && run(n).queue == [] && run(n).calls == map[]
              && forall id | id in run(0).calls :: ResolvedWith(run(n), id, run(0).calls[id].mark)
  {
    assert RunsOn(cfg, run) by {
      forall k: nat ensures InternalStep(cfg, run(k), run(k + 1)) || (Quiescent(run(k)) && run(k + 1) == run(k)) {
        assert ReturningStep(cfg, run(k), run(k + 1)) || (Quiescent(run(k)) && run(k + 1) == run(k));
      }
    }
    Drains(cfg, run);
    var n: nat :| run(n).queue == [] && run(n).calls == map[] && Quiescent(run(n));
    ReachableInv(cfg, run(0));
    ResolvesAtMostOnce(cfg, run(0));
    forall id | id in run(0).calls ensures ResolvedWith(run(n), id, run(0).calls[id].mark) {
      RunTracks(cfg, run, n, id, run(0).calls[id].mark);
    }
  }
}
