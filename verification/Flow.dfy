/**
 The flow adapter: handlers run one at a time.  A handler that has called `next` by the time it settles hands
 over to the next one, one that has not resolves the flow, and one that throws rejects it.  The code gets there
 through an event emitter, a stack of handlers and a flag per handler; here each event is one step.  A handler
 is known by its index.
 */
module Flow {

  /** How a handler ended: with `next` called, without, or by throwing. */
  datatype End = Continue | Stop | Fail(error: string)

  datatype Verdict = Resolved | Rejected(error: string)

  /** `next` may be called at any time once its handler has been started, even after the handler settled. */
  datatype Event = CallNext(handler: nat) | Return(handler: nat) | Throw(handler: nat, error: string)

  datatype State = State(
    count: nat,
    callStack: seq<nat>,            // handlers still to start, the next one last
    active: set<nat>,               // handlers started and not settled
    nextCalled: set<nat>,           // the nextFunctionWasCalled flags
    listening: bool,                // whether the listeners are still there
    started: seq<nat>,              // every start so far
    settled: seq<nat>,              // every handler that settled so far
    ends: seq<End>,                 // and how it ended
    verdicts: seq<Verdict>          // every call of resolve or reject so far
  )

  // ---------------------------------------------------------------- the steps of the source

  function Backwards(n: nat): (r: seq<nat>)
    ensures |r| == n && forall i | 0 <= i < n :: r[i] == n - 1 - i
  {
    seq(n, i requires 0 <= i < n => n - 1 - i)
  }

  function EmitVerdict(s: State, verdict: Verdict): State {
    if s.listening then s.(listening := false, verdicts := s.verdicts + [verdict]) else s
  }

  function EmitNext(s: State): State {
    if !s.listening then s
    else if s.callStack == [] then EmitVerdict(s, Resolved)
    else
      var last := |s.callStack| - 1;
      var i := s.callStack[last];
      s.(callStack := s.callStack[..last], active := s.active + {i}, started := s.started + [i])
  }

  function Initial(n: nat): State {
    EmitNext(State(n, Backwards(n), {}, {}, true, [], [], [], []))
  }

  predicate Enabled(s: State, e: Event) {
    if e.CallNext? then e.handler in s.started else e.handler in s.active
  }

  function EndOf(s: State, e: Event): End
    requires !e.CallNext?
  {
    if e.Throw? then Fail(e.error) else if e.handler in s.nextCalled then Continue else Stop
  }

  function Emit(s: State, end: End): State {
    match end
    case Continue => EmitNext(s)
    case Stop => EmitVerdict(s, Resolved)
    case Fail(error) => EmitVerdict(s, Rejected(error))
  }

  function Next(s: State, e: Event): State
    requires Enabled(s, e)
  {
    if e.CallNext? then s.(nextCalled := s.nextCalled + {e.handler})
    else
      var end := EndOf(s, e);
      Emit(s.(active := s.active - {e.handler}, settled := s.settled + [e.handler], ends := s.ends + [end]), end)
  }

  /** Some state reached from `s` by the events, each enabled when it happens. */
  predicate Run(s: State, events: seq<Event>, t: State)
    decreases |events|
  {
    if events == [] then s == t else Enabled(s, events[0]) && Run(Next(s, events[0]), events[1..], t)
  }

  // ---------------------------------------------------------------- what the chain means

  /**
   The verdict of a chain of `n` handlers given how the first ones ended, none if it is still going: the first
   handler that stops or throws decides, and a chain that runs to its end resolves.
   */
  function Chain(ends: seq<End>, n: nat): seq<Verdict> {
    if n == 0 then [Resolved]
    else if ends == [] then []
    else
      match ends[0]
      case Continue => Chain(ends[1..], n - 1)
      case Stop => [Resolved]
      case Fail(error) => [Rejected(error)]
  }

  /** All handlers but possibly the last one to settle went on. */
  predicate GoesOn(ends: seq<End>) {
    forall i | 0 <= i < |ends| - 1 :: ends[i] == Continue
  }

  lemma {:induction false} ChainIsLast(ends: seq<End>, n: nat)
    requires GoesOn(ends) && |ends| <= n
    ensures Chain(ends, n) ==
            if ends == [] then (if n == 0 then [Resolved] else [])
            else match ends[|ends| - 1]
                 case Continue => if |ends| == n then [Resolved] else []
                 case Stop => [Resolved]
                 case Fail(error) => [Rejected(error)]
  {
    if |ends| > 1 {
      assert forall i | 0 <= i < |ends[1..]| - 1 :: ends[1..][i] == ends[i + 1];
      ChainIsLast(ends[1..], n - 1);
    }
  }

  /** Handlers start and settle in order, one at a time, until the chain has its verdict. */
  ghost predicate Inv(s: State) {
    && |s.ends| <= |s.started| <= s.count
    && s.callStack == Backwards(s.count)[..s.count - |s.started|]
    && (forall i | 0 <= i < |s.started| :: s.started[i] == i)
    && |s.settled| == |s.ends| && (forall i | 0 <= i < |s.ends| :: s.settled[i] == i)
    && GoesOn(s.ends)
    && s.verdicts == Chain(s.ends, s.count)
    && s.listening == (s.verdicts == [])
    && (if s.listening then s.active == {|s.ends|} && |s.started| == |s.ends| + 1
        else s.active == {} && |s.started| == |s.ends|)
  }

  lemma InitialInv(n: nat)
    ensures Inv(Initial(n)) && Initial(n).count == n
  {
    assert Backwards(n)[..n] == Backwards(n);
  }

  lemma NextInv(s: State, e: Event)
    requires Inv(s) && Enabled(s, e)
    ensures Inv(Next(s, e)) && Next(s, e).count == s.count
    ensures !e.CallNext? ==> e.handler == |s.ends| && Next(s, e).ends == s.ends + [EndOf(s, e)]
  {
    if !e.CallNext? {
      ChainIsLast(s.ends, s.count);
      ChainIsLast(s.ends + [EndOf(s, e)], s.count);
    }
  }

  lemma {:induction false} RunInv(s: State, events: seq<Event>, t: State)
    requires Inv(s) && Run(s, events, t)
    ensures Inv(t) && t.count == s.count
    decreases |events|
  {
    if events != [] {
      NextInv(s, events[0]);
      RunInv(Next(s, events[0]), events[1..], t);
    }
  }

  // ---------------------------------------------------------------- what holds of every run

  /**
   In every run the handlers start in order, each once and only after the one before it has settled with `next`
   called; the promise settles at most once, with the verdict of the chain; and nothing runs after that.
   */
  lemma RunIsChain(n: nat, events: seq<Event>, s: State)
    requires Run(Initial(n), events, s)
    ensures forall i | 0 <= i < |s.started| :: s.started[i] == i
    ensures |s.started| <= n && s.verdicts == Chain(s.ends, n) && |s.verdicts| <= 1
    ensures s.active == if s.verdicts == [] then {|s.ends|} else {}
    ensures |s.started| == |s.ends| + |s.active|
    ensures forall i | 0 <= i < |s.started| - 1 :: s.ends[i] == Continue
  {
    InitialInv(n);
    RunInv(Initial(n), events, s);
    ChainIsLast(s.ends, n);
  }

  /** The settling events of a run, in order. */
  function Settlements(events: seq<Event>): seq<Event>
  {
    if events == [] then [] else (if events[0].CallNext? then [] else [events[0]]) + Settlements(events[1..])
  }

  /** A run without further settling to come has settled its promise; before that some handler is active. */
  lemma {:induction false} StopsWithVerdict(n: nat, events: seq<Event>, s: State)
    requires Run(Initial(n), events, s)
    ensures s.active == {} <==> |s.verdicts| == 1
    ensures |Settlements(events)| == |s.ends| <= n
  {
    RunIsChain(n, events, s);
    InitialInv(n);
    CountSettlements(Initial(n), events, s);
  }

  lemma {:induction false} CountSettlements(s: State, events: seq<Event>, t: State)
    requires Inv(s) && Run(s, events, t)
    ensures |t.ends| == |s.ends| + |Settlements(events)|
    ensures forall k | 0 <= k < |Settlements(events)| :: Settlements(events)[k].handler == |s.ends| + k
    decreases |events|
  {
    if events != [] {
      var next := Next(s, events[0]);
      NextInv(s, events[0]);
      CountSettlements(next, events[1..], t);
      if !events[0].CallNext? {
        forall k | 0 <= k < |Settlements(events)| ensures Settlements(events)[k].handler == |s.ends| + k {
          assert k > 0 ==> Settlements(events)[k] == Settlements(events[1..])[k - 1];
        }
      }
    }
  }

  // ---------------------------------------------------------------- what single events lead to

  lemma {:induction false} RunSplits(s: State, events: seq<Event>, t: State, k: nat) returns (u: State)
    requires Run(s, events, t) && k < |events|
    ensures Run(s, events[..k], u) && Enabled(u, events[k]) && Run(Next(u, events[k]), events[k + 1..], t)
    decreases k
  {
    if k == 0 {
      u := s;
    } else {
      u := RunSplits(Next(s, events[0]), events[1..], t, k - 1);
      assert events[..k][1..] == events[1..][..k - 1] && events[1..][k..] == events[k + 1..];
    }
  }

  /** A verdict stands. */
  lemma {:induction false} VerdictStands(s: State, events: seq<Event>, t: State)
    requires Inv(s) && !s.listening && Run(s, events, t)
    ensures t.verdicts == s.verdicts
    decreases |events|
  {
    if events != [] {
      NextInv(s, events[0]);
      VerdictStands(Next(s, events[0]), events[1..], t);
    }
  }

  /** A handler that throws rejects the promise with its error, whether it had called `next` or not. */
  lemma ThrowRejects(n: nat, events: seq<Event>, s: State, k: nat)
    requires Run(Initial(n), events, s) && k < |events| && events[k].Throw?
    ensures s.verdicts == [Rejected(events[k].error)]
  {
    var u := RunSplits(Initial(n), events, s, k);
    InitialInv(n);
    RunInv(Initial(n), events[..k], u);
    NextInv(u, events[k]);
    VerdictStands(Next(u, events[k]), events[k + 1..], s);
  }

  lemma {:induction false} FlagsAreCalls(s: State, events: seq<Event>, t: State, i: nat)
    requires Run(s, events, t)
    ensures i in t.nextCalled <==> i in s.nextCalled || CallNext(i) in events
    decreases |events|
  {
    if events != [] {
      FlagsAreCalls(Next(s, events[0]), events[1..], t, i);
      assert events == [events[0]] + events[1..];
    }
  }

  /** A handler that returns without having called `next` resolves the promise, and no further handler starts. */
  lemma ReturnStops(n: nat, events: seq<Event>, s: State, k: nat)
    requires Run(Initial(n), events, s) && k < |events| && events[k].Return?
    requires CallNext(events[k].handler) !in events[..k]
    ensures s.verdicts == [Resolved] && |s.started| == events[k].handler + 1
  {
    var u := RunSplits(Initial(n), events, s, k);
    InitialInv(n);
    RunInv(Initial(n), events[..k], u);
    FlagsAreCalls(Initial(n), events[..k], u, events[k].handler);
    NextInv(u, events[k]);
    VerdictStands(Next(u, events[k]), events[k + 1..], s);
    StartsStand(Next(u, events[k]), events[k + 1..], s);
  }

  lemma {:induction false} StartsStand(s: State, events: seq<Event>, t: State)
    requires Inv(s) && Run(s, events, t)
    ensures s.started <= t.started && (!s.listening ==> t.started == s.started)
    decreases |events|
  {
    if events != [] {
      NextInv(s, events[0]);
      StartsStand(Next(s, events[0]), events[1..], t);
    }
  }

  /** A handler that returns after calling `next` starts the handler after it, or resolves if it is the last. */
  lemma ReturnContinues(n: nat, events: seq<Event>, s: State, k: nat)
    requires Run(Initial(n), events, s) && k < |events| && events[k].Return?
    requires CallNext(events[k].handler) in events[..k]
    ensures if events[k].handler + 1 < n then events[k].handler + 1 in s.started else s.verdicts == [Resolved]
  {
    var u := RunSplits(Initial(n), events, s, k);
    InitialInv(n);
    RunInv(Initial(n), events[..k], u);
    FlagsAreCalls(Initial(n), events[..k], u, events[k].handler);
    NextInv(u, events[k]);
    var v := Next(u, events[k]);
    if events[k].handler + 1 < n {
      assert v.started[|v.started| - 1] == events[k].handler + 1;
      StartsStand(v, events[k + 1..], s);
    } else {
      VerdictStands(v, events[k + 1..], s);
    }
  }

  // ---------------------------------------------------------------- every way of ending has a run

  /** The events of one handler that ends so, calling `next` at once if it goes on. */
  function Steps(handler: nat, end: End): seq<Event> {
    match end
    case Continue => [CallNext(handler), Return(handler)]
    case Stop => [Return(handler)]
    case Fail(error) => [Throw(handler, error)]
  }

  function Script(ends: seq<End>, first: nat): seq<Event> {
    if ends == [] then [] else Steps(first, ends[0]) + Script(ends[1..], first + 1)
  }

  /** Exactly the handlers that went on have called `next`. */
  ghost predicate NoLateFlags(s: State) {
    forall i | i in s.nextCalled :: i < |s.ends| && s.ends[i] == Continue
  }

  lemma HandlerRuns(s: State, end: End) returns (t: State)
    requires Inv(s) && s.listening && NoLateFlags(s)
    ensures Run(s, Steps(|s.ends|, end), t)
    ensures Inv(t) && NoLateFlags(t) && t.ends == s.ends + [end] && t.count == s.count
  {
    var i := |s.ends|;
    var settling := if end.Fail? then Throw(i, end.error) else Return(i);
    assert s.started[i] == i;
    var called := if end == Continue then Next(s, CallNext(i)) else s;
    NextInv(called, settling);
    t := Next(called, settling);
    assert Run(t, [settling][1..], t) && Run(called, [settling], t);
    assert [CallNext(i), settling][1..] == [settling];
  }

  lemma {:induction false} RunThenRun(s: State, first: seq<Event>, t: State, second: seq<Event>, u: State)
    requires Run(s, first, t) && Run(t, second, u)
    ensures Run(s, first + second, u)
    decreases |first|
  {
    if first == [] {
      assert first + second == second;
    } else {
      RunThenRun(Next(s, first[0]), first[1..], t, second, u);
      assert (first + second)[1..] == first[1..] + second;
    }
  }

  /** Whatever way a chain of handlers may end, some run of the flow ends it that way. */
  lemma {:induction false} SomeRunEndsSo(s: State, ends: seq<End>) returns (t: State)
    requires Inv(s) && NoLateFlags(s) && |s.ends| + |ends| <= s.count && GoesOn(ends)
    requires ends != [] ==> s.listening
    ensures Run(s, Script(ends, |s.ends|), t)
    ensures Inv(t) && NoLateFlags(t) && t.ends == s.ends + ends && t.count == s.count
    decreases |ends|
  {
    if ends == [] {
      t := s;
      assert s.ends + ends == s.ends;
    } else {
      var u := HandlerRuns(s, ends[0]);
      ChainIsLast(u.ends, s.count);
      assert GoesOn(ends[1..]) by {
        assert forall i | 0 <= i < |ends[1..]| - 1 :: ends[1..][i] == ends[i + 1];
      }
      t := SomeRunEndsSo(u, ends[1..]);
      assert s.ends + ends == u.ends + ends[1..];
      RunThenRun(s, Steps(|s.ends|, ends[0]), u, Script(ends[1..], |s.ends| + 1), t);
    }
  }

  /** In particular some run ends so from the start; if its last handler settled, that one may still call `next`. */
  lemma SomeRun(n: nat, ends: seq<End>, late: bool) returns (events: seq<Event>, s: State)
    requires GoesOn(ends) && |ends| <= n && (late ==> |ends| == n > 0)
    ensures Run(Initial(n), events, s) && s.ends == ends
    ensures n > 0 && |ends| == n && ends[n - 1] == Stop ==> (n - 1 in s.nextCalled <==> late)
  {
    InitialInv(n);
    events := Script(ends, 0);
    s := SomeRunEndsSo(Initial(n), ends);
    assert [] + ends == ends;
    if late {
      assert s.started[n - 1] == n - 1;
      var call := CallNext(n - 1);
      var called := Next(s, call);
      assert Run(called, [call][1..], called);
      assert Run(s, [call], called);
      RunThenRun(Initial(n), events, s, [call], called);
      events, s := events + [call], called;
    }
  }

  // ---------------------------------------------------------------- late and repeated calls of next

  /** Alike but for the flags of handlers that have already settled. */
  ghost predicate Alike(s: State, t: State) {
    && t == s.(nextCalled := t.nextCalled)
    && forall i | i !in s.settled :: i in s.nextCalled <==> i in t.nextCalled
  }

  lemma NextAlike(s: State, t: State, e: Event)
    requires Inv(s) && Alike(s, t) && Enabled(s, e)
    ensures Enabled(t, e) && Alike(Next(s, e), Next(t, e))
  {
    if !e.CallNext? {
      assert e.handler !in s.settled;
    }
  }

  lemma {:induction false} RunAlike(s: State, t: State, events: seq<Event>, u: State) returns (v: State)
    requires Inv(s) && Alike(s, t) && Run(s, events, u)
    ensures Run(t, events, v) && Alike(u, v)
    decreases |events|
  {
    if events == [] {
      v := t;
    } else {
      NextInv(s, events[0]);
      NextAlike(s, t, events[0]);
      v := RunAlike(Next(s, events[0]), Next(t, events[0]), events[1..], u);
    }
  }

  /**
   A call of `next` that comes twice, or after its handler has settled, changes nothing: the rest of the run
   starts the same handlers and settles with the same verdict as without the call.
   */
  lemma LateNextIsIgnored(n: nat, before: seq<Event>, s: State, i: nat, rest: seq<Event>, u: State) returns (v: State)
    requires Run(Initial(n), before, s) && i in s.started && (i in s.nextCalled || i !in s.active)
    requires Run(s, rest, u)
    ensures Run(s, [CallNext(i)] + rest, v)
    ensures v.started == u.started && v.ends == u.ends && v.verdicts == u.verdicts
  {
    InitialInv(n);
    RunInv(Initial(n), before, s);
    var t := Next(s, CallNext(i));
    assert i !in s.active ==> s.settled[i] == i;
    v := RunAlike(s, t, rest, u);
    assert ([CallNext(i)] + rest)[1..] == rest;
  }

  // ---------------------------------------------------------------- the flag of the message adapter

  /** `proceedWithFlow` as the message adapter reads it: whether the last handler has called `next`. */
  predicate Proceeds(s: State) {
    s.count > 0 && s.count - 1 in s.nextCalled
  }

  /** Only started handlers have their flag set, and every handler that went on has. */
  ghost predicate FlagsCoverEnds(s: State) {
    && (forall i | i in s.nextCalled :: i in s.started)
    && forall i | 0 <= i < |s.ends| && s.ends[i] == Continue :: i in s.nextCalled
  }

  lemma {:induction false} RunFlags(s: State, events: seq<Event>, t: State)
    requires Inv(s) && FlagsCoverEnds(s) && Run(s, events, t)
    ensures FlagsCoverEnds(t)
    decreases |events|
  {
    if events != [] {
      NextInv(s, events[0]);
      RunFlags(Next(s, events[0]), events[1..], t);
    }
  }

  /**
   When the inner flow has resolved, at whatever times its handlers called `next`, the message adapter goes on
   exactly if there are handlers, all of them ran, and the last one went on or called `next` after it stopped.
   */
  lemma ProceedsExactly(n: nat, events: seq<Event>, s: State)
    requires Run(Initial(n), events, s) && s.verdicts == [Resolved]
    ensures Proceeds(s) <==>
            n > 0 && |s.ends| == n && (s.ends[n - 1] == Continue || (s.ends[n - 1] == Stop && n - 1 in s.nextCalled))
    ensures Proceeds(s) ==> forall i | 0 <= i < n - 1 :: s.ends[i] == Continue
  {
    InitialInv(n);
    RunInv(Initial(n), events, s);
    RunFlags(Initial(n), events, s);
    ChainIsLast(s.ends, n);
    assert n - 1 in s.started ==> s.started[n - 1] == n - 1 && |s.ends| == n;
  }

  /** No handler calls `next` after it settled. */
  predicate Punctual(s: State, events: seq<Event>)
    decreases |events|
  {
    events == [] || (Enabled(s, events[0]) && (events[0].CallNext? ==> events[0].handler in s.active)
                     && Punctual(Next(s, events[0]), events[1..]))
  }

  /** The flags tell how the settled handlers ended. */
  ghost predicate FlagsAreEnds(s: State) {
    forall i | 0 <= i < |s.ends| && !s.ends[i].Fail? :: i in s.nextCalled <==> s.ends[i] == Continue
  }

  lemma {:induction false} PunctualFlags(s: State, events: seq<Event>, t: State)
    requires Inv(s) && FlagsCoverEnds(s) && FlagsAreEnds(s) && Run(s, events, t) && Punctual(s, events)
    ensures FlagsAreEnds(t)
    decreases |events|
  {
    if events != [] {
      NextInv(s, events[0]);
      PunctualFlags(Next(s, events[0]), events[1..], t);
    }
  }

  /** If moreover no handler called `next` late, it goes on exactly if there are handlers and all of them went on. */
  lemma PunctualProceedsExactly(n: nat, events: seq<Event>, s: State)
    requires Run(Initial(n), events, s) && Punctual(Initial(n), events) && s.verdicts == [Resolved]
    ensures Proceeds(s) <==> n > 0 && |s.ends| == n && forall i | 0 <= i < n :: s.ends[i] == Continue
  {
    InitialInv(n);
    PunctualFlags(Initial(n), events, s);
    ProceedsExactly(n, events, s);
  }

  /** With a late call it may go on although its last handler stopped. */
  lemma LateNextProceeds()
    ensures var events := [Return(0), CallNext(0)];
            exists s :: Run(Initial(1), events, s) && s.verdicts == [Resolved] && s.ends == [Stop] && Proceeds(s)
  {
    var a := Initial(1);
    var b := Next(a, Return(0));
    var c := Next(b, CallNext(0));
    assert Run(c, [], c);
    assert [Return(0), CallNext(0)][1..] == [CallNext(0)] && [CallNext(0)][1..] == [];
    assert Run(b, [CallNext(0)], c);
    assert Run(a, [Return(0), CallNext(0)], c);
  }

  // ---------------------------------------------------------------- the call itself

  /** The variables of one call of the flow. */
  class Call {
    const count: nat
    var callStack: seq<nat>
    var nextCalled: set<nat>
    var listening: bool
    var verdicts: seq<Verdict>
    ghost var active: set<nat>
    ghost var started: seq<nat>
    ghost var settled: seq<nat>
    ghost var ends: seq<End>

    ghost function Now(): State
      reads this
    {
      State(count, callStack, active, nextCalled, listening, started, settled, ends, verdicts)
    }

    constructor (n: nat)
      ensures Now() == Initial(n)
    {
      count := n;
      callStack, nextCalled, listening, verdicts := Backwards(n), {}, true, [];
      active, started, settled, ends := {}, [], [], [];
      new;
      OnNext();
    }

    /** The NEXT listener. */
    method OnNext()
      requires listening
      modifies this
      ensures Now() == EmitNext(old(Now()))
    {
      if |callStack| == 0 {
        Settle(Resolved);
        return;
      }
      var last := |callStack| - 1;
      var i := callStack[last];
      callStack := callStack[..last];
      active := active + {i};
      started := started + [i];
    }

    /** The RESOLVE and REJECT listeners, each removing all listeners. */
    method Settle(verdict: Verdict)
      requires listening
      modifies this`listening, this`verdicts
      ensures Now() == EmitVerdict(old(Now()), verdict)
    {
      listening := false;
      verdicts := verdicts + [verdict];
    }

    /** `nextFunction` of handler `i`. */
    method NextFunction(i: nat)
      requires i in started
      modifies this`nextCalled
      ensures Now() == Next(old(Now()), CallNext(i))
    {
      if i in nextCalled {
        return;
      }
      nextCalled := nextCalled + {i};
    }

    /** The wrapper of handler `i` after its await. */
    method OnReturn(i: nat)
      requires i in active
      modifies this
      ensures Now() == Next(old(Now()), Return(i))
    {
      ghost var end := EndOf(Now(), Return(i));
      active, settled, ends := active - {i}, settled + [i], ends + [end];
      if !listening {
        return;
      }
      if i in nextCalled {
        OnNext();
      } else {
        Settle(Resolved);
      }
    }

    /** The wrapper of handler `i` in its catch. */
    method OnThrow(i: nat, error: string)
      requires i in active
      modifies this
      ensures Now() == Next(old(Now()), Throw(i, error))
    {
      active, settled, ends := active - {i}, settled + [i], ends + [Fail(error)];
      if listening {
        Settle(Rejected(error));
      }
    }
  }
}
