/**
 What a chain of jobs does to its data, and the message adapter, which packs a list of jobs into one job by
 running them in a flow of their own.  The outer chain gives each job a fresh copy of the payload and the shared
 state (as the job adapter does); the jobs inside an adapter share the one copy the adapter was given.
 */
module MessageAdapter {
  import opened Flow

  /**
   What one run of a job does: the payload object and the state as it leaves them, how it ended, and, for a
   job that stopped, whether it called `next` after all before its flow was looked at again.
   */
  datatype Effect<+P, +S> = Effect(payload: P, state: S, end: End, late: bool)

  datatype Job<!P, !S> = Job(name: string, handle: (P, S) -> Effect<P, S>)

  datatype Item<!P, !S> = One(job: Job<P, S>) | Adapter(items: seq<Item<P, S>>)

  /** One job run: its name and the payload and state it was given. */
  datatype Seen<+P, +S> = Seen(name: string, payload: P, state: S)

  /** A whole run: the job runs in order, and what they leave behind.  `Continue` means it ran to its end. */
  datatype Ran<+P, +S> = Ran(trace: seq<Seen<P, S>>, payload: P, state: S, end: End, late: bool)

  // ---------------------------------------------------------------- the runs

  function RunItem<P, S>(item: Item<P, S>, payload: P, state: S): Ran<P, S>
    decreases item, 0
  {
    match item
    case One(job) =>
      var effect := job.handle(payload, state);
      Ran([Seen(job.name, payload, state)], effect.payload, effect.state, effect.end, effect.late)
    case Adapter(items) =>
      var inner := RunShared(items, payload, state);
      var proceedWithFlow := items != [] && (inner.end.Continue? || (inner.end.Stop? && inner.late));
      inner.(end := if inner.end.Fail? then inner.end else if proceedWithFlow then Continue else Stop, late := false)
  }

  /** The flow inside an adapter.  At the end `late` is about the last job of the list, if that one stopped. */
  function RunShared<P, S>(items: seq<Item<P, S>>, payload: P, state: S): Ran<P, S>
    decreases items, |items|
  {
    if items == [] then Ran([], payload, state, Continue, false)
    else
      var first := RunItem(items[0], payload, state);
      if first.end != Continue then first.(late := first.late && |items| == 1)
      else
        var rest := RunShared(items[1..], first.payload, first.state);
        rest.(trace := first.trace + rest.trace)
  }

  /** The outer chain: every item gets a copy of the payload as it came. */
  function RunChain<P, S>(items: seq<Item<P, S>>, payload: P, state: S): Ran<P, S> {
    if items == [] then Ran([], payload, state, Continue, false)
    else
      var first := RunItem(items[0], payload, state);
      if first.end != Continue then first.(payload := payload, late := false)
      else
        var rest := RunChain(items[1..], payload, first.state);
        rest.(trace := first.trace + rest.trace)
  }

  /** How the items of the outer chain ended, as the event-driven flow records it. */
  function EndsOf<P, S>(items: seq<Item<P, S>>, payload: P, state: S): seq<End> {
    if items == [] then []
    else
      var first := RunItem(items[0], payload, state);
      [first.end] + if first.end != Continue then [] else EndsOf(items[1..], payload, first.state)
  }

  function VerdictOf(end: End): Verdict {
    if end.Fail? then Rejected(end.error) else Resolved
  }

  /** The chain's run is the flow's: its ends give the verdict of the event-driven flow. */
  lemma {:induction false} ChainIsFlow<P, S>(items: seq<Item<P, S>>, payload: P, state: S)
    ensures var ends := EndsOf(items, payload, state);
            && GoesOn(ends) && |ends| <= |items|
            && Chain(ends, |items|) == [VerdictOf(RunChain(items, payload, state).end)]
            && (RunChain(items, payload, state).end == Continue <==>
                  |ends| == |items| && forall i | 0 <= i < |ends| :: ends[i] == Continue)
    decreases |items|
  {
    if items != [] {
      var first := RunItem(items[0], payload, state);
      var ends := EndsOf(items, payload, state);
      if first.end == Continue {
        ChainIsFlow(items[1..], payload, first.state);
        assert ends[1..] == EndsOf(items[1..], payload, first.state);
        assert forall i | 1 <= i < |ends| :: ends[i] == ends[1..][i - 1];
      }
    }
  }

  /** A run of the event-driven flow whose handlers end as the chain's items do settles with the chain's verdict. */
  lemma FlowRunsChain<P, S>(items: seq<Item<P, S>>, payload: P, state: S, events: seq<Event>, s: State)
    requires Run(Initial(|items|), events, s) && s.active == {} && s.ends <= EndsOf(items, payload, state)
    ensures s.ends == EndsOf(items, payload, state)
    ensures s.verdicts == [VerdictOf(RunChain(items, payload, state).end)]
  {
    var ends := EndsOf(items, payload, state);
    ChainIsFlow(items, payload, state);
    RunIsChain(|items|, events, s);
    StopsWithVerdict(|items|, events, s);
    InitialInv(|items|);
    RunInv(Initial(|items|), events, s);
    ChainIsLast(s.ends, |items|);
    ChainIsLast(ends, |items|);
  }

  // ---------------------------------------------------------------- a plain list of jobs

  function Ones<P, S>(jobs: seq<Job<P, S>>): (r: seq<Item<P, S>>)
    ensures |r| == |jobs| && forall i | 0 <= i < |r| :: r[i] == One(jobs[i])
  {
    seq(|jobs|, i requires 0 <= i < |jobs| => One(jobs[i]))
  }

  /** Job k runs under its name with this payload, on the state the job before left. */
  predicate RunsOn<P(==), S(==)>(jobs: seq<Job<P, S>>, trace: seq<Seen<P, S>>, k: nat, payload: P, state: S)
    requires k < |trace| && k < |jobs|
  {
    && trace[k].name == jobs[k].name && trace[k].payload == payload
    && trace[k].state == if k == 0 then state else jobs[k - 1].handle(payload, trace[k - 1].state).state
  }

  lemma ChainStep<P, S>(jobs: seq<Job<P, S>>, payload: P, state: S)
    requires jobs != []
    ensures var ran, first := RunChain(Ones(jobs), payload, state), jobs[0].handle(payload, state);
            var rest := RunChain(Ones(jobs[1..]), payload, first.state);
            && ran.trace == [Seen(jobs[0].name, payload, state)] + (if first.end == Continue then rest.trace else [])
            && ran.state == (if first.end == Continue then rest.state else first.state)
            && ran.end == if first.end == Continue then rest.end else first.end
  {
    assert Ones(jobs)[1..] == Ones(jobs[1..]);
  }

  /** In a plain chain each job gets the payload as it came and the state the job before left, if that one went on. */
  lemma {:induction false} PlainTrace<P, S>(jobs: seq<Job<P, S>>, payload: P, state: S, k: nat)
    requires k < |RunChain(Ones(jobs), payload, state).trace|
    ensures var trace := RunChain(Ones(jobs), payload, state).trace;
            && |trace| <= |jobs| && RunsOn(jobs, trace, k, payload, state)
            && (k > 0 ==> jobs[k - 1].handle(payload, trace[k - 1].state).end == Continue)
    decreases |jobs|
  {
    if jobs != [] {
      var first := jobs[0].handle(payload, state);
      ChainStep(jobs, payload, state);
      if first.end == Continue && RunChain(Ones(jobs[1..]), payload, first.state).trace != [] {
        PlainTrace(jobs[1..], payload, first.state, if k == 0 then 0 else k - 1);
      }
    }
  }

  /** It stops at the first job that does not go on, and leaves that job's state and end. */
  lemma {:induction false} PlainEnd<P, S>(jobs: seq<Job<P, S>>, payload: P, state: S)
    ensures var ran := RunChain(Ones(jobs), payload, state);
            && |ran.trace| <= |jobs| && (jobs == [] ==> ran.state == state && ran.end == Continue)
            && (jobs != [] ==>
                  && ran.trace != []
                  && var last := jobs[|ran.trace| - 1].handle(payload, ran.trace[|ran.trace| - 1].state);
                     && ran.state == last.state && ran.end == last.end
                     && (last.end == Continue ==> |ran.trace| == |jobs|))
    decreases |jobs|
  {
    if jobs != [] {
      ChainStep(jobs, payload, state);
      PlainEnd(jobs[1..], payload, jobs[0].handle(payload, state).state);
    }
  }

  // ---------------------------------------------------------------- the flow inside an adapter

  /** How the items in an adapter ended, as the inner flow records it. */
  function SharedEndsOf<P, S>(items: seq<Item<P, S>>, payload: P, state: S): seq<End>
    decreases items, |items|
  {
    if items == [] then []
    else
      var first := RunItem(items[0], payload, state);
      [first.end] + if first.end != Continue then [] else SharedEndsOf(items[1..], first.payload, first.state)
  }

  lemma {:induction false} SharedShape<P, S>(items: seq<Item<P, S>>, payload: P, state: S)
    ensures var ends, end := SharedEndsOf(items, payload, state), RunShared(items, payload, state).end;
            && GoesOn(ends) && |ends| <= |items| && Chain(ends, |items|) == [VerdictOf(end)]
            && (items != [] ==> ends != [] && end == ends[|ends| - 1])
            && (items == [] ==> end == Continue)
            && (end == Continue ==> |ends| == |items|)
            && (RunShared(items, payload, state).late ==> |ends| == |items|)
    decreases |items|
  {
    if items != [] {
      var first := RunItem(items[0], payload, state);
      var ends := SharedEndsOf(items, payload, state);
      if first.end == Continue {
        SharedShape(items[1..], first.payload, first.state);
        assert ends[1..] == SharedEndsOf(items[1..], first.payload, first.state);
        assert forall i | 1 <= i < |ends| :: ends[i] == ends[1..][i - 1];
      }
    }
  }

  /**
   How the adapter itself ends once its inner flow has settled: a rejection is thrown on, and after a resolution
   the flag decides whether it calls the outer `next`.
   */
  function AdapterEnd(s: State): End
    requires |s.verdicts| == 1
  {
    match s.verdicts[0]
    case Rejected(error) => Fail(error)
    case Resolved => if Proceeds(s) then Continue else Stop
  }

  /** A finished run of the inner flow in which the items end as they do on the data, late calls included. */
  ghost predicate InnerRun<P, S>(items: seq<Item<P, S>>, payload: P, state: S, events: seq<Event>, s: State) {
    && Run(Initial(|items|), events, s) && s.active == {} && s.ends <= SharedEndsOf(items, payload, state)
    && (|s.ends| == |items| && items != [] && s.ends[|items| - 1] == Stop ==>
          (|items| - 1 in s.nextCalled <==> RunShared(items, payload, state).late))
  }

  /** An adapter on the data ends as the code does on its event-driven inner flow. */
  lemma AdapterIsFlow<P, S>(items: seq<Item<P, S>>, payload: P, state: S, events: seq<Event>, s: State)
    requires InnerRun(items, payload, state, events, s)
    ensures s.ends == SharedEndsOf(items, payload, state) && |s.verdicts| == 1
    ensures RunItem(Adapter(items), payload, state).end == AdapterEnd(s)
  {
    var ends := SharedEndsOf(items, payload, state);
    SharedShape(items, payload, state);
    RunIsChain(|items|, events, s);
    StopsWithVerdict(|items|, events, s);
    InitialInv(|items|);
    RunInv(Initial(|items|), events, s);
    ChainIsLast(s.ends, |items|);
    ChainIsLast(ends, |items|);
    if s.verdicts == [Resolved] {
      ProceedsExactly(|items|, events, s);
    }
  }

  /** Every list of items has such a run. */
  lemma InnerRunExists<P, S>(items: seq<Item<P, S>>, payload: P, state: S) returns (events: seq<Event>, s: State)
    ensures InnerRun(items, payload, state, events, s)
  {
    var inner := RunShared(items, payload, state);
    SharedShape(items, payload, state);
    events, s := SomeRun(|items|, SharedEndsOf(items, payload, state), inner.late);
    StopsWithVerdict(|items|, events, s);
    RunIsChain(|items|, events, s);
  }

  /** How the inner flow's own chain ended: at its last handler to settle, or at its end. */
  function FlowEnd(s: State): End {
    if s.ends == [] then Continue else s.ends[|s.ends| - 1]
  }

  /**
   Whatever the handlers of the inner flow do and whenever they call `next`, the adapter ends as the inner chain
   exactly when there are handlers and the last one did not stop and call `next` afterwards.
   */
  lemma AdapterEndsExactly(n: nat, events: seq<Event>, s: State)
    requires Run(Initial(n), events, s) && |s.verdicts| == 1
    ensures AdapterEnd(s) == FlowEnd(s) <==>
            n > 0 && !(|s.ends| == n && s.ends[n - 1] == Stop && n - 1 in s.nextCalled)
  {
    RunIsChain(n, events, s);
    ChainIsLast(s.ends, n);
    if s.verdicts == [Resolved] {
      ProceedsExactly(n, events, s);
    }
  }

  // ---------------------------------------------------------------- flattening

  function Leaves<P, S>(items: seq<Item<P, S>>): seq<Item<P, S>>
    decreases items, |items|
  {
    if items == [] then [] else LeavesOf(items[0]) + Leaves(items[1..])
  }

  function LeavesOf<P, S>(item: Item<P, S>): seq<Item<P, S>>
    decreases item, 0
  {
    match item
    case One(_) => [item]
    case Adapter(items) => Leaves(items)
  }

  /** Adapters are not empty, and jobs leave the payload object as it is and call `next` before they settle. */
  ghost predicate Tidy<P(!new), S(!new)>(item: Item<P, S>) {
    match item
    case One(job) => forall p, s :: job.handle(p, s).payload == p && !job.handle(p, s).late
    case Adapter(items) => items != [] && forall i | 0 <= i < |items| :: Tidy(items[i])
  }

  ghost predicate AllTidy<P(!new), S(!new)>(items: seq<Item<P, S>>) {
    forall i | 0 <= i < |items| :: Tidy(items[i])
  }

  lemma {:induction false} SharedAppend<P(!new), S(!new)>(a: seq<Item<P, S>>, b: seq<Item<P, S>>, payload: P, state: S)
    requires AllTidy(a) && AllTidy(b)
    ensures AllTidy(a + b)
    ensures var first, whole := RunShared(a, payload, state), RunShared(a + b, payload, state);
            if first.end != Continue then whole == first
            else var rest := RunShared(b, first.payload, first.state); whole == rest.(trace := first.trace + rest.trace)
    decreases |a|
  {
    if a == [] {
      assert a + b == b;
    } else {
      var first := RunItem(a[0], payload, state);
      TidyRun(a[0], payload, state);
      assert (a + b)[1..] == a[1..] + b;
      if first.end == Continue {
        SharedAppend(a[1..], b, first.payload, first.state);
      }
    }
  }

  lemma {:induction false} TidyRun<P(!new), S(!new)>(item: Item<P, S>, payload: P, state: S)
    requires Tidy(item)
    ensures RunItem(item, payload, state).payload == payload && !RunItem(item, payload, state).late
    decreases item, 0
  {
    if item.Adapter? {
      TidyShared(item.items, payload, state);
    }
  }

  lemma {:induction false} TidyShared<P(!new), S(!new)>(items: seq<Item<P, S>>, payload: P, state: S)
    requires AllTidy(items)
    ensures RunShared(items, payload, state).payload == payload && !RunShared(items, payload, state).late
    decreases items, |items|
  {
    if items != [] {
      TidyRun(items[0], payload, state);
      var first := RunItem(items[0], payload, state);
      if first.end == Continue {
        TidyShared(items[1..], first.payload, first.state);
      }
    }
  }

  /** An item runs as the jobs in it, in order. */
  lemma {:induction false} ItemIsItsLeaves<P(!new), S(!new)>(item: Item<P, S>, payload: P, state: S)
    requires Tidy(item)
    ensures AllTidy(LeavesOf(item)) && LeavesOf(item) != []
    ensures RunItem(item, payload, state) == RunShared(LeavesOf(item), payload, state)
    decreases item, 0
  {
    TidyRun(item, payload, state);
    match item {
      case One(_) => assert [item][1..] == [];
      case Adapter(items) =>
        SharedIsItsLeaves(items, payload, state);
        TidyShared(items, payload, state);
    }
  }

  lemma {:induction false} SharedIsItsLeaves<P(!new), S(!new)>(items: seq<Item<P, S>>, payload: P, state: S)
    requires AllTidy(items)
    ensures AllTidy(Leaves(items)) && (items != [] ==> Leaves(items) != [])
    ensures RunShared(items, payload, state) == RunShared(Leaves(items), payload, state)
    decreases items, |items|
  {
    if items != [] {
      var first := RunItem(items[0], payload, state);
      TidyRun(items[0], payload, state);
      ItemIsItsLeaves(items[0], payload, state);
      SharedIsItsLeaves(items[1..], first.payload, first.state);
      SharedAppend(LeavesOf(items[0]), Leaves(items[1..]), payload, state);
    }
  }

  /** Jobs that leave the payload alone cannot tell a copy from the shared object. */
  lemma {:induction false} ChainIsShared<P(!new), S(!new)>(items: seq<Item<P, S>>, payload: P, state: S)
    requires AllTidy(items)
    ensures RunChain(items, payload, state) == RunShared(items, payload, state)
    decreases |items|
  {
    if items != [] {
      var first := RunItem(items[0], payload, state);
      TidyRun(items[0], payload, state);
      if first.end == Continue {
        ChainIsShared(items[1..], payload, first.state);
      }
    }
  }

  /**
   A chain with any part of it packed into nonempty adapters, nested to any depth, runs the same jobs on the
   same data and ends the same way as the plain list of those jobs.
   */
  lemma Flattening<P(!new), S(!new)>(items: seq<Item<P, S>>, payload: P, state: S)
    requires AllTidy(items)
    ensures RunChain(items, payload, state) == RunChain(Leaves(items), payload, state)
  {
    SharedIsItsLeaves(items, payload, state);
    ChainIsShared(items, payload, state);
    ChainIsShared(Leaves(items), payload, state);
  }

  /** So the event-driven flows of the packed and of the plain chain settle alike. */
  lemma FlowsAgree<P(!new), S(!new)>(items: seq<Item<P, S>>, payload: P, state: S,
                                     events: seq<Event>, s: State, plain: seq<Event>, t: State)
    requires AllTidy(items)
    requires Run(Initial(|items|), events, s) && s.active == {} && s.ends <= EndsOf(items, payload, state)
    requires Run(Initial(|Leaves(items)|), plain, t) && t.active == {}
    requires t.ends <= EndsOf(Leaves(items), payload, state)
    ensures s.verdicts == t.verdicts
  {
    Flattening(items, payload, state);
    FlowRunsChain(items, payload, state, events, s);
    FlowRunsChain(Leaves(items), payload, state, plain, t);
  }

  /** A chain stops at an empty adapter, although there is no job in it. */
  lemma EmptyAdapterStops<P, S>(empty: Item<P, S>, rest: seq<Item<P, S>>, payload: P, state: S)
    requires empty == Adapter([])
    ensures RunChain([empty] + rest, payload, state).end == Stop
    ensures RunChain([empty] + rest, payload, state).trace == []
    ensures Leaves([empty] + rest) == Leaves(rest)
  {
    var items := [empty] + rest;
    assert items[0] == empty && items[1..] == rest;
    assert LeavesOf(items[0]) == [];
  }

  /** A job that changes its payload object is seen to do so by the next job inside an adapter, not outside one. */
  lemma SharedPayloadShows<P, S>(writer: Job<P, S>, next: Job<P, S>, payload: P, state: S)
    requires var effect := writer.handle(payload, state); effect.end == Continue && effect.payload != payload
    ensures |RunChain([One(writer), One(next)], payload, state).trace| == 2
    ensures RunChain([One(writer), One(next)], payload, state).trace[1].payload == payload
    ensures |RunChain([Adapter([One(writer), One(next)])], payload, state).trace| == 2
    ensures RunChain([Adapter([One(writer), One(next)])], payload, state).trace[1].payload
            == writer.handle(payload, state).payload
  {
    var items := [One(writer), One(next)];
    var adapter := [Adapter(items)];
    assert items[1..] == [One(next)] && items[1..][1..] == [] && adapter[1..] == [];
    var effect := writer.handle(payload, state);
    var seen := Seen(writer.name, payload, state);
    assert RunItem(items[0], payload, state).trace == [seen];
    assert RunChain(items[1..], payload, effect.state).trace == [Seen(next.name, payload, effect.state)];
    assert RunShared(items[1..], effect.payload, effect.state).trace == [Seen(next.name, effect.payload, effect.state)];
    assert RunItem(adapter[0], payload, state).trace == RunShared(items, payload, state).trace;
  }
}
