/**
 `splitPromises`: runs callbacks with a bound on how many run at once and resolves with their outcomes in the
 order of the callbacks.  A callback is known by its index.  Time passes in events: the call launches the next
 callback of the first wave, or a running callback settles.  A callback that throws before its first await
 settles while the wave is still being launched, so the two kinds of event may come in any order.
 */
module SplitPromises {

  /** An entry of `outputs`: the value or the error a callback settled with, and the callback's index. */
  datatype Output<+T> = Output(outcome: T, index: nat)

  datatype Event<+T> = Launch | Settle(index: nat, outcome: T)

  datatype State<!T> = State(
    count: nat,                       // callbacks.length
    callStack: seq<nat>,              // next callback last
    wave: seq<nat>,                   // first wave still to be launched
    running: set<nat>,
    started: seq<nat>,                // every start so far
    outputs: seq<Output<T>>,
    resolutions: seq<seq<T>>          // every call of resolveFunction so far
  )

  // ---------------------------------------------------------------- the calls of the source

  function Indices(n: nat): (r: seq<nat>)
    ensures |r| == n && forall i | 0 <= i < n :: r[i] == i
  {
    seq(n, i requires 0 <= i < n => i)
  }

  function Reversed<X>(s: seq<X>): (r: seq<X>)
    ensures |r| == |s| && forall i | 0 <= i < |s| :: r[i] == s[|s| - 1 - i]
  {
    seq(|s|, i requires 0 <= i < |s| => s[|s| - 1 - i])
  }

  /** A Number truncated to an integer and clamped to `0..most`, as `Array.prototype.splice` does. */
  function Clamp(x: real, most: nat): (r: nat)
    ensures r <= most
  {
    if x < 1.0 then 0 else if x.Floor < most then x.Floor else most
  }

  /** Where the first wave begins on the reversed stack. */
  function WaveStart(n: nat, maxRunning: real): (r: nat)
    ensures r <= n
  {
    var indexPosition := n as real - maxRunning;
    Clamp(if indexPosition < 0.0 then 0.0 else indexPosition, n)
  }

  function WaveSize(n: nat, maxRunning: real): (r: nat)
    ensures WaveStart(n, maxRunning) + r <= n
  {
    Clamp(maxRunning, n - WaveStart(n, maxRunning))
  }

  /** The first wave is as large as the whole part of the bound, and the number of callbacks, allow. */
  lemma WaveSizeExactly(n: nat, maxRunning: real)
    ensures WaveSize(n, maxRunning) == if maxRunning < 1.0 then 0 else Min(maxRunning.Floor, n)
  {
    var indexPosition := n as real - maxRunning;
    if maxRunning >= 1.0 && indexPosition >= 1.0 {
      assert indexPosition.Floor + maxRunning.Floor <= n;
    }
  }

  function Initial<T>(n: nat, maxRunning: real): State<T> {
    Spliced(n, WaveStart(n, maxRunning), WaveSize(n, maxRunning))
  }

  /** The state once `splice(start, size)` has taken the first wave from the reversed stack. */
  function Spliced<T>(n: nat, start: nat, size: nat): State<T>
    requires start + size <= n
  {
    if n == 0 then State(0, [], [], {}, [], [], [[]])
    else
      var stack := Reversed(Indices(n));
      State(n, stack[..start] + stack[start + size..], stack[start..start + size], {}, [], [], [])
  }

  function InsertByIndex<T>(o: Output<T>, sorted: seq<Output<T>>): seq<Output<T>> {
    if sorted == [] then [o]
    else if o.index <= sorted[0].index then [o] + sorted
    else [sorted[0]] + InsertByIndex(o, sorted[1..])
  }

  /** `outputs.sort(...)`, as a stable sort by index. */
  function SortByIndex<T>(outputs: seq<Output<T>>): seq<Output<T>> {
    if outputs == [] then [] else InsertByIndex(outputs[0], SortByIndex(outputs[1..]))
  }

  function Outcomes<T>(outputs: seq<Output<T>>): (r: seq<T>)
    ensures |r| == |outputs| && forall i | 0 <= i < |r| :: r[i] == outputs[i].outcome
  {
    seq(|outputs|, i requires 0 <= i < |outputs| => outputs[i].outcome)
  }

  function Start<T>(s: State<T>, i: nat): State<T> {
    s.(running := s.running + {i}, started := s.started + [i])
  }

  function Resolve<T>(s: State<T>): State<T> {
    if |s.outputs| != s.count then s
    else
      var sorted := SortByIndex(s.outputs);
      s.(outputs := sorted, resolutions := s.resolutions + [Outcomes(sorted)])
  }

  function RunNext<T>(s: State<T>): State<T> {
    if s.callStack == [] then Resolve(s)
    else
      var last := |s.callStack| - 1;
      Start(s.(callStack := s.callStack[..last]), s.callStack[last])
  }

  predicate Enabled<T>(s: State<T>, e: Event<T>) {
    match e
    case Launch => s.wave != []
    case Settle(i, _) => i in s.running
  }

  function Next<T>(s: State<T>, e: Event<T>): State<T>
    requires Enabled(s, e)
  {
    match e
    case Launch => Start(s.(wave := s.wave[1..]), s.wave[0])
    case Settle(i, outcome) => RunNext(s.(running := s.running - {i}, outputs := s.outputs + [Output(outcome, i)]))
  }

  predicate Steps<T(==)>(s: State<T>, e: Event<T>, t: State<T>) {
    Enabled(s, e) && t == Next(s, e)
  }

  /** The state after a run of events, each enabled when it happens. */
  ghost predicate After<T(!new)>(n: nat, maxRunning: real, events: seq<Event<T>>, s: State<T>)
    decreases |events|
  {
    if events == [] then s == Initial(n, maxRunning)
    else
      var last := |events| - 1;
      exists before :: After(n, maxRunning, events[..last], before) && Steps(before, events[last], s)
  }

  // ---------------------------------------------------------------- the invariant

  function DoneIndices<T>(outputs: seq<Output<T>>): (r: seq<nat>)
    ensures |r| == |outputs| && forall i | 0 <= i < |r| :: r[i] == outputs[i].index
  {
    seq(|outputs|, i requires 0 <= i < |outputs| => outputs[i].index)
  }

  /** Each callback is in exactly one place: on the stack, in the wave, running or done. */
  ghost predicate Placed<T>(s: State<T>) {
    && multiset(s.callStack) + multiset(s.wave) + multiset(s.started) == multiset(Indices(s.count))
    && multiset(s.started) == multiset(s.running) + multiset(DoneIndices(s.outputs))
  }

  ghost predicate Inv<T>(s: State<T>, limit: nat) {
    && Placed(s)
    && |s.running| + |s.wave| == Min(limit, s.count - |s.outputs|)
    && if |s.outputs| == s.count then s.resolutions == [Outcomes(SortByIndex(s.outputs))] else s.resolutions == []
  }

  function Min(a: int, b: int): int {
    if a <= b then a else b
  }

  lemma Pieces<X>(s: seq<X>, i: nat, j: nat)
    requires i <= j <= |s|
    ensures multiset(s[..i] + s[j..]) + multiset(s[i..j]) == multiset(s)
  {
    assert s == s[..i] + s[i..j] + s[j..];
  }

  lemma {:induction false} ReversedMultiset<X>(s: seq<X>)
    ensures multiset(Reversed(s)) == multiset(s)
    decreases |s|
  {
    if s != [] {
      var last := |s| - 1;
      ReversedMultiset(s[..last]);
      assert s == s[..last] + [s[last]];
      assert Reversed(s) == [s[last]] + Reversed(s[..last]);
    }
  }

  lemma WaveTaken<T>(s: State<T>, stack: seq<nat>, start: nat, size: nat)
    requires start + size <= |stack| && multiset(stack) == multiset(Indices(s.count))
    requires s.callStack == stack[..start] + stack[start + size..] && s.wave == stack[start..start + size]
    requires s.started == [] && s.running == {} && s.outputs == []
    ensures Placed(s)
  {
    Pieces(stack, start, start + size);
    assert DoneIndices(s.outputs) == [];
  }

  lemma SplicedPlaced<T>(n: nat, start: nat, size: nat)
    requires start + size <= n
    ensures Placed(Spliced<T>(n, start, size))
  {
    if n == 0 {
      WaveTaken(Spliced<T>(n, start, size), [], 0, 0);
    } else {
      ReversedMultiset(Indices(n));
      WaveTaken(Spliced<T>(n, start, size), Reversed(Indices(n)), start, size);
    }
  }

  lemma SplicedInv<T>(n: nat, start: nat, size: nat)
    requires start + size <= n
    ensures Inv(Spliced<T>(n, start, size), size)
  {
    SplicedPlaced<T>(n, start, size);
    assert Outcomes(SortByIndex<T>([])) == [];
  }

  lemma {:induction false} IndexOnce(n: nat, i: nat)
    ensures multiset(Indices(n))[i] == if i < n then 1 else 0
  {
    if n > 0 {
      assert Indices(n) == Indices(n - 1) + [n - 1];
      IndexOnce(n - 1, i);
    }
  }

  lemma DoneAppend<T>(a: seq<Output<T>>, b: seq<Output<T>>)
    ensures DoneIndices(a + b) == DoneIndices(a) + DoneIndices(b)
  {
  }

  lemma DoneCons<T>(o: Output<T>, rest: seq<Output<T>>)
    ensures multiset(DoneIndices([o] + rest)) == multiset{o.index} + multiset(DoneIndices(rest))
    ensures multiset([o] + rest) == multiset{o} + multiset(rest)
  {
    assert DoneIndices([o] + rest) == [o.index] + DoneIndices(rest);
  }

  lemma {:induction false} InsertPosition<T>(o: Output<T>, sorted: seq<Output<T>>) returns (p: nat)
    ensures p <= |sorted| && InsertByIndex(o, sorted) == sorted[..p] + [o] + sorted[p..]
  {
    if sorted == [] || o.index <= sorted[0].index {
      p := 0;
    } else {
      var q := InsertPosition(o, sorted[1..]);
      p := q + 1;
      assert sorted[..p] == [sorted[0]] + sorted[1..][..q] && sorted[p..] == sorted[1..][q..];
    }
  }

  lemma InsertKeeps<T>(o: Output<T>, sorted: seq<Output<T>>)
    ensures multiset(InsertByIndex(o, sorted)) == multiset{o} + multiset(sorted)
    ensures multiset(DoneIndices(InsertByIndex(o, sorted))) == multiset{o.index} + multiset(DoneIndices(sorted))
  {
    var p := InsertPosition(o, sorted);
    var left, right := sorted[..p], sorted[p..];
    assert sorted == left + right;
    DoneAppend(left, right);
    DoneAppend(left + [o], right);
    DoneAppend(left, [o]);
    assert DoneIndices([o]) == [o.index];
  }

  lemma {:induction false} SortKeeps<T>(outputs: seq<Output<T>>)
    ensures multiset(SortByIndex(outputs)) == multiset(outputs)
    ensures multiset(DoneIndices(SortByIndex(outputs))) == multiset(DoneIndices(outputs))
  {
    if outputs != [] {
      SortKeeps(outputs[1..]);
      InsertKeeps(outputs[0], SortByIndex(outputs[1..]));
      DoneCons(outputs[0], outputs[1..]);
      assert outputs == [outputs[0]] + outputs[1..];
    }
  }

  predicate Ordered<T>(outputs: seq<Output<T>>) {
    forall i, j | 0 <= i < j < |outputs| :: outputs[i].index <= outputs[j].index
  }

  lemma {:induction false} InsertOrders<T>(o: Output<T>, sorted: seq<Output<T>>)
    requires Ordered(sorted)
    ensures Ordered(InsertByIndex(o, sorted))
  {
    if sorted != [] && o.index > sorted[0].index {
      var rest := InsertByIndex(o, sorted[1..]);
      InsertOrders(o, sorted[1..]);
      var p := InsertPosition(o, sorted[1..]);
      forall j | 0 <= j < |rest| ensures sorted[0].index <= rest[j].index {
        assert rest[j] == if j < p then sorted[j + 1] else if j == p then o else sorted[j];
      }
    }
  }

  lemma {:induction false} SortOrders<T>(outputs: seq<Output<T>>)
    ensures Ordered(SortByIndex(outputs))
  {
    if outputs != [] {
      SortOrders(outputs[1..]);
      InsertOrders(outputs[0], SortByIndex(outputs[1..]));
    }
  }

  /** Outputs in order of index, one for each index: the i-th has index i. */
  lemma {:induction false} EachInItsPlace<T>(sorted: seq<Output<T>>, n: nat, i: nat)
    requires Ordered(sorted) && |sorted| == n && multiset(DoneIndices(sorted)) == multiset(Indices(n)) && i < n
    ensures sorted[i].index == i
  {
    AtLeastItsPlace(sorted, n, i);
    AtMostItsPlace(sorted, n, i);
  }

  lemma TwoPlaces(s: seq<nat>, i: nat, j: nat)
    requires i < j < |s|
    ensures s[i] == s[j] ==> multiset(s)[s[i]] >= 2
  {
    assert s == s[..i] + [s[i]] + s[i + 1..j] + [s[j]] + s[j + 1..];
  }

  lemma Rising<T>(sorted: seq<Output<T>>, n: nat, i: nat, j: nat)
    requires Ordered(sorted) && |sorted| == n && multiset(DoneIndices(sorted)) == multiset(Indices(n)) && i < j < n
    ensures sorted[i].index < sorted[j].index < n
  {
    var done := DoneIndices(sorted);
    IndexOnce(n, done[j]);
    assert done[j] in multiset(done);
    TwoPlaces(done, i, j);
  }

  lemma {:induction false} AtLeastItsPlace<T>(sorted: seq<Output<T>>, n: nat, i: nat)
    requires Ordered(sorted) && |sorted| == n && multiset(DoneIndices(sorted)) == multiset(Indices(n)) && i < n
    ensures sorted[i].index >= i
  {
    if i > 0 {
      AtLeastItsPlace(sorted, n, i - 1);
      Rising(sorted, n, i - 1, i);
    }
  }

  lemma {:induction false} AtMostItsPlace<T>(sorted: seq<Output<T>>, n: nat, i: nat)
    requires Ordered(sorted) && |sorted| == n && multiset(DoneIndices(sorted)) == multiset(Indices(n)) && i < n
    ensures sorted[i].index <= i
    decreases n - i
  {
    if i < n - 1 {
      AtMostItsPlace(sorted, n, i + 1);
      Rising(sorted, n, i, i + 1);
    } else {
      IndexOnce(n, sorted[i].index);
      assert DoneIndices(sorted)[i] in multiset(DoneIndices(sorted));
    }
  }

  // ---------------------------------------------------------------- every event keeps the invariant

  lemma Sizes<T>(s: State<T>)
    requires Placed(s)
    ensures |s.callStack| + |s.wave| + |s.running| + |s.outputs| == s.count
  {
    assert |multiset(s.callStack)| == |s.callStack| && |multiset(s.wave)| == |s.wave|;
    assert |multiset(s.running)| == |s.running| && |multiset(DoneIndices(s.outputs))| == |s.outputs|;
    assert |multiset(Indices(s.count))| == s.count;
  }

  /** A callback that has not started is not running. */
  lemma NotStartedYet<T>(s: State<T>, i: nat)
    requires Placed(s) && (i in s.callStack || i in s.wave)
    ensures i !in s.running && i < s.count && i !in s.started
  {
    IndexOnce(s.count, i);
    assert i in multiset(s.callStack) || i in multiset(s.wave);
    assert (multiset(s.callStack) + multiset(s.wave) + multiset(s.started))[i] <= 1;
  }

  lemma StartPlaced<T>(s: State<T>, i: nat, stack: seq<nat>, wave: seq<nat>)
    requires Placed(s) && (i in s.callStack || i in s.wave)
    requires multiset(stack) + multiset(wave) + multiset{i} == multiset(s.callStack) + multiset(s.wave)
    ensures Placed(Start(s.(callStack := stack, wave := wave), i))
    ensures |s.running + {i}| == |s.running| + 1
  {
    NotStartedYet(s, i);
    assert multiset(s.running + {i}) == multiset(s.running) + multiset{i};
  }

  lemma SettledPlaced<T>(s: State<T>, i: nat, outcome: T)
    requires Placed(s) && i in s.running
    ensures Placed(s.(running := s.running - {i}, outputs := s.outputs + [Output(outcome, i)]))
  {
    var outputs := s.outputs + [Output(outcome, i)];
    assert DoneIndices(outputs) == DoneIndices(s.outputs) + [i];
    assert multiset(s.running) == multiset(s.running - {i}) + multiset{i};
  }

  lemma RunNextInv<T>(s: State<T>, limit: nat)
    requires Placed(s) && s.resolutions == []
    requires |s.running| + |s.wave| == Min(limit, s.count - |s.outputs| + 1) - 1
    ensures Inv(RunNext(s), limit)
  {
    Sizes(s);
    if s.callStack == [] {
      SortKeeps(s.outputs);
      assert |multiset(SortByIndex(s.outputs))| == |multiset(s.outputs)|;
      SortTwice(s.outputs);
    } else {
      var last := |s.callStack| - 1;
      assert s.callStack == s.callStack[..last] + [s.callStack[last]];
      StartPlaced(s, s.callStack[last], s.callStack[..last], s.wave);
    }
  }

  lemma {:induction false} SortOrdered<T>(outputs: seq<Output<T>>)
    requires Ordered(outputs)
    ensures SortByIndex(outputs) == outputs
  {
    if outputs != [] {
      SortOrdered(outputs[1..]);
    }
  }

  lemma SortTwice<T>(outputs: seq<Output<T>>)
    ensures SortByIndex(SortByIndex(outputs)) == SortByIndex(outputs)
  {
    SortOrders(outputs);
    SortOrdered(SortByIndex(outputs));
  }

  lemma NextInv<T>(s: State<T>, e: Event<T>, limit: nat)
    requires Inv(s, limit) && Enabled(s, e)
    ensures Inv(Next(s, e), limit)
  {
    Sizes(s);
    match e {
      case Launch =>
        assert s.wave == [s.wave[0]] + s.wave[1..];
        StartPlaced(s, s.wave[0], s.callStack, s.wave[1..]);
      case Settle(i, outcome) =>
        SettledPlaced(s, i, outcome);
        RunNextInv(s.(running := s.running - {i}, outputs := s.outputs + [Output(outcome, i)]), limit);
    }
  }

  lemma {:induction false} AfterInv<T(!new)>(n: nat, maxRunning: real, events: seq<Event<T>>, s: State<T>)
    requires After(n, maxRunning, events, s)
    ensures Inv(s, WaveSize(n, maxRunning)) && s.count == n
    decreases |events|
  {
    if events == [] {
      SplicedInv<T>(n, WaveStart(n, maxRunning), WaveSize(n, maxRunning));
    } else {
      var last := |events| - 1;
      var before :| After(n, maxRunning, events[..last], before) && Steps(before, events[last], s);
      AfterInv(n, maxRunning, events[..last], before);
      NextInv(before, events[last], WaveSize(n, maxRunning));
    }
  }

  // ---------------------------------------------------------------- what holds of every run

  /** Each callback starts at most once, and none that is still to start has started. */
  lemma StartsAtMostOnce<T(!new)>(n: nat, maxRunning: real, events: seq<Event<T>>, s: State<T>)
    requires After(n, maxRunning, events, s)
    ensures forall i, j | 0 <= i < j < |s.started| :: s.started[i] != s.started[j]
    ensures forall i | i in s.started :: i < n && i !in s.callStack && i !in s.wave
  {
    AfterInv(n, maxRunning, events, s);
    forall i, j | 0 <= i < j < |s.started| ensures s.started[i] != s.started[j] {
      TwoPlaces(s.started, i, j);
      IndexOnce(n, s.started[i]);
      assert multiset(Indices(n))[s.started[i]] >= multiset(s.started)[s.started[i]];
    }
    forall i | i in s.started ensures i < n && i !in s.callStack && i !in s.wave {
      IndexOnce(n, i);
      assert i in multiset(s.started) && multiset(Indices(n))[i] >= 1;
      if i in s.callStack || i in s.wave {
        NotStartedYet(s, i);
        assert false;
      }
    }
  }

  /**
   With the first wave launched, exactly as many callbacks run as the bound and the unfinished ones allow.
   The bound is the whole part of `maxRunning`, so at no time do more than `maxRunning` run.
   */
  lemma RunningIsBounded<T(!new)>(n: nat, maxRunning: real, events: seq<Event<T>>, s: State<T>)
    requires After(n, maxRunning, events, s)
    ensures |s.running| + |s.wave| == Min(WaveSize(n, maxRunning), n - |s.outputs|)
    ensures |s.running| as real <= maxRunning || s.running == {}
    ensures maxRunning >= 1.0 && s.wave == [] ==> |s.running| == Min(maxRunning.Floor, n - |s.outputs|)
  {
    WaveSizeExactly(n, maxRunning);
    AfterInv(n, maxRunning, events, s);
    Sizes(s);
  }

  /** What the callbacks of a run settled with, in the order they settled. */
  function Settled<T>(events: seq<Event<T>>): seq<Output<T>>
    decreases |events|
  {
    if events == [] then []
    else
      var last := |events| - 1;
      Settled(events[..last]) + match events[last] case Launch => [] case Settle(i, outcome) => [Output(outcome, i)]
  }

  lemma {:induction false} OutputsAreSettled<T(!new)>(n: nat, maxRunning: real, events: seq<Event<T>>, s: State<T>)
    requires After(n, maxRunning, events, s)
    ensures multiset(s.outputs) == multiset(Settled(events))
    decreases |events|
  {
    if events != [] {
      var last := |events| - 1;
      var before :| After(n, maxRunning, events[..last], before) && Steps(before, events[last], s);
      OutputsAreSettled(n, maxRunning, events[..last], before);
      if events[last].Settle? {
        SortKeeps(before.outputs + [Output(events[last].outcome, events[last].index)]);
      }
    }
  }

  lemma {:induction false} SettledEvent<T>(events: seq<Event<T>>, k: nat)
    requires k < |events| && events[k].Settle?
    ensures Output(events[k].outcome, events[k].index) in Settled(events)
    decreases |events|
  {
    var last := |events| - 1;
    if k < last {
      SettledEvent(events[..last], k);
    }
  }

  /**
   The promise resolves at most once, exactly when all callbacks have settled, and entry i of the result is
   what callback i settled with, in whatever order they settled.
   */
  lemma ResolvesInOrder<T(!new)>(n: nat, maxRunning: real, events: seq<Event<T>>, s: State<T>)
    requires After(n, maxRunning, events, s)
    ensures |s.resolutions| == if |Settled(events)| == n then 1 else 0
    ensures |Settled(events)| == n ==> |s.resolutions[0]| == n
    ensures |Settled(events)| == n ==>
              forall k | 0 <= k < |events| && events[k].Settle? ::
                events[k].index < n && s.resolutions[0][events[k].index] == events[k].outcome
  {
    AfterInv(n, maxRunning, events, s);
    OutputsAreSettled(n, maxRunning, events, s);
    assert |multiset(s.outputs)| == |s.outputs| && |multiset(Settled(events))| == |Settled(events)|;
    if |s.outputs| == n {
      Sizes(s);
      var sorted := SortByIndex(s.outputs);
      SortKeeps(s.outputs);
      SortOrders(s.outputs);
      assert |multiset(sorted)| == |sorted|;
      assert multiset(DoneIndices(s.outputs)) == multiset(Indices(n));
      forall k | 0 <= k < |events| && events[k].Settle?
        ensures events[k].index < n && s.resolutions[0][events[k].index] == events[k].outcome
      {
        var o := Output(events[k].outcome, events[k].index);
        SettledEvent(events, k);
        assert o in multiset(Settled(events)) && o in multiset(sorted);
        var p :| 0 <= p < |sorted| && sorted[p] == o;
        EachInItsPlace(sorted, n, p);
      }
    }
  }

  lemma EventCounts<T>(s: State<T>, e: Event<T>)
    requires Enabled(s, e)
    ensures |Next(s, e).outputs| - |Next(s, e).wave| == |s.outputs| - |s.wave| + 1
  {
    if e.Settle? {
      var outputs := s.outputs + [Output(e.outcome, e.index)];
      SortKeeps(outputs);
      assert |multiset(SortByIndex(outputs))| == |multiset(outputs)|;
    }
  }

  /** A run has at most one event for each launch of the wave and one for each callback. */
  lemma {:induction false} RunsAreShort<T(!new)>(n: nat, maxRunning: real, events: seq<Event<T>>, s: State<T>)
    requires After(n, maxRunning, events, s)
    ensures |events| == |s.outputs| + WaveSize(n, maxRunning) - |s.wave| && |events| <= n + WaveSize(n, maxRunning)
    decreases |events|
  {
    AfterInv(n, maxRunning, events, s);
    Sizes(s);
    if events != [] {
      var last := |events| - 1;
      var before :| After(n, maxRunning, events[..last], before) && Steps(before, events[last], s);
      RunsAreShort(n, maxRunning, events[..last], before);
      EventCounts(before, events[last]);
    }
  }

  lemma EverythingDone<T>(s: State<T>, limit: nat)
    requires Inv(s, limit) && s.wave == [] && s.running == {} && (limit > 0 || s.count == 0)
    ensures |s.outputs| == s.count && s.resolutions != [] && multiset(s.started) == multiset(Indices(s.count))
  {
    Sizes(s);
  }

  lemma NothingStarts<T(!new)>(n: nat, maxRunning: real, events: seq<Event<T>>, s: State<T>)
    requires After(n, maxRunning, events, s) && WaveSize(n, maxRunning) == 0 && n > 0
    ensures events == [] && s.started == [] && s.resolutions == []
  {
    if events != [] {
      var last := |events| - 1;
      var before :| After(n, maxRunning, events[..last], before) && Steps(before, events[last], s);
      AfterInv(n, maxRunning, events[..last], before);
      Sizes(before);
      assert false;
    }
  }

  /**
   When nothing is left to launch or to wait for, every callback has run and the promise has resolved, exactly
   if the bound lets at least one callback run or there is none.  Otherwise nothing ever starts.
   */
  lemma StopsResolvedExactly<T(!new)>(n: nat, maxRunning: real, events: seq<Event<T>>, s: State<T>)
    requires After(n, maxRunning, events, s) && s.wave == [] && s.running == {}
    ensures s.resolutions != [] <==> n == 0 || maxRunning >= 1.0
    ensures n > 0 && maxRunning >= 1.0 ==> multiset(s.started) == multiset(Indices(n)) && |Settled(events)| == n
    ensures n > 0 && maxRunning < 1.0 ==> s.started == [] && events == []
  {
    WaveSizeExactly(n, maxRunning);
    if n == 0 || maxRunning >= 1.0 {
      AfterInv(n, maxRunning, events, s);
      EverythingDone(s, WaveSize(n, maxRunning));
      OutputsAreSettled(n, maxRunning, events, s);
      assert |multiset(s.outputs)| == |s.outputs| && |multiset(Settled(events))| == |Settled(events)|;
    } else {
      NothingStarts(n, maxRunning, events, s);
    }
  }

  /** What is still to be taken: the stack is taken from its end and the wave from its front. */
  predicate TakenFrom<T>(first: State<T>, s: State<T>) {
    s.callStack <= first.callStack && |s.wave| <= |first.wave| && s.wave == first.wave[|first.wave| - |s.wave|..]
  }

  lemma NextTakes<T>(first: State<T>, s: State<T>, e: Event<T>)
    requires TakenFrom(first, s) && Enabled(s, e)
    ensures TakenFrom(first, Next(s, e))
  {
  }

  lemma {:induction false} TakenInOrder<T(!new)>(n: nat, maxRunning: real, events: seq<Event<T>>, s: State<T>)
    requires After(n, maxRunning, events, s)
    ensures TakenFrom(Initial(n, maxRunning), s)
    decreases |events|
  {
    if events != [] {
      var last := |events| - 1;
      var before :| After(n, maxRunning, events[..last], before) && Steps(before, events[last], s);
      TakenInOrder(n, maxRunning, events[..last], before);
      NextTakes(Initial(n, maxRunning), before, events[last]);
    }
  }

  /**
   For a whole bound the first wave is the first `maxRunning` callbacks, last one first, and after it the
   callbacks start in order: the next to start is always the first one not taken yet.
   */
  lemma StartOrder<T(!new)>(n: nat, maxRunning: nat, events: seq<Event<T>>, s: State<T>)
    requires After(n, maxRunning as real, events, s)
    ensures forall k | 0 <= k < |s.callStack| :: s.callStack[k] == n - 1 - k
    ensures forall k | 0 <= k < |s.wave| :: s.wave[k] == |s.wave| - 1 - k
  {
    TakenInOrder(n, maxRunning as real, events, s);
    WholeBound(n, maxRunning);
    SplicedOrder<T>(n, Min(maxRunning, n));
  }

  lemma SplicedOrder<T>(n: nat, size: nat)
    requires size <= n
    ensures var first := Spliced<T>(n, n - size, size);
            && |first.callStack| == n - size && (forall k | 0 <= k < n - size :: first.callStack[k] == n - 1 - k)
            && |first.wave| == size && (forall k | 0 <= k < size :: first.wave[k] == size - 1 - k)
  {
  }

  lemma WholeBound(n: nat, maxRunning: nat)
    ensures WaveSize(n, maxRunning as real) == Min(maxRunning, n)
    ensures WaveStart(n, maxRunning as real) == n - Min(maxRunning, n)
  {
    WaveSizeExactly(n, maxRunning as real);
    if maxRunning <= n {
      assert n as real - maxRunning as real == (n - maxRunning) as real;
      assert ((n - maxRunning) as real).Floor == n - maxRunning;
    }
  }

  // ---------------------------------------------------------------- the call itself

  /** The variables of one call. */
  class Runner<T(!new)> {
    const count: nat
    var callStack: seq<nat>
    var wave: seq<nat>
    var running: set<nat>
    var outputs: seq<Output<T>>
    var resolutions: seq<seq<T>>
    ghost var started: seq<nat>

    ghost function Now(): State<T>
      reads this
    {
      State(count, callStack, wave, running, started, outputs, resolutions)
    }

    constructor (n: nat, maxRunning: real)
      ensures Now() == Initial(n, maxRunning)
    {
      count := n;
      callStack, wave, running, outputs, resolutions, started := [], [], {}, [], [], [];
      new;
      if n == 0 {
        resolutions := [[]];
        return;
      }
      var stack := Reversed(Indices(n));
      var start, size := WaveStart(n, maxRunning), WaveSize(n, maxRunning);
      wave := stack[start..start + size];
      callStack := stack[..start] + stack[start + size..];
    }

    /** The first wave's `map` calls its next callback. */
    method LaunchNext()
      requires wave != []
      modifies this
      ensures Now() == Next(old(Now()), Launch)
    {
      var i := wave[0];
      wave := wave[1..];
      Run(i);
    }

    method Run(i: nat)
      modifies this`running, this`started
      ensures Now() == Start(old(Now()), i)
    {
      running := running + {i};
      started := started + [i];
    }

    /** The wrapper of callback `i` after its await. */
    method OnSettled(i: nat, outcome: T)
      requires i in running
      modifies this
      ensures Now() == Next(old(Now()), Settle(i, outcome))
    {
      running := running - {i};
      outputs := outputs + [Output(outcome, i)];
      OnRunNext();
    }

    /** The listener of RUN_NEXT_PROMISE. */
    method OnRunNext()
      modifies this
      ensures Now() == RunNext(old(Now()))
    {
      if |callStack| == 0 {
        OnResolve();
        return;
      }
      var last := |callStack| - 1;
      var i := callStack[last];
      callStack := callStack[..last];
      Run(i);
    }

    /** The listener of RESOLVE. */
    method OnResolve()
      modifies this
      ensures Now() == Resolve(old(Now()))
    {
      if |outputs| != count {
        return;
      }
      outputs := SortByIndex(outputs);
      resolutions := resolutions + [Outcomes(outputs)];
    }
  }
}
