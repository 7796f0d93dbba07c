/**
 The bulk insert buffer as a transition system.  The JavaScript event loop runs one step at a time, so a
 step is one stretch of code between two suspension points: a call of `enqueue` or `flush`, the timer
 callback, the `finally` body of one insert, or the code after an `await` in a suspended `flush`.
 Every interleaving of these steps is allowed.
 */
module BulkInsertSpec {
  import opened Options

  /** A JavaScript number, as far as the constructor distinguishes them. */
  datatype Number = NaN | PlusInfinity | MinusInfinity | Finite(value: real)

  /** A constructor option: kept when finite and positive, replaced by the fallback otherwise. */
  function PositiveOr(option: Option<Number>, fallback: real): (r: real)
    requires fallback > 0.0
    ensures r > 0.0
    ensures forall x: real | option == Some(Finite(x)) && x > 0.0 :: r == x
    ensures (option.None? || !option.value.Finite? || option.value.value <= 0.0) ==> r == fallback
  {
    if option.Some? && option.value.Finite? && option.value.value > 0.0 then option.value.value else fallback
  }

  /** `count >= bound`, a JavaScript comparison of a length with a possibly fractional bound. */
  predicate AtLeast(count: nat, bound: real) {
    count as real >= bound
  }

  /** The sizes in force, and whether the `onError` callback is able to throw. */
  datatype RawConfig = Config(maxSize: real, maxQueueSize: real, onErrorThrows: bool)
  type Config = c: RawConfig | c.maxSize > 0.0 && c.maxQueueSize > 0.0 witness Config(50.0, 10000.0, false)

  /** The `timer` field: null, a pending timeout, or the stale handle of a timeout that already fired. */
  datatype Timer = Null | Armed | Fired

  /** `insertMany` either returns a promise or throws before returning one. */
  datatype Start = Returns | Throws

  /** How an insert ends once the error handler has run: `Rejected` only when `onError` threw. */
  datatype Outcome = Settled | Rejected

  /** Where a `flush` call is suspended: behind another call's insert (line 73) or on its own (line 98). */
  datatype Suspension = Waiting(flight: nat) | Owning(flight: nat)

  /** A suspended call; `mark` counts the documents accepted before it was made. */
  datatype Call = Call(at: Suspension, mark: nat)

  /** A call that resolved, and how many documents had left the queue by then. */
  datatype Resolution = Resolution(call: nat, mark: nat, departed: nat)

  /**
   The first four fields are those of the class.  `inFlight`, `broken`, `calls` belong to the promises:
   inserts whose `finally` has not run, inserts whose chain rejected, and suspended calls.  The rest is
   history: documents in acceptance order, one verdict per departed document (true: handed over, false:
   dropped), and the batches handed to `insertMany`.  A flight is named by the index of its batch.
   */
  datatype State<T> = State(
    queue: seq<T>, timer: Timer, flushing: Option<nat>, dropped: nat,
    inFlight: set<nat>, broken: set<nat>, calls: map<nat, Call>, nextCall: nat,
    accepted: seq<T>, fates: seq<bool>, batches: seq<seq<T>>, resolved: seq<Resolution>)

  datatype Step<T> =
    | Enqueue(document: T, start: Start)
    | Flush(start: Start)
    | TimerFires(start: Start)
    | InsertSettles(flight: nat, outcome: Outcome, start: Start)
    | Resume(call: nat, start: Start)
  {
    predicate Internal() {
      TimerFires? || InsertSettles? || Resume?
    }
  }

  function Init<T>(): State<T> {
    State([], Null, None, 0, {}, {}, map[], 0, [], [], [], [])
  }

  function Verdicts(handed: bool, n: nat): (r: seq<bool>)
    ensures |r| == n
  {
    seq(n, _ => handed)
  }

  function ScheduleFlush<T>(s: State<T>): State<T> {
    if s.timer != Null || s.queue == [] then s else s.(timer := Armed)
  }

  function ResolveCall<T>(s: State<T>, id: nat, mark: nat): State<T> {
    s.(resolved := s.resolved + [Resolution(id, mark, |s.fates|)])
  }

  /** The synchronous part of `flush`, run on behalf of call `id`. */
  function FlushCall<T>(s: State<T>, id: nat, mark: nat, start: Start): State<T> {
    if s.flushing.Some? then
      s.(calls := s.calls[id := Call(Waiting(s.flushing.value), mark)])
    else if s.queue == [] then
      ResolveCall(s.(timer := Null), id, mark)
    else
      var handed := s.(timer := Null, queue := [], batches := s.batches + [s.queue],
                       fates := s.fates + Verdicts(true, |s.queue|));
      if start.Throws? then handed
      else
        var flight := |s.batches|;
        handed.(flushing := Some(flight), inFlight := s.inFlight + {flight},
                calls := s.calls[id := Call(Owning(flight), mark)])
  }

  function NewFlush<T>(s: State<T>, start: Start): State<T> {
    FlushCall(s.(nextCall := s.nextCall + 1), s.nextCall, |s.accepted|, start)
  }

  function FlushOrSchedule<T>(cfg: Config, s: State<T>, start: Start): State<T> {
    if AtLeast(|s.queue|, cfg.maxSize) then NewFlush(s, start) else ScheduleFlush(s)
  }

  function DropOldest<T>(s: State<T>): State<T>
    requires s.queue != []
  {
    s.(queue := s.queue[1..], dropped := s.dropped + 1, fates := s.fates + [false])
  }

  predicate Full<T>(cfg: Config, s: State<T>) {
    AtLeast(|s.queue|, cfg.maxQueueSize)
  }

  function Accept<T>(cfg: Config, s: State<T>, document: T): State<T> {
    var room := if Full(cfg, s) then DropOldest(s) else s;
    room.(queue := room.queue + [document], accepted := room.accepted + [document])
  }

  predicate Ready<T>(s: State<T>, id: nat) {
    id in s.calls && s.calls[id].at.flight !in s.inFlight
  }

  predicate Enabled<T>(cfg: Config, s: State<T>, step: Step<T>) {
    match step
    case Enqueue(_, _) => true
    case Flush(_) => true
    case TimerFires(_) => s.timer == Armed
    case InsertSettles(flight, outcome, _) => flight in s.inFlight && (outcome == Rejected ==> cfg.onErrorThrows)
    case Resume(id, _) => Ready(s, id)
  }

  function SettleFlight<T>(s: State<T>, flight: nat, outcome: Outcome): State<T> {
    s.(flushing := None, inFlight := s.inFlight - {flight},
       broken := if outcome == Rejected then s.broken + {flight} else s.broken)
  }

  function ResumeCall<T>(s: State<T>, id: nat, start: Start): State<T>
    requires id in s.calls
  {
    var call := s.calls[id];
    var rest := s.(calls := s.calls - {id});
    if call.at.flight in s.broken then rest
    else if call.at.Waiting? && s.queue != [] then FlushCall(rest, id, call.mark, start)
    else ResolveCall(rest, id, call.mark)
  }

  function Next<T>(cfg: Config, s: State<T>, step: Step<T>): State<T>
    requires Enabled(cfg, s, step)
  {
    match step
    case Enqueue(document, start) => FlushOrSchedule(cfg, Accept(cfg, s, document), start)
    case Flush(start) => NewFlush(s, start)
    case TimerFires(start) => NewFlush(s.(timer := Fired), start)
    case InsertSettles(flight, outcome, start) => FlushOrSchedule(cfg, SettleFlight(s, flight, outcome), start)
    case Resume(id, start) => ResumeCall(s, id, start)
  }

  /** The state after a script of steps; a step that is not enabled when its turn comes is passed over. */
  function Exec<T>(cfg: Config, s: State<T>, steps: seq<Step<T>>): State<T>
    decreases |steps|
  {
    if steps == [] then s
    else Exec(cfg, if Enabled(cfg, s, steps[0]) then Next(cfg, s, steps[0]) else s, steps[1..])
  }

  // ---------------------------------------------------------------- history

  function Flatten<T>(batches: seq<seq<T>>): seq<T> {
    if batches == [] then [] else Flatten(batches[..|batches| - 1]) + batches[|batches| - 1]
  }

  /** The documents whose verdict is true, in order. */
  function Kept<T>(documents: seq<T>, fates: seq<bool>): seq<T>
    requires |documents| == |fates|
  {
    if fates == [] then []
    else
      var n := |fates| - 1;
      Kept(documents[..n], fates[..n]) + if fates[n] then [documents[n]] else []
  }

  function Drops(fates: seq<bool>): nat {
    if fates == [] then 0
    else Drops(fates[..|fates| - 1]) + if fates[|fates| - 1] then 0 else 1
  }

  lemma {:induction false} KeptAll<T>(documents: seq<T>, fates: seq<bool>, more: seq<T>)
    requires |documents| == |fates|
    ensures Kept(documents + more, fates + Verdicts(true, |more|)) == Kept(documents, fates) + more
    ensures Drops(fates + Verdicts(true, |more|)) == Drops(fates)
  {
    var all, verdicts := documents + more, fates + Verdicts(true, |more|);
    if more == [] {
      assert all == documents && verdicts == fates;
    } else {
      var n, init := |verdicts| - 1, more[..|more| - 1];
      KeptAll(documents, fates, init);
      assert all[..n] == documents + init;
      assert verdicts[..n] == fates + Verdicts(true, |init|);
    }
  }

  lemma KeptNone<T>(documents: seq<T>, fates: seq<bool>, document: T)
    requires |documents| == |fates|
    ensures Kept(documents + [document], fates + [false]) == Kept(documents, fates)
    ensures Drops(fates + [false]) == Drops(fates) + 1
  {
    var all, verdicts := documents + [document], fates + [false];
    assert all[..|fates|] == documents && verdicts[..|fates|] == fates;
  }

  lemma {:induction false} KeptLength<T>(documents: seq<T>, fates: seq<bool>)
    requires |documents| == |fates|
    ensures |Kept(documents, fates)| + Drops(fates) == |fates|
  {
    if fates != [] {
      KeptLength(documents[..|fates| - 1], fates[..|fates| - 1]);
    }
  }
}
