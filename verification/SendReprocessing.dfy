/**
 `MqSendReprocessing`: what happens to a message whose job failed.  The first failure publishes it again with a
 count of tries; each later failure counts one more, until the count passes the limit and the message is saved.
 */
module SendReprocessing {
  import opened Options

  /** A delay in milliseconds, or what doubling a missing entry gives. */
  datatype Delay = Ms(value: real) | NotANumber

  datatype Tries = Tries(current: int, max: real, delays: seq<Delay>)

  /** How far the failed job got; either part may be missing. */
  datatype Progress = Progress(step: Option<int>, total: Option<int>)

  datatype Fields = Fields(queue: string, exchange: string, routingKey: string)

  /** A body either carries a `reprocessing` envelope or does not. */
  datatype Body<+V> = Plain(value: V) | Wrapped(envelope: Envelope<V>)

  datatype Payload<+V> = Payload(fields: Fields, headers: map<string, V>, body: Body<V>)

  datatype Envelope<+V> = Envelope(
    middleware: string, progress: Progress, tries: Tries, payload: Payload<V>, state: map<string, V>)

  datatype QueueOptions = QueueOptions(queue: string, exchange: Option<string>, routingKey: Option<string>)

  datatype Settings = Settings(queueOptions: QueueOptions, maxTries: real, delays: seq<Delay>)

  /** The arguments of `reprocess`; `counted` says whether the state's own reprocessing data has tries. */
  datatype Params<+V> = Params(
    middleware: string, progress: Progress, payload: Payload<V>, state: map<string, V>, tries: Option<Tries>,
    counted: bool)

  datatype Action<+V> =
    | PublishInQueue(queue: string, message: Envelope<V>, headers: map<string, V>)
    | PublishInExchange(exchange: string, message: Envelope<V>, routingKey: string, headers: map<string, V>,
                        delay: Option<Delay>)
    | Save(parkedIn: Option<string>, message: Envelope<V>, parkedKey: string, parkedQueue: string)

  // ---------------------------------------------------------------- the delays

  function Doubled(d: Delay): Delay {
    match d
    case Ms(value) => Ms(value * 2.0)
    case NotANumber => NotANumber
  }

  /** An entry of an array, `None` when it is undefined. */
  function At<T>(s: seq<T>, i: int): Option<T> {
    if 0 <= i < |s| then Some(s[i]) else None
  }

  /** Twice the last entry; an empty list has none. */
  function NewDelay(delays: seq<Delay>): Delay {
    if delays == [] then NotANumber else Doubled(delays[|delays| - 1])
  }

  /** The delay list pushed up to `maxTries` entries. */
  function Extend(delays: seq<Delay>, maxTries: real): seq<Delay>
    decreases if maxTries.Floor < |delays| then 0 else maxTries.Floor + 1 - |delays|
  {
    if |delays| as real >= maxTries then delays else Extend(delays + [NewDelay(delays)], maxTries)
  }

  function DoubledTimes(d: Delay, n: nat): Delay {
    if n == 0 then d else Doubled(DoubledTimes(d, n - 1))
  }

  /** The configured delays, then the last one doubled again and again. */
  function DelayAt(delays: seq<Delay>, i: nat): Delay
    requires delays != []
  {
    if i < |delays| then delays[i] else DoubledTimes(delays[|delays| - 1], i + 1 - |delays|)
  }

  lemma {:induction false} ExtendedDelays(delays: seq<Delay>, maxTries: real)
    ensures delays <= Extend(delays, maxTries) && |Extend(delays, maxTries)| as real >= maxTries
    ensures |delays| as real < maxTries ==> (|Extend(delays, maxTries)| - 1) as real < maxTries
    ensures |delays| as real >= maxTries ==> Extend(delays, maxTries) == delays
    ensures delays != [] ==>
              forall i | 0 <= i < |Extend(delays, maxTries)| :: Extend(delays, maxTries)[i] == DelayAt(delays, i)
    decreases if maxTries.Floor < |delays| then 0 else maxTries.Floor + 1 - |delays|
  {
    if |delays| as real < maxTries {
      var longer := delays + [NewDelay(delays)];
      ExtendedDelays(longer, maxTries);
      if delays != [] {
        forall i | 0 <= i < |Extend(delays, maxTries)| ensures Extend(delays, maxTries)[i] == DelayAt(delays, i) {
          assert Extend(delays, maxTries)[i] == DelayAt(longer, i);
          OneLonger(delays, i);
        }
      }
    }
  }

  lemma OneLonger(delays: seq<Delay>, i: nat)
    requires delays != []
    ensures DelayAt(delays + [NewDelay(delays)], i) == DelayAt(delays, i)
  {
    if i > |delays| {
      DoubledFirst(delays[|delays| - 1], i - |delays|);
    } else if i == |delays| {
      assert DoubledTimes(delays[|delays| - 1], 1) == Doubled(DoubledTimes(delays[|delays| - 1], 0));
    }
  }

  lemma {:induction false} DoubledFirst(d: Delay, n: nat)
    ensures DoubledTimes(Doubled(d), n) == DoubledTimes(d, n + 1)
  {
    if n > 0 {
      DoubledFirst(d, n - 1);
    } else {
      assert DoubledTimes(d, 1) == Doubled(DoubledTimes(d, 0));
    }
  }

  function PowerOfTwo(n: nat): nat {
    if n == 0 then 1 else 2 * PowerOfTwo(n - 1)
  }

  lemma {:induction false} DoublingMultiplies(d: Delay, n: nat)
    ensures DoubledTimes(d, n) == if d.Ms? then Ms(d.value * PowerOfTwo(n) as real) else NotANumber
  {
    if n > 0 {
      DoublingMultiplies(d, n - 1);
      assert PowerOfTwo(n) as real == 2.0 * PowerOfTwo(n - 1) as real;
    }
  }

  /** Past the configured delays the last one grows by a factor of two each time. */
  lemma DelaysDouble(delays: seq<Delay>, i: nat)
    requires delays != [] && i >= |delays|
    ensures var last := delays[|delays| - 1];
            DelayAt(delays, i) == if last.Ms? then Ms(last.value * PowerOfTwo(i + 1 - |delays|) as real) else NotANumber
  {
    DoublingMultiplies(delays[|delays| - 1], i + 1 - |delays|);
  }

  // ---------------------------------------------------------------- one failure

  function Publish<V>(options: QueueOptions, message: Envelope<V>, delay: Option<Delay>): Action<V> {
    if options.exchange.Some? && options.exchange.value != "" then
      PublishInExchange(options.exchange.value, message, KeyOr(options.routingKey, ""), message.payload.headers, delay)
    else
      PublishInQueue(options.queue, message, message.payload.headers)
  }

  /** `routingKey ?? fallback`. */
  function KeyOr(routingKey: Option<string>, fallback: string): string {
    if routingKey.Some? then routingKey.value else fallback
  }

  function EnvelopeOf<V>(params: Params<V>, tries: Tries): Envelope<V> {
    Envelope(params.middleware, params.progress, tries, params.payload, params.state)
  }

  /** What one failure leads to. */
  function Act<V>(settings: Settings, params: Params<V>): Action<V> {
    var delays := Extend(settings.delays, settings.maxTries);
    var tries := if params.tries.Some? then params.tries.value else Tries(1, settings.maxTries, delays);
    if !params.counted then Publish(settings.queueOptions, EnvelopeOf(params, tries), At(delays, 0))
    else
      var counted := tries.(current := tries.current + 1);
      if counted.current as real > counted.max then
        Save(settings.queueOptions.exchange, EnvelopeOf(params, counted),
             KeyOr(settings.queueOptions.routingKey, ""), settings.queueOptions.queue)
      else
        Publish(settings.queueOptions, EnvelopeOf(params, counted), At(counted.delays, counted.current - 1))
  }

  // ---------------------------------------------------------------- failing again and again

  /**
   A message that fails on every delivery: the first time it carries no tries, and each later delivery is that
   of the message published before, with its tries.  Nothing is delivered after a save.  The settings may be
   others at each failure, since other jobs, or newer versions of the service, may be the ones to fail.
   */
  ghost predicate FailingRun<V>(settings: seq<Settings>, failures: seq<Params<V>>) {
    && |settings| == |failures|
    && (|failures| > 0 ==> failures[0].tries == None && !failures[0].counted)
    && forall k | 0 < k < |failures| :: Redelivered(Act(settings[k - 1], failures[k - 1]), failures[k])
  }

  /** A failure of the message an earlier failure published. */
  predicate Redelivered<V>(action: Action<V>, failure: Params<V>) {
    !action.Save? && failure.tries == Some(action.message.tries) && failure.counted
  }

  /** How often a message is published: `maxTries` times as set at the first failure, but at least once. */
  function Limit(maxTries: real): (r: nat)
    ensures r >= 1
  {
    if maxTries < 1.0 then 1 else maxTries.Floor
  }

  lemma {:induction false} KthFailure<V>(settings: seq<Settings>, failures: seq<Params<V>>, k: nat)
    requires FailingRun(settings, failures) && k < |failures|
    ensures k <= Limit(settings[0].maxTries)
    ensures Act(settings[k], failures[k]).message.tries
            == Tries(k + 1, settings[0].maxTries, Extend(settings[0].delays, settings[0].maxTries))
    ensures Act(settings[k], failures[k]).Save? <==> k == Limit(settings[0].maxTries)
  {
    if k > 0 {
      KthFailure(settings, failures, k - 1);
      assert Redelivered(Act(settings[k - 1], failures[k - 1]), failures[k]);
    }
  }

  /**
   A message that keeps failing is published exactly `Limit(maxTries)` times and then saved once, and that is
   the end of it; through an exchange the k-th publication waits for the k-th delay, which is always there.
   */
  lemma ExactRetries<V>(settings: seq<Settings>, failures: seq<Params<V>>)
    requires FailingRun(settings, failures) && |failures| > 0
    ensures |failures| <= Limit(settings[0].maxTries) + 1
    ensures forall k | 0 <= k < |failures| :: Act(settings[k], failures[k]).Save? <==> k == Limit(settings[0].maxTries)
    ensures settings[0].delays != [] ==>
              forall k | 0 <= k < |failures| && Act(settings[k], failures[k]).PublishInExchange? ::
                Act(settings[k], failures[k]).delay == Some(DelayAt(settings[0].delays, k))
  {
    KthFailure(settings, failures, |failures| - 1);
    forall k | 0 <= k < |failures| ensures Act(settings[k], failures[k]).Save? <==> k == Limit(settings[0].maxTries) {
      KthFailure(settings, failures, k);
    }
    forall k | settings[0].delays != [] && 0 <= k < |failures| && Act(settings[k], failures[k]).PublishInExchange?
      ensures Act(settings[k], failures[k]).delay == Some(DelayAt(settings[0].delays, k))
    {
      KthDelay(settings, failures, k);
    }
  }

  lemma KthDelay<V>(settings: seq<Settings>, failures: seq<Params<V>>, k: nat)
    requires FailingRun(settings, failures) && k < |failures|
    requires settings[0].delays != [] && Act(settings[k], failures[k]).PublishInExchange?
    ensures Act(settings[k], failures[k]).delay == Some(DelayAt(settings[0].delays, k))
  {
    var extended := Extend(settings[0].delays, settings[0].maxTries);
    ExtendedDelays(settings[0].delays, settings[0].maxTries);
    KthFailure(settings, failures, k);
    if k > 0 {
      KthFailure(settings, failures, k - 1);
      assert Redelivered(Act(settings[k - 1], failures[k - 1]), failures[k]);
      assert k < Limit(settings[0].maxTries) && (k + 1) as real <= settings[0].maxTries;
      assert Act(settings[k], failures[k]).delay == At(extended, k);
    }
  }

  /**
   A failure is parked exactly when the count it makes passes the limit.  Published or parked, the message holds
   what the failure held, counts it, and goes where the queue options say, with the failed payload's headers.
   */
  lemma ActionMeans<V>(settings: Settings, params: Params<V>)
    ensures var action, options := Act(settings, params), settings.queueOptions;
            && action.message.payload == params.payload && action.message.state == params.state
            && action.message.middleware == params.middleware && action.message.progress == params.progress
            && action.message.tries.current ==
                 (if params.tries.Some? then params.tries.value.current else 1) + (if params.counted then 1 else 0)
            && (action.Save? <==> params.counted && action.message.tries.current as real > action.message.tries.max)
            && (action.Save? ==>
                  && action.parkedIn == options.exchange && action.parkedQueue == options.queue
                  && action.parkedKey == KeyOr(options.routingKey, ""))
            && (action.PublishInQueue? ==>
                  && (options.exchange.None? || options.exchange == Some(""))
                  && action.queue == options.queue && action.headers == params.payload.headers)
            && (action.PublishInExchange? ==>
                  && options.exchange == Some(action.exchange) && action.exchange != ""
                  && action.headers == params.payload.headers
                  && action.routingKey == KeyOr(options.routingKey, "")
                  && action.delay == if params.counted
                                     then At(action.message.tries.delays, action.message.tries.current - 1)
                                     else At(Extend(settings.delays, settings.maxTries), 0))
  {
  }

  // ---------------------------------------------------------------- the code

  /** An array of delays, shared by every sender built from the same options. */
  class DelayList {
    var items: seq<Delay>

    constructor (items: seq<Delay>)
      ensures this.items == items
    {
      this.items := items;
    }
  }

  /** The tries object that came with a delivered message. */
  class TriesObject {
    var current: int
    const max: real
    const delays: seq<Delay>

    constructor (tries: Tries)
      ensures Value() == tries
    {
      current, max, delays := tries.current, tries.max, tries.delays;
    }

    function Value(): Tries
      reads this
    {
      Tries(current, max, delays)
    }
  }

  class MqSendReprocessing {
    const queueOptions: QueueOptions
    const maxTries: real
    const delays: DelayList

    constructor (queueOptions: QueueOptions, maxTries: real, delays: DelayList)
      ensures this.queueOptions == queueOptions && this.maxTries == maxTries && this.delays == delays
    {
      this.queueOptions, this.maxTries, this.delays := queueOptions, maxTries, delays;
    }

    function Current(): Settings
      reads delays
    {
      Settings(queueOptions, maxTries, delays.items)
    }

    /** The loop that pushes the missing delays onto the shared list. */
    method ExtendDelays()
      modifies delays
      ensures delays.items == Extend(old(delays.items), maxTries)
    {
      while (|delays.items| as real) < maxTries
        invariant Extend(delays.items, maxTries) == Extend(old(delays.items), maxTries)
        decreases if maxTries.Floor < |delays.items| then 0 else maxTries.Floor + 1 - |delays.items|
      {
        delays.items := delays.items + [NewDelay(delays.items)];
      }
    }

    /** Counts the failure on the tries object itself and returns the one effect. */
    method Reprocess<V>(middleware: string, progress: Progress, payload: Payload<V>, state: map<string, V>,
                        tries: TriesObject?, counted: bool)
      returns (action: Action<V>)
      modifies delays, tries
      ensures action == Act(old(Current()), Params(middleware, progress, payload, state,
                                                   if tries == null then None else Some(old(tries.Value())), counted))
      ensures delays.items == Extend(old(delays.items), maxTries)
      ensures tries != null ==> tries.current == old(tries.current) + if counted then 1 else 0
    {
      ExtendDelays();
      var ours := tries;
      if ours == null {
        ours := new TriesObject(Tries(1, maxTries, delays.items));
      }
      if !counted {
        var first := Envelope(middleware, progress, ours.Value(), payload, state);
        action := Publish(queueOptions, first, At(delays.items, 0));
        return;
      }
      ours.current := ours.current + 1;
      var message := Envelope(middleware, progress, ours.Value(), payload, state);
      if ours.current as real > ours.max {
        action := Save(queueOptions.exchange, message, KeyOr(queueOptions.routingKey, ""), queueOptions.queue);
        return;
      }
      action := Publish(queueOptions, message, At(ours.delays, ours.current - 1));
    }
  }
}
