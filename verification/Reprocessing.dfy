/**
 The `reprocessing` decorator over a chain of jobs, delivery after delivery.  A job that throws has its payload and
 the shared state published in an envelope; the next delivery unwraps the envelope before each job and skips the
 jobs before the one that failed.
 */
module Reprocessing {
  import opened Options
  import opened SendReprocessing
  import Flow

  /** `state.reprocessing`: what a delivered envelope says about the failure, as far as it is used. */
  datatype Rep = Rep(middleware: Option<string>, progress: Option<Progress>, tries: Option<Tries>)

  datatype SharedState<+V> = SharedState(values: map<string, V>, reprocessing: Option<Rep>)

  datatype JobOptions = JobOptions(
    maxTries: Option<real>, delays: Option<seq<Delay>>, normalizeOnly: bool,
    queueOptions: Option<(string, Option<string>)>)

  /** The service's own settings; `stoppedMiddleware` is the mode STOPPED_MIDDLEWARE. */
  datatype Config = Config(enabled: bool, stoppedMiddleware: bool, maxTries: real, delays: seq<Delay>)

  /** What a handler leaves in its payload and the state, and whether it called `next` or threw. */
  datatype Effect<+V> = Effect(
    headers: map<string, V>, body: Body<V>, values: map<string, V>, calledNext: bool, error: Option<Progress>)

  datatype Job<!V> = Job(name: string, options: JobOptions, handle: (Payload<V>, SharedState<V>) -> Effect<V>)

  datatype Ending<+V> = Completed | Swallowed | Sent(settings: Settings, failure: Params<V>)

  /** What happened at one job: the payload and state its handler saw and left, and how it ended. */
  datatype Event<+V> =
    | Skipped
    | Ran(seen: Payload<V>, seenState: SharedState<V>, left: Payload<V>, leftValues: map<string, V>, ending: Ending<V>)

  // ---------------------------------------------------------------- one job

  function RepOf<V>(envelope: Envelope<V>): Rep {
    Rep(Some(envelope.middleware), Some(envelope.progress), Some(envelope.tries))
  }

  predicate SkipMiddleware(reprocessing: Option<Rep>, middleware: string) {
    && reprocessing.Some?
    && reprocessing.value.middleware.Some? && reprocessing.value.middleware.value != ""
    && reprocessing.value.middleware.value != middleware
  }

  function NormalizedPayload<V>(payload: Payload<V>): Payload<V> {
    match payload.body
    case Plain(_) => payload
    case Wrapped(envelope) => payload.(headers := envelope.payload.headers, body := envelope.payload.body)
  }

  function NormalizedState<V>(payload: Payload<V>, state: SharedState<V>): SharedState<V> {
    match payload.body
    case Plain(_) => state
    case Wrapped(envelope) =>
      SharedState(state.values + envelope.state,
                  if state.reprocessing.Some? then state.reprocessing else Some(RepOf(envelope)))
  }

  /** `{ ...state.reprocessing, middleware: null }`. */
  function Unmarked(reprocessing: Option<Rep>): Rep {
    if reprocessing.Some? then reprocessing.value.(middleware := None) else Rep(None, None, None)
  }

  function SettingsOf(options: JobOptions, config: Config, fields: Fields): Settings {
    var (exchange, routingKey) :=
      if options.queueOptions.Some? then options.queueOptions.value else (fields.exchange, Some(fields.routingKey));
    Settings(QueueOptions(fields.queue, Some(exchange), routingKey),
             if options.maxTries.Some? then options.maxTries.value else config.maxTries,
             if options.delays.Some? then options.delays.value else config.delays)
  }

  datatype JobRun<+V> = JobRun(event: Event<V>, state: SharedState<V>, calledNext: bool)

  /** The decorated handler. */
  function RunJob<V>(job: Job<V>, config: Config, payload: Payload<V>, state: SharedState<V>): JobRun<V> {
    var seen, normal := NormalizedPayload(payload), NormalizedState(payload, state);
    if SkipMiddleware(normal.reprocessing, job.name) && config.stoppedMiddleware then JobRun(Skipped, normal, true)
    else
      var rep := Unmarked(normal.reprocessing);
      var seenState := normal.(reprocessing := Some(rep));
      var effect := job.handle(seen, seenState);
      var left := seen.(headers := effect.headers, body := effect.body);
      var ending := EndingOf(job, config, payload, left, rep, effect);
      JobRun(Ran(seen, seenState, left, effect.values, ending),
             SharedState(effect.values, Some(Counted(rep, ending))), effect.calledNext)
  }

  function EndingOf<V>(job: Job<V>, config: Config, payload: Payload<V>, left: Payload<V>, rep: Rep, effect: Effect<V>)
    : Ending<V>
  {
    if effect.error.None? then Completed
    else if !config.enabled || job.options.normalizeOnly then Swallowed
    else Sent(SettingsOf(job.options, config, payload.fields),
              Params(job.name, effect.error.value, left, effect.values, rep.tries, rep.tries.Some?))
  }

  /** Sending counts the try on the tries object the state holds, if it holds one. */
  function Counted<V>(rep: Rep, ending: Ending<V>): Rep {
    if ending.Sent? && rep.tries.Some? then rep.(tries := Some(Act(ending.settings, ending.failure).message.tries))
    else rep
  }

  // ---------------------------------------------------------------- one delivery

  /** The chain of the job adapter: each job gets its own copy of the payload and the one shared state. */
  function Deliver<V>(jobs: seq<Job<V>>, config: Config, payload: Payload<V>, state: SharedState<V>): seq<Event<V>> {
    if jobs == [] then []
    else
      var run := RunJob(jobs[0], config, payload, state);
      [run.event] + if run.calledNext then Deliver(jobs[1..], config, payload, run.state) else []
  }

  /** How the decorated handlers end; they never throw, so a job that failed just does not go on. */
  function EndsOf<V>(jobs: seq<Job<V>>, config: Config, payload: Payload<V>, state: SharedState<V>): (r: seq<Flow.End>)
    ensures |r| == |Deliver(jobs, config, payload, state)| <= |jobs|
  {
    if jobs == [] then []
    else
      var run := RunJob(jobs[0], config, payload, state);
      if run.calledNext then [Flow.Continue] + EndsOf(jobs[1..], config, payload, run.state) else [Flow.Stop]
  }

  lemma {:induction false} EndsShape<V>(jobs: seq<Job<V>>, config: Config, payload: Payload<V>, state: SharedState<V>)
    ensures var ends := EndsOf(jobs, config, payload, state);
            && Flow.GoesOn(ends) && (|ends| < |jobs| ==> ends != [] && ends[|ends| - 1] == Flow.Stop)
            && forall k | 0 <= k < |ends| :: !ends[k].Fail?
  {
    if jobs != [] {
      var run := RunJob(jobs[0], config, payload, state);
      if run.calledNext {
        EndsShape(jobs[1..], config, payload, run.state);
      }
    }
  }

  /** The event-driven flow starts exactly the jobs of the delivery, and the delivery's promise resolves. */
  lemma DeliveryIsFlow<V>(jobs: seq<Job<V>>, config: Config, payload: Payload<V>, state: SharedState<V>,
                          events: seq<Flow.Event>, s: Flow.State)
    requires Flow.Run(Flow.Initial(|jobs|), events, s) && s.active == {}
    requires s.ends <= EndsOf(jobs, config, payload, state)
    ensures |s.started| == |Deliver(jobs, config, payload, state)| && s.verdicts == [Flow.Resolved]
  {
    EndsShape(jobs, config, payload, state);
    Flow.RunIsChain(|jobs|, events, s);
    Flow.StopsWithVerdict(|jobs|, events, s);
    Flow.InitialInv(|jobs|);
    Flow.RunInv(Flow.Initial(|jobs|), events, s);
    Flow.ChainIsLast(s.ends, |jobs|);
  }

  function EmptyState<V>(): SharedState<V> {
    SharedState(map[], None)
  }

  /** A handler that throws does so before it calls `next`. */
  ghost predicate ThrowsBeforeNext<V(!new)>(job: Job<V>) {
    forall p, s :: job.handle(p, s).error.Some? ==> !job.handle(p, s).calledNext
  }

  ghost predicate AllThrowBeforeNext<V(!new)>(jobs: seq<Job<V>>) {
    forall i | 0 <= i < |jobs| :: ThrowsBeforeNext(jobs[i])
  }

  /** Where a retry starts: at the first job of that name; a missing name skips nothing, an unknown one everything. */
  function ResumeIndex<V>(jobs: seq<Job<V>>, middleware: string): (r: nat)
    ensures r <= |jobs|
  {
    if jobs == [] || middleware == "" || jobs[0].name == middleware then 0 else 1 + ResumeIndex(jobs[1..], middleware)
  }

  lemma {:induction false} ResumesAtFirst<V>(jobs: seq<Job<V>>, middleware: string)
    ensures var r := ResumeIndex(jobs, middleware);
            && (forall j | 0 <= j < r :: jobs[j].name != middleware)
            && (r < |jobs| && middleware != "" ==> jobs[r].name == middleware)
            && (middleware == "" ==> r == 0)
  {
    if jobs != [] && middleware != "" && jobs[0].name != middleware {
      ResumesAtFirst(jobs[1..], middleware);
      var r := ResumeIndex(jobs[1..], middleware);
      assert forall j | 1 <= j < r + 1 :: jobs[j] == jobs[1..][j - 1];
    }
  }

  /** A retry starts at the job that failed exactly when no job before it has its name and it has one. */
  lemma ResumesAtFailedExactly<V>(jobs: seq<Job<V>>, failed: nat)
    requires failed < |jobs|
    ensures ResumeIndex(jobs, jobs[failed].name) == failed <==>
            failed == 0 || (jobs[failed].name != "" && forall j | 0 <= j < failed :: jobs[j].name != jobs[failed].name)
  {
    ResumesAtFirst(jobs, jobs[failed].name);
  }

  /** A job's run, when it is not skipped. */
  ghost predicate Proper<V>(events: seq<Event<V>>) {
    forall k | 0 <= k < |events| :: events[k].Ran?
  }

  /** From the first job that runs on, nothing is skipped; in a retry each job sees the envelope again. */
  lemma {:induction false} RestRuns<V>(jobs: seq<Job<V>>, config: Config, payload: Payload<V>, state: SharedState<V>)
    requires state.reprocessing.Some? && state.reprocessing.value.middleware.None?
    ensures var events := Deliver(jobs, config, payload, state);
            && |events| <= |jobs| && Proper(events)
            && (forall k | 0 <= k < |events| :: events[k].seen == NormalizedPayload(payload))
            && (payload.body.Wrapped? ==> forall k | 0 <= k < |events| ::
                  var left := if k == 0 then state.values else events[k - 1].leftValues;
                  events[k].seenState.values == left + payload.body.envelope.state)
  {
    if jobs != [] {
      var run := RunJob(jobs[0], config, payload, state);
      if run.calledNext {
        RestRuns(jobs[1..], config, payload, run.state);
      }
    }
  }

  /** A job that sees the envelope's state put back over what the job before it left. */
  predicate SeesAgain<V(==)>(before: Event<V>, event: Event<V>, values: map<string, V>) {
    event.Ran? && before.Ran? && event.seenState.values == before.leftValues + values
  }

  /** The job a retry starts at. */
  predicate SeesFailure<V(==)>(event: Event<V>, envelope: Envelope<V>) {
    && event.Ran? && event.seenState.values == envelope.state
    && event.seenState.reprocessing == Some(Rep(None, Some(envelope.progress), Some(envelope.tries)))
  }

  ghost predicate RetryFrom<V>(r: nat, events: seq<Event<V>>, payload: Payload<V>)
    requires payload.body.Wrapped?
  {
    && r <= |events|
    && (forall k | 0 <= k < r :: events[k].Skipped?)
    && (forall k | r <= k < |events| :: events[k].Ran? && events[k].seen == NormalizedPayload(payload))
    && (r < |events| ==> SeesFailure(events[r], payload.body.envelope))
    && (forall k | r < k < |events| :: SeesAgain(events[k - 1], events[k], payload.body.envelope.state))
  }

  /** The state at a job up to and including the one a retry starts at. */
  ghost predicate NotYetResumed<V>(envelope: Envelope<V>, state: SharedState<V>) {
    state == EmptyState() || state == SharedState(envelope.state, Some(RepOf(envelope)))
  }

  lemma NormalizedBeforeResuming<V>(payload: Payload<V>, state: SharedState<V>)
    requires payload.body.Wrapped? && NotYetResumed(payload.body.envelope, state)
    ensures var envelope := payload.body.envelope;
            NormalizedState(payload, state) == SharedState(envelope.state, Some(RepOf(envelope)))
  {
    var envelope := payload.body.envelope;
    assert EmptyState<V>().values + envelope.state == envelope.state;
    assert envelope.state + envelope.state == envelope.state;
  }

  lemma ResumesHere<V>(jobs: seq<Job<V>>, config: Config, payload: Payload<V>, state: SharedState<V>)
    requires payload.body.Wrapped? && NotYetResumed(payload.body.envelope, state)
    requires jobs != [] && ResumeIndex(jobs, payload.body.envelope.middleware) == 0
    ensures var events := Deliver(jobs, config, payload, state);
            0 < |events| <= |jobs| && RetryFrom(0, events, payload)
  {
    NormalizedBeforeResuming(payload, state);
    var run := RunJob(jobs[0], config, payload, state);
    if run.calledNext {
      RestRuns(jobs[1..], config, payload, run.state);
    }
  }

  /** The delivery of an envelope, from the first job on or after some jobs have been skipped. */
  lemma {:induction false} RetryShape<V>(jobs: seq<Job<V>>, config: Config, payload: Payload<V>, state: SharedState<V>)
    requires config.stoppedMiddleware && payload.body.Wrapped? && NotYetResumed(payload.body.envelope, state)
    ensures var r, events := ResumeIndex(jobs, payload.body.envelope.middleware), Deliver(jobs, config, payload, state);
            RetryFrom(r, events, payload) && |events| <= |jobs| && (r < |jobs| ==> r < |events|)
  {
    if jobs != [] {
      if ResumeIndex(jobs, payload.body.envelope.middleware) == 0 {
        ResumesHere(jobs, config, payload, state);
      } else {
        NormalizedBeforeResuming(payload, state);
        RetryShape(jobs[1..], config, payload, RunJob(jobs[0], config, payload, state).state);
      }
    }
  }

  /** In any other mode nothing is ever skipped: every retry runs the chain from its first job. */
  lemma {:induction false} OtherModesRestart<V>(jobs: seq<Job<V>>, config: Config, payload: Payload<V>,
                                                state: SharedState<V>)
    requires !config.stoppedMiddleware
    ensures Proper(Deliver(jobs, config, payload, state))
  {
    if jobs != [] {
      var run := RunJob(jobs[0], config, payload, state);
      if run.calledNext {
        OtherModesRestart(jobs[1..], config, payload, run.state);
      }
    }
  }

  /** The tries a delivered message carries. */
  function TriesOf<V>(body: Body<V>): Option<Tries> {
    if body.Wrapped? then Some(body.envelope.tries) else None
  }

  lemma SendingStops<V(!new)>(job: Job<V>, config: Config, payload: Payload<V>, state: SharedState<V>)
    requires ThrowsBeforeNext(job)
    ensures var run := RunJob(job, config, payload, state); run.event.Ran? && run.event.ending.Sent? ==> !run.calledNext
  {
    var normal := NormalizedState(payload, state);
    var effect := job.handle(NormalizedPayload(payload), normal.(reprocessing := Some(Unmarked(normal.reprocessing))));
    assert effect.error.Some? ==> !effect.calledNext;
  }

  /** In a delivery only the last job can have been sent, and with the tries the message came with. */
  lemma {:induction false} SentIsLast<V(!new)>(jobs: seq<Job<V>>, config: Config, payload: Payload<V>,
                                               state: SharedState<V>)
    requires AllThrowBeforeNext(jobs)
    requires state == EmptyState()
             || (state.reprocessing.Some? && state.reprocessing.value.tries == TriesOf(payload.body))
    ensures var events := Deliver(jobs, config, payload, state);
            forall k | 0 <= k < |events| && events[k].Ran? && events[k].ending.Sent? ::
              && k == |events| - 1 && k < |jobs|
              && events[k].ending.failure.middleware == jobs[k].name
              && events[k].ending.failure.payload == events[k].left
              && events[k].ending.failure.state == events[k].leftValues
              && events[k].ending.failure.tries == TriesOf(payload.body)
              && events[k].ending.failure.counted == TriesOf(payload.body).Some?
    decreases |jobs|
  {
    if jobs != [] {
      var run := RunJob(jobs[0], config, payload, state);
      if run.calledNext {
        SendingStops(jobs[0], config, payload, state);
        SentIsLast(jobs[1..], config, payload, run.state);
      }
    }
  }

  // ---------------------------------------------------------------- what the handlers decide

  /** An error is sent exactly when sending is enabled and the job is not for normalizing only. */
  ghost predicate EndsAs<V>(job: Job<V>, config: Config, fields: Fields, event: Event<V>)
    requires event.Ran?
  {
    var effect := job.handle(event.seen, event.seenState);
    && event.left.headers == effect.headers && event.left.body == effect.body && event.left.fields == fields
    && event.leftValues == effect.values
    && (event.ending.Completed? <==> effect.error.None?)
    && (event.ending.Sent? <==> effect.error.Some? && config.enabled && !job.options.normalizeOnly)
    && (event.ending.Sent? ==>
          && event.ending.failure.middleware == job.name && event.ending.failure.progress == effect.error.value
          && event.ending.failure.payload == event.left && event.ending.failure.state == event.leftValues)
  }

  /** Each handler that runs decides by what it does how its job ends and what is sent. */
  lemma {:induction false} HandlersDecide<V>(jobs: seq<Job<V>>, config: Config, payload: Payload<V>,
                                             state: SharedState<V>)
    ensures var events := Deliver(jobs, config, payload, state);
            && |events| <= |jobs|
            && forall k | 0 <= k < |events| && events[k].Ran? :: EndsAs(jobs[k], config, payload.fields, events[k])
  {
    if jobs != [] {
      var run := RunJob(jobs[0], config, payload, state);
      if run.calledNext {
        HandlersDecide(jobs[1..], config, payload, run.state);
      }
    }
  }

  /** The next job gets its turn exactly when this one was skipped or its handler called `next`. */
  lemma {:induction false} NextJobExactly<V>(jobs: seq<Job<V>>, config: Config, payload: Payload<V>,
                                             state: SharedState<V>, k: nat)
    requires k < |Deliver(jobs, config, payload, state)|
    ensures var events := Deliver(jobs, config, payload, state);
            && k < |jobs|
            && (k + 1 < |events| <==>
                && k + 1 < |jobs|
                && (events[k].Skipped? || jobs[k].handle(events[k].seen, events[k].seenState).calledNext))
    decreases k
  {
    var run := RunJob(jobs[0], config, payload, state);
    if k > 0 {
      NextJobExactly(jobs[1..], config, payload, run.state, k - 1);
    } else if run.calledNext && |jobs| > 1 {
      assert |Deliver(jobs[1..], config, payload, run.state)| > 0;
    }
  }

  /** The state values are those the job before left, or the initial ones. */
  predicate SeesLeft<V(==)>(before: Option<Event<V>>, initial: map<string, V>, event: Event<V>) {
    && event.Ran?
    && if before.None? then event.seenState.values == initial
       else before.value.Ran? && event.seenState.values == before.value.leftValues
  }

  predicate SeesPlain<V(==)>(payload: Payload<V>, event: Event<V>) {
    event.Ran? && event.seen == payload && event.seenState.reprocessing == Some(Rep(None, None, None))
  }

  function Before<V>(events: seq<Event<V>>, k: nat): Option<Event<V>>
    requires k < |events|
  {
    if k == 0 then None else Some(events[k - 1])
  }

  /** In a first delivery every job sees the message as delivered and the state the job before it left. */
  lemma {:induction false} PlainDelivery<V>(jobs: seq<Job<V>>, config: Config, payload: Payload<V>,
                                            state: SharedState<V>)
    requires payload.body.Plain?
    requires state.reprocessing.None? || state.reprocessing == Some(Rep(None, None, None))
    ensures var events := Deliver(jobs, config, payload, state);
            && (jobs != [] ==> events != [])
            && (forall k | 0 <= k < |events| :: SeesPlain(payload, events[k]))
            && (forall k | 0 <= k < |events| :: SeesLeft(Before(events, k), state.values, events[k]))
  {
    if jobs != [] {
      var run := RunJob(jobs[0], config, payload, state);
      if run.calledNext {
        var events, rest := Deliver(jobs, config, payload, state), Deliver(jobs[1..], config, payload, run.state);
        PlainDelivery(jobs[1..], config, payload, run.state);
        forall k | 0 <= k < |events|
          ensures SeesPlain(payload, events[k]) && SeesLeft(Before(events, k), state.values, events[k])
        {
          if k > 0 {
            assert events[k] == rest[k - 1] && SeesPlain(payload, rest[k - 1]);
            assert SeesLeft(Before(rest, k - 1), run.state.values, rest[k - 1]);
          }
        }
      }
    }
  }

  /** The settings a failure is sent with: the job's own where it has them, else the service's and the message's. */
  lemma {:induction false} SentWith<V>(jobs: seq<Job<V>>, config: Config, payload: Payload<V>, state: SharedState<V>,
                                       k: nat)
    requires var events := Deliver(jobs, config, payload, state);
             k < |events| && events[k].Ran? && events[k].ending.Sent?
    ensures k < |jobs|
    ensures var settings, own := Deliver(jobs, config, payload, state)[k].ending.settings, jobs[k].options;
            && settings.queueOptions.queue == payload.fields.queue
            && (own.queueOptions.Some? ==>
                  && settings.queueOptions.exchange == Some(own.queueOptions.value.0)
                  && settings.queueOptions.routingKey == own.queueOptions.value.1)
            && (own.queueOptions.None? ==>
                  && settings.queueOptions.exchange == Some(payload.fields.exchange)
                  && settings.queueOptions.routingKey == Some(payload.fields.routingKey))
            && settings.maxTries == (if own.maxTries.Some? then own.maxTries.value else config.maxTries)
            && settings.delays == (if own.delays.Some? then own.delays.value else config.delays)
    decreases k
  {
    if k > 0 {
      SentWith(jobs[1..], config, payload, RunJob(jobs[0], config, payload, state).state, k - 1);
    }
  }

  /** Without options of its own a job's failure goes back where the message came from. */
  lemma RetryGoesBack<V>(jobs: seq<Job<V>>, config: Config, payload: Payload<V>, state: SharedState<V>, k: nat)
    requires var events := Deliver(jobs, config, payload, state);
             k < |events| && events[k].Ran? && events[k].ending.Sent?
    requires k < |jobs| && jobs[k].options.queueOptions.None?
    ensures var ending := Deliver(jobs, config, payload, state)[k].ending;
            var action := Act(ending.settings, ending.failure);
            && (action.PublishInQueue? ==> payload.fields.exchange == "" && action.queue == payload.fields.queue)
            && (action.PublishInExchange? ==>
                  && action.exchange == payload.fields.exchange && action.exchange != ""
                  && action.routingKey == payload.fields.routingKey)
            && (action.Save? ==> action.parkedQueue == payload.fields.queue)
  {
    var ending := Deliver(jobs, config, payload, state)[k].ending;
    SentWith(jobs, config, payload, state, k);
    ActionMeans(ending.settings, ending.failure);
  }

  function SentOnce<V>(event: Event<V>): nat {
    if event.Ran? && event.ending.Sent? then 1 else 0
  }

  function CountSent<V>(events: seq<Event<V>>): nat {
    if events == [] then 0 else SentOnce(events[0]) + CountSent(events[1..])
  }

  function Counting(tries: Option<Tries>, n: nat): Option<Tries> {
    if tries.None? then None else Some(tries.value.(current := tries.value.current + n))
  }

  /** The tries in force at a job: those in the state, or those of the message. */
  function TriesAt<V>(payload: Payload<V>, state: SharedState<V>): Option<Tries> {
    if state.reprocessing.Some? then state.reprocessing.value.tries else TriesOf(payload.body)
  }

  /** Every failure of one delivery counts one more try, also when several are sent. */
  lemma {:induction false} TriesCountSent<V>(jobs: seq<Job<V>>, config: Config, payload: Payload<V>,
                                             state: SharedState<V>, k: nat)
    requires var events := Deliver(jobs, config, payload, state);
             k < |events| && events[k].Ran? && events[k].ending.Sent?
    ensures var events := Deliver(jobs, config, payload, state);
            && events[k].ending.failure.tries == Counting(TriesAt(payload, state), CountSent(events[..k]))
            && events[k].ending.failure.counted == TriesAt(payload, state).Some?
    decreases k
  {
    var events := Deliver(jobs, config, payload, state);
    var run := RunJob(jobs[0], config, payload, state);
    JobCounts(jobs[0], config, payload, state);
    if k > 0 {
      TriesCountSent(jobs[1..], config, payload, run.state, k - 1);
      assert events[..k][1..] == events[1..][..k - 1];
      assert CountSent(events[..k]) == SentOnce(run.event) + CountSent(events[1..][..k - 1]);
    } else {
      assert events[..0] == [];
    }
  }

  /** One job's failure is sent with the tries in force and adds one to them. */
  lemma JobCounts<V>(job: Job<V>, config: Config, payload: Payload<V>, state: SharedState<V>)
    ensures var run, tries := RunJob(job, config, payload, state), TriesAt(payload, state);
            && TriesAt(payload, run.state) == Counting(tries, SentOnce(run.event))
            && (run.event.Ran? && run.event.ending.Sent? ==>
                  run.event.ending.failure.tries == tries && run.event.ending.failure.counted == tries.Some?)
  {
  }

  // ---------------------------------------------------------------- all deliveries of one message

  datatype Delivery<!V> = Delivery(jobs: seq<Job<V>>, config: Config, payload: Payload<V>)

  function EventsOf<V>(d: Delivery<V>): seq<Event<V>> {
    Deliver(d.jobs, d.config, d.payload, EmptyState())
  }

  predicate Failed<V>(events: seq<Event<V>>) {
    events != [] && events[|events| - 1].Ran? && events[|events| - 1].ending.Sent?
  }

  /** The job a failed delivery failed at. */
  function FailedAt<V>(d: Delivery<V>): nat
    requires Failed(EventsOf(d))
  {
    |EventsOf(d)| - 1
  }

  function Failure<V>(d: Delivery<V>): Event<V>
    requires Failed(EventsOf(d))
  {
    EventsOf(d)[|EventsOf(d)| - 1]
  }

  function Sending<V>(d: Delivery<V>): Action<V>
    requires Failed(EventsOf(d))
  {
    Act(Failure(d).ending.settings, Failure(d).ending.failure)
  }

  /** The second delivery is of a message that a failure in the first one published. */
  ghost predicate Redelivers<V>(first: Delivery<V>, second: Delivery<V>) {
    exists k: nat :: Publishes(first, k) && second.payload.body == Wrapped(Published(first, k).message)
  }

  predicate Publishes<V>(d: Delivery<V>, k: nat) {
    && k < |EventsOf(d)| && EventsOf(d)[k].Ran? && EventsOf(d)[k].ending.Sent?
    && !Act(EventsOf(d)[k].ending.settings, EventsOf(d)[k].ending.failure).Save?
  }

  function Published<V>(d: Delivery<V>, k: nat): Action<V>
    requires Publishes(d, k)
  {
    Act(EventsOf(d)[k].ending.settings, EventsOf(d)[k].ending.failure)
  }

  /** Some job runs, its handler throws on what it sees, and its failures are sent. */
  ghost predicate Throws<V>(d: Delivery<V>) {
    exists k: nat :: ThrowsAt(d, k)
  }

  predicate ThrowsAt<V>(d: Delivery<V>, k: nat) {
    && k < |EventsOf(d)| && k < |d.jobs| && EventsOf(d)[k].Ran?
    && d.jobs[k].handle(EventsOf(d)[k].seen, EventsOf(d)[k].seenState).error.Some?
    && d.config.enabled && !d.jobs[k].options.normalizeOnly
  }

  /** A delivery fails exactly when a handler throws and failures are sent, and the message names that job. */
  lemma FailedExactly<V(!new)>(d: Delivery<V>)
    requires AllThrowBeforeNext(d.jobs)
    ensures Failed(EventsOf(d)) <==> Throws(d)
    ensures Failed(EventsOf(d)) ==>
              && FailedAt(d) < |d.jobs| && ThrowsAt(d, FailedAt(d))
              && Sending(d).message.middleware == d.jobs[FailedAt(d)].name
  {
    HandlersDecide(d.jobs, d.config, d.payload, EmptyState());
    SentIsLast(d.jobs, d.config, d.payload, EmptyState());
    if Failed(EventsOf(d)) {
      assert EndsAs(d.jobs[FailedAt(d)], d.config, d.payload.fields, Failure(d));
      assert ThrowsAt(d, FailedAt(d));
      ActionMeans(Failure(d).ending.settings, Failure(d).ending.failure);
    }
    if Throws(d) {
      var k: nat :| ThrowsAt(d, k);
      assert EndsAs(d.jobs[k], d.config, d.payload.fields, EventsOf(d)[k]);
    }
  }

  /** With sending disabled no delivery sends anything. */
  lemma NothingSentWhenDisabled<V>(d: Delivery<V>, k: nat)
    requires k < |EventsOf(d)| && EventsOf(d)[k].Ran?
    requires !d.config.enabled || forall i | 0 <= i < |d.jobs| :: d.jobs[i].options.normalizeOnly
    ensures !EventsOf(d)[k].ending.Sent?
  {
    HandlersDecide(d.jobs, d.config, d.payload, EmptyState());
  }

  /** What is redelivered is the message of the failure the delivery ended with. */
  lemma RedeliversFailure<V(!new)>(first: Delivery<V>, second: Delivery<V>)
    requires AllThrowBeforeNext(first.jobs) && Redelivers(first, second)
    ensures Failed(EventsOf(first)) && !Sending(first).Save? && second.payload.body == Wrapped(Sending(first).message)
  {
    SentIsLast(first.jobs, first.config, first.payload, EmptyState());
  }

  /** The jobs may behave differently at each delivery, but they are the same jobs in the same order. */
  ghost predicate Retries<V(!new)>(d: Delivery<V>, names: seq<string>) {
    && d.config.stoppedMiddleware && AllThrowBeforeNext(d.jobs)
    && |d.jobs| == |names| && forall i | 0 <= i < |names| :: d.jobs[i].name == names[i]
  }

  predicate Distinct(names: seq<string>) {
    && (forall i | 0 <= i < |names| :: names[i] != "")
    && forall i, j | 0 <= i < j < |names| :: names[i] != names[j]
  }

  /** All deliveries of a message, from the plain one on. */
  ghost predicate History<V(!new)>(deliveries: seq<Delivery<V>>, names: seq<string>) {
    && Distinct(names)
    && (forall d | 0 <= d < |deliveries| :: Retries(deliveries[d], names))
    && (|deliveries| > 0 ==> deliveries[0].payload.body.Plain?)
    && forall d | 0 < d < |deliveries| :: Redelivers(deliveries[d - 1], deliveries[d])
  }

  /** The delivery of an envelope that names the f-th job. */
  lemma ResumesAtNamed<V(!new)>(d: Delivery<V>, names: seq<string>, f: nat)
    requires Distinct(names) && Retries(d, names) && f < |names|
    requires d.payload.body.Wrapped? && d.payload.body.envelope.middleware == names[f]
    ensures var events, envelope := EventsOf(d), d.payload.body.envelope;
            && f < |events| && SeesFailure(events[f], envelope) && events[f].seen == NormalizedPayload(d.payload)
            && forall k | 0 <= k < |events| :: events[k].Skipped? <==> k < f
  {
    ResumesAtFailedExactly(d.jobs, f);
    RetryShape(d.jobs, d.config, d.payload, EmptyState());
  }

  /**
   A retry skips exactly the jobs before the one that failed, and that job sees the headers, the body and the
   state it failed with, its progress and the counted tries.
   */
  lemma ResumesAtFailure<V(!new)>(first: Delivery<V>, second: Delivery<V>, names: seq<string>)
    requires Distinct(names) && Retries(first, names) && Retries(second, names) && Redelivers(first, second)
    ensures Failed(EventsOf(first))
    ensures var f := FailedAt(first);
            && f < |EventsOf(second)| && EventsOf(second)[f].Ran?
            && (forall k | 0 <= k < |EventsOf(second)| :: EventsOf(second)[k].Skipped? <==> k < f)
            && EventsOf(second)[f].seen.headers == Failure(first).left.headers
            && EventsOf(second)[f].seen.body == Failure(first).left.body
            && EventsOf(second)[f].seenState.values == Failure(first).leftValues
            && EventsOf(second)[f].seenState.reprocessing ==
                 Some(Rep(None, Some(Failure(first).ending.failure.progress), Some(Sending(first).message.tries)))
  {
    RedeliversFailure(first, second);
    var f := FailedAt(first);
    SentIsLast(first.jobs, first.config, first.payload, EmptyState());
    ActionMeans(Failure(first).ending.settings, Failure(first).ending.failure);
    ResumesAtNamed(second, names, f);
  }

  /** The deliveries of one message fail at later and later jobs. */
  lemma {:induction false} FailuresAdvance<V(!new)>(deliveries: seq<Delivery<V>>, names: seq<string>, d: nat, e: nat)
    requires History(deliveries, names) && d < e < |deliveries|
    ensures Failed(EventsOf(deliveries[d]))
    ensures forall k | 0 <= k < |EventsOf(deliveries[e])| && EventsOf(deliveries[e])[k].Ran? ::
              k >= FailedAt(deliveries[d])
    decreases e
  {
    assert Redelivers(deliveries[e - 1], deliveries[e]);
    ResumesAtFailure(deliveries[e - 1], deliveries[e], names);
    if d < e - 1 {
      FailuresAdvance(deliveries, names, d, e - 1);
    }
  }

  predicate CompletedAt<V>(d: Delivery<V>, k: nat) {
    k < |EventsOf(d)| && EventsOf(d)[k].Ran? && EventsOf(d)[k].ending.Completed?
  }

  /** Over all deliveries of a message the jobs complete in the order of the chain, each at most once. */
  lemma CompletedInOrderOnce<V(!new)>(deliveries: seq<Delivery<V>>, names: seq<string>, d: nat, e: nat, k: nat, l: nat)
    requires History(deliveries, names) && d < e < |deliveries|
    requires CompletedAt(deliveries[d], k) && CompletedAt(deliveries[e], l)
    ensures k < l
  {
    FailuresAdvance(deliveries, names, d, e);
    assert k < FailedAt(deliveries[d]);
  }

  /**
   A message at whose every delivery some handler throws, of whatever job, while failures are sent, is published as
   often as the settings at its first failure say and then saved; there is no further delivery.
   */
  lemma FailingHistory<V(!new)>(deliveries: seq<Delivery<V>>, names: seq<string>)
    requires History(deliveries, names) && |deliveries| > 0
    requires forall d | 0 <= d < |deliveries| :: Throws(deliveries[d])
    ensures forall d | 0 <= d < |deliveries| :: Failed(EventsOf(deliveries[d]))
    ensures var settings := Failure(deliveries[0]).ending.settings;
            && |deliveries| <= Limit(settings.maxTries) + 1
            && (forall d | 0 <= d < |deliveries| :: Sending(deliveries[d]).Save? <==> d == Limit(settings.maxTries))
            && (settings.delays != [] ==>
                  forall d | 0 <= d < |deliveries| && Sending(deliveries[d]).PublishInExchange? ::
                    Sending(deliveries[d]).delay == Some(DelayAt(settings.delays, d)))
  {
    forall d | 0 <= d < |deliveries| ensures Failed(EventsOf(deliveries[d])) {
      FailedExactly(deliveries[d]);
    }
    var settings := seq(|deliveries|, d requires 0 <= d < |deliveries| => Failure(deliveries[d]).ending.settings);
    var failures := seq(|deliveries|, d requires 0 <= d < |deliveries| => Failure(deliveries[d]).ending.failure);
    HistoryFailure(deliveries, names, 0);
    forall d | 0 < d < |deliveries| ensures Redelivered(Act(settings[d - 1], failures[d - 1]), failures[d]) {
      HistoryFailure(deliveries, names, d);
    }
    ExactRetries(settings, failures);
    forall d | 0 <= d < |deliveries| ensures Sending(deliveries[d]) == Act(settings[d], failures[d]) {
    }
  }

  /** A failure in a history carries the tries of the one before. */
  lemma HistoryFailure<V(!new)>(deliveries: seq<Delivery<V>>, names: seq<string>, d: nat)
    requires History(deliveries, names) && d < |deliveries| && Failed(EventsOf(deliveries[d]))
    ensures var failure := Failure(deliveries[d]).ending.failure;
            if d == 0 then failure.tries == None && !failure.counted
            else Failed(EventsOf(deliveries[d - 1])) && Redelivered(Sending(deliveries[d - 1]), failure)
  {
    SentIsLast(deliveries[d].jobs, deliveries[d].config, deliveries[d].payload, EmptyState());
    if d > 0 {
      assert Redelivers(deliveries[d - 1], deliveries[d]);
      RedeliversFailure(deliveries[d - 1], deliveries[d]);
    }
  }

  /**
   In a retry every job after the one that failed sees the envelope's headers, body and state values again: what
   earlier jobs of that delivery left under those state keys is lost.
   */
  lemma LaterJobsSeeTheEnvelope<V(!new)>(d: Delivery<V>, names: seq<string>, k: nat)
    requires Retries(d, names) && d.payload.body.Wrapped? && 0 < k < |EventsOf(d)| && EventsOf(d)[k - 1].Ran?
    ensures EventsOf(d)[k].Ran?
    ensures EventsOf(d)[k].seen.headers == d.payload.body.envelope.payload.headers
    ensures EventsOf(d)[k].seen.body == d.payload.body.envelope.payload.body
    ensures EventsOf(d)[k].seenState.values == EventsOf(d)[k - 1].leftValues + d.payload.body.envelope.state
  {
    RetryShape(d.jobs, d.config, d.payload, EmptyState());
    assert SeesAgain(EventsOf(d)[k - 1], EventsOf(d)[k], d.payload.body.envelope.state);
  }

  // ---------------------------------------------------------------- the code

  class StateObject<V(==)> {
    var values: map<string, V>
    var reprocessing: Option<Rep>

    constructor ()
      ensures Value() == EmptyState()
    {
      values, reprocessing := map[], None;
    }

    function Value(): SharedState<V>
      reads this
    {
      SharedState(values, reprocessing)
    }
  }

  /** The copy of the payload one job works on. */
  class PayloadObject<V(==)> {
    const fields: Fields
    var headers: map<string, V>
    var body: Body<V>

    constructor (payload: Payload<V>)
      ensures Value() == payload
    {
      fields, headers, body := payload.fields, payload.headers, payload.body;
    }

    function Value(): Payload<V>
      reads this
    {
      Payload(fields, headers, body)
    }
  }

  /** `overrideState`: assigns every key of the data, in any order. */
  method OverrideState<V>(state: StateObject<V>, data: map<string, V>)
    modifies state`values
    ensures state.values == old(state.values) + data
  {
    var keys := data.Keys;
    while keys != {}
      invariant keys <= data.Keys
      invariant state.values.Keys == old(state.values.Keys) + (data.Keys - keys)
      invariant forall k | k in state.values ::
                  state.values[k] == if k in data && k !in keys then data[k] else old(state.values)[k]
      decreases |keys|
    {
      var key :| key in keys;
      state.values := state.values[key := data[key]];
      keys := keys - {key};
    }
  }

  /** `normalizeReprocessingPayload`. */
  method NormalizeReprocessingPayload<V>(payload: PayloadObject<V>, state: StateObject<V>)
    modifies payload, state
    ensures payload.Value() == NormalizedPayload(old(payload.Value()))
    ensures state.Value() == NormalizedState(old(payload.Value()), old(state.Value()))
  {
    if payload.body.Plain? {
      return;
    }
    var envelope := payload.body.envelope;
    if state.reprocessing.None? {
      state.reprocessing := Some(RepOf(envelope));
    }
    OverrideState(state, envelope.state);
    payload.headers := envelope.payload.headers;
    payload.body := envelope.payload.body;
  }

  /** Sends a failure, counting it on the tries object of the state's reprocessing data. */
  method Send<V>(sender: MqSendReprocessing, middleware: string, progress: Progress, payload: Payload<V>,
                 values: map<string, V>, rep: Rep)
    returns (sent: Action<V>, counted: Rep)
    modifies sender.delays
    ensures sent == Act(old(sender.Current()),
                        Params(middleware, progress, payload, values, rep.tries, rep.tries.Some?))
    ensures counted == if rep.tries.Some? then rep.(tries := Some(sent.message.tries)) else rep
  {
    counted := rep;
    if rep.tries.None? {
      sent := sender.Reprocess(middleware, progress, payload, values, null, false);
    } else {
      var tries := new TriesObject(rep.tries.value);
      sent := sender.Reprocess(middleware, progress, payload, values, tries, true);
      counted := rep.(tries := Some(tries.Value()));
    }
  }

  /** The decorated handler on its payload copy and the shared state; `action` is what it sent, if anything. */
  method Handle<V>(job: Job<V>, config: Config, payload: PayloadObject<V>, state: StateObject<V>, delays: DelayList)
    returns (event: Event<V>, calledNext: bool, action: Option<Action<V>>)
    requires delays.items == SettingsOf(job.options, config, payload.fields).delays
    modifies payload, state, delays
    ensures JobRun(event, state.Value(), calledNext) == RunJob(job, config, old(payload.Value()), old(state.Value()))
    ensures action == if event.Ran? && event.ending.Sent? then Some(Act(event.ending.settings, event.ending.failure))
                      else None
  {
    ghost var before := payload.Value();
    var settings := SettingsOf(job.options, config, payload.fields);
    var sender := new MqSendReprocessing(settings.queueOptions, settings.maxTries, delays);
    action := None;
    NormalizeReprocessingPayload(payload, state);
    if SkipMiddleware(state.reprocessing, job.name) && config.stoppedMiddleware {
      event, calledNext := Skipped, true;
      return;
    }
    var rep := Unmarked(state.reprocessing);
    state.reprocessing := Some(rep);
    var seen, seenState := payload.Value(), state.Value();
    var effect := job.handle(seen, seenState);
    payload.headers, payload.body, state.values := effect.headers, effect.body, effect.values;
    calledNext := effect.calledNext;
    var ending := Completed;
    if effect.error.Some? {
      if !config.enabled || job.options.normalizeOnly {
        ending := Swallowed;
      } else {
        ending := Sent(settings, Params(job.name, effect.error.value, payload.Value(), state.values,
                                        rep.tries, rep.tries.Some?));
        var sent, counted := Send(sender, job.name, effect.error.value, payload.Value(), state.values, rep);
        action, state.reprocessing := Some(sent), Some(counted);
      }
    }
    event := Ran(seen, seenState, payload.Value(), effect.values, ending);
  }
}
