/** The buffer class itself; every method is proved to take exactly one step of the transition system. */
module BulkInsert {
  import opened Options
  import opened BulkInsertSpec
  import opened BulkInsertProofs

  class BulkInsertBuffer<T> {
    var queue: seq<T>
    var timer: Timer
    var flushing: Option<nat>
    var dropped: nat
    const maxSize: real
    const flushIntervalMs: real
    const maxQueueSize: real

    // The promises: how many inserts were started, which of them have not settled, who waits for them.
    var inserts: nat
    ghost const onErrorThrows: bool
    ghost var inFlight: set<nat>
    ghost var broken: set<nat>
    ghost var calls: map<nat, Call>
    ghost var nextCall: nat

    // History.
    ghost var accepted: seq<T>
    ghost var fates: seq<bool>
    ghost var batches: seq<seq<T>>
    ghost var resolved: seq<Resolution>

    ghost predicate Consistent()
      reads this
    {
      inserts == |batches| && maxSize > 0.0 && maxQueueSize > 0.0 && flushIntervalMs > 0.0
    }

    ghost function Sizes(): Config
      reads this
      requires Consistent()
    {
      Config(maxSize, maxQueueSize, onErrorThrows)
    }

    ghost function View(): State<T>
      reads this
    {
      State(queue, timer, flushing, dropped, inFlight, broken, calls, nextCall, accepted, fates, batches, resolved)
    }

    ghost predicate Valid()
      reads this
    {
      Consistent() && Inv(Sizes(), View())
    }

    constructor (size: Number, interval: Number, queueSize: Option<Number>, ghost throwing: bool)
      ensures Valid() && View() == Init()
      ensures maxSize == PositiveOr(Some(size), 50.0)
      ensures flushIntervalMs == PositiveOr(Some(interval), 1000.0)
      ensures maxQueueSize == PositiveOr(queueSize, 10000.0)
      ensures onErrorThrows == throwing
    {
      queue, timer, flushing, dropped := [], Null, None, 0;
      maxSize := PositiveOr(Some(size), 50.0);
      flushIntervalMs := PositiveOr(Some(interval), 1000.0);
      maxQueueSize := PositiveOr(queueSize, 10000.0);
      inserts, onErrorThrows := 0, throwing;
      inFlight, broken, calls, nextCall := {}, {}, map[], 0;
      accepted, fates, batches, resolved := [], [], [], [];
    }

    method Enqueue(document: T, start: Start)
      requires Valid()
      modifies this
      ensures Valid() && View() == Next(Sizes(), old(View()), Step.Enqueue(document, start))
    {
      ghost var before := View();
      Push(document);
      FlushOrSetTimer(start);
      StepKeepsInv(Sizes(), before, Step.Enqueue(document, start));
    }

    /** The end of `enqueue` and of the `finally` body: a full batch is flushed, anything else waits for the timer. */
    method FlushOrSetTimer(start: Start)
      requires Consistent()
      modifies this
      ensures Consistent() && View() == FlushOrSchedule(Sizes(), old(View()), start)
    {
      if AtLeast(|queue|, maxSize) {
        FlushInBackground(start);
        return;
      }
      SetFlushTimer();
    }

    method Push(document: T)
      requires Consistent()
      modifies this`queue, this`dropped, this`fates, this`accepted
      ensures View() == Accept(Sizes(), old(View()), document)
    {
      if AtLeast(|queue|, maxQueueSize) {
        queue := queue[1..];
        dropped := dropped + 1;
        fates := fates + [false];
      }
      queue := queue + [document];
      accepted := accepted + [document];
    }

    method GetDroppedCount() returns (count: nat)
      requires Valid()
      ensures count == dropped
      ensures |accepted| == |Flatten(batches)| + |queue| + count
    {
      count := dropped;
      KeptLength(accepted[..|fates|], fates);
    }

    /** A call of `flush()` up to its first suspension. */
    method Flush(start: Start)
      requires Valid()
      modifies this
      ensures Valid() && View() == Next(Sizes(), old(View()), Step.Flush(start))
    {
      ghost var before := View();
      FlushInBackground(start);
      StepKeepsInv(Sizes(), before, Step.Flush(start));
    }

    method RunFlush(ghost call: nat, ghost mark: nat, start: Start)
      requires Consistent()
      modifies this
      ensures Consistent() && View() == FlushCall(old(View()), call, mark, start)
    {
      if flushing.Some? {
        calls := calls[call := Call(Waiting(flushing.value), mark)];
        return;
      }
      ClearTimer();
      var documents := queue;
      queue := [];
      if documents == [] {
        resolved := resolved + [Resolution(call, mark, |fates|)];
        return;
      }
      var promise := InsertMany(documents, start);
      if promise.Some? {
        flushing := promise;
        calls := calls[call := Call(Owning(promise.value), mark)];
      }
    }

    /** The foreign call: it takes the documents and returns a promise, or throws. */
    method InsertMany(documents: seq<T>, start: Start) returns (promise: Option<nat>)
      requires Consistent()
      modifies this`inserts, this`batches, this`fates, this`inFlight
      ensures Consistent()
      ensures batches == old(batches) + [documents] && fates == old(fates) + Verdicts(true, |documents|)
      ensures promise == (if start.Throws? then None else Some(|old(batches)|))
      ensures inFlight == old(inFlight) + if start.Throws? then {} else {|old(batches)|}
    {
      batches := batches + [documents];
      fates := fates + Verdicts(true, |documents|);
      inserts := inserts + 1;
      if start.Throws? {
        return None;
      }
      inFlight := inFlight + {inserts - 1};
      promise := Some(inserts - 1);
    }

    method FlushInBackground(start: Start)
      requires Consistent()
      modifies this
      ensures Consistent() && View() == NewFlush(old(View()), start)
    {
      nextCall := nextCall + 1;
      RunFlush(nextCall - 1, |accepted|, start);
    }

    method SetFlushTimer()
      requires Consistent()
      modifies this`timer
      ensures View() == ScheduleFlush(old(View()))
    {
      if timer != Null || queue == [] {
        return;
      }
      timer := Armed;
    }

    method ClearTimer()
      modifies this`timer
      ensures timer == Null
    {
      if timer == Null {
        return;
      }
      timer := Null;
    }

    /** The timeout callback; the field keeps the handle of the timeout that just fired. */
    method OnTimeout(start: Start)
      requires Valid() && timer == Armed
      modifies this
      ensures Valid() && View() == Next(Sizes(), old(View()), TimerFires(start))
    {
      ghost var before := View();
      timer := Fired;
      FlushInBackground(start);
      StepKeepsInv(Sizes(), before, TimerFires(start));
    }

    /** The `finally` body of one insert, after the error handler of a failed insert. */
    method OnInsertSettled(ghost flight: nat, ghost outcome: Outcome, start: Start)
      requires Valid() && Enabled(Sizes(), View(), InsertSettles(flight, outcome, start))
      modifies this
      ensures Valid() && View() == Next(Sizes(), old(View()), InsertSettles(flight, outcome, start))
    {
      ghost var before := View();
      inFlight := inFlight - {flight};
      broken := if outcome == Rejected then broken + {flight} else broken;
      flushing := None;
      FlushOrSetTimer(start);
      StepKeepsInv(Sizes(), before, InsertSettles(flight, outcome, start));
    }

    /** A call suspended behind another call's insert goes on. */
    method AfterWait(ghost call: nat, start: Start)
      requires Valid() && Ready(View(), call)
      requires calls[call].at.Waiting? && calls[call].at.flight !in broken
      modifies this
      ensures Valid() && View() == Next(Sizes(), old(View()), Resume(call, start))
    {
      ghost var before := View();
      LookAgain(call, start);
      StepKeepsInv(Sizes(), before, Resume(call, start));
    }

    method LookAgain(ghost call: nat, start: Start)
      requires Consistent() && call in calls
      requires calls[call].at.Waiting? && calls[call].at.flight !in broken
      modifies this
      ensures Consistent() && View() == ResumeCall(old(View()), call, start)
    {
      ghost var mark := calls[call].mark;
      calls := calls - {call};
      if queue != [] {
        RunFlush(call, mark, start);
      } else {
        resolved := resolved + [Resolution(call, mark, |fates|)];
      }
    }

    /** The call that started an insert ends with it. */
    method AfterOwnInsert(ghost call: nat, ghost start: Start)
      requires Valid() && Ready(View(), call)
      requires calls[call].at.Owning? && calls[call].at.flight !in broken
      modifies this
      ensures Valid() && View() == Next(Sizes(), old(View()), Resume(call, start))
    {
      ghost var before := View();
      EndCall(call);
      StepKeepsInv(Sizes(), before, Resume(call, start));
    }

    ghost method EndCall(call: nat)
      requires call in calls
      modifies this`resolved, this`calls
      ensures View() == ResolveCall(old(View()).(calls := old(calls) - {call}), call, old(calls[call].mark))
    {
      resolved := resolved + [Resolution(call, calls[call].mark, |fates|)];
      calls := calls - {call};
    }

    /** A call behind an insert whose error handler threw rejects without looking at the queue. */
    method AfterBrokenInsert(ghost call: nat, ghost start: Start)
      requires Valid() && Ready(View(), call) && calls[call].at.flight in broken
      modifies this
      ensures Valid() && View() == Next(Sizes(), old(View()), Resume(call, start))
    {
      ghost var before := View();
      calls := calls - {call};
      StepKeepsInv(Sizes(), before, Resume(call, start));
    }
  }
}
