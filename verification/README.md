# Verification model

This project models the stateful and recursive core of the repository in Dafny and proves what that core promises.
`dafny verify dfyconfig.toml` checks everything.

| files | what they model |
|---|---|
| `BulkInsertSpec`, `BulkInsertProofs`, `BulkInsertTheorems`, `BulkInsertFlush`, `BulkInsertCalls`, `BulkInsertBuffer` | the bulk insert buffer: queue, one timer field, one insert at a time, any number of suspended `flush` calls |
| `SendReprocessing`, `Reprocessing` | retrying failed messages over many deliveries: the envelope, the decorator, the job chain, counting and parking |
| `Flow`, `MessageAdapter` | the event-driven middleware chain and the nested flow that reports whether it ran to its end |
| `FormattedSelect` | flattening a schema tree into delimited column names and rebuilding rows |
| `KeyCase` | key conversion of whole JSON trees between camel and snake case |
| `Pan`, `KeyWords`, `KeyClassifier`, `SourceKeys`, `OrdinaryKeys`, `MaskValue`, `Sanitizer`, `SanitizerSafety` | the log sanitizer: card numbers, key words, memoized classification, masks, copy-on-write |
| `SplitPromises` | the bounded promise runner with ordered results |
| `Common` | options and strings |

## How it is modelled

Code that runs in turns of the event loop (the buffer, the flow, the promise runner) is a transition system: a step is
one stretch of code between two suspension points, and the steps may come in every possible order. A class with the
source's fields is proved, method by method, to take exactly those steps; the promises are proved over all runs of the
steps. The fields that only record history are ghost, or logs no branch reads. Code that computes over trees is a
function or a loop proved against one.

Some promises hold only under a condition. Where that is so the condition is exact:

- No document of the buffer is stranded in any run if and only if `onError` cannot throw or `maxSize` is at most one
  (`StrandingExactly`). The timer callback leaves its fired handle in the field; a waiter makes up for it, but a waiter
  gives up when the insert it waits for rejects.
- A `flush()` call resolves, in every continuation, only after the inserts of all documents accepted before it have
  settled, if and only if it finds no insert running or nothing queued (`ResolvesAfterInsertsExactly`); a waiter returns
  as soon as it finds the queue empty, even if another call has just handed the documents over.
- The queue keeps within `maxQueueSize` if and only if that is a whole number (`QueueBoundExactly`); otherwise it reaches
  the next one.
- A nested select comes back as its own tree if and only if the schema is safe (`RoundTripExactly`); an object under an
  empty top-level key is lost because the empty path counts as none.
- A body reaches the consumer unchanged if and only if it is `WireSafe` (`WireIsIdentityExactly`): a date comes back as a
  string, and an array inside an array as an object.
- A retry resumes at the failed job if and only if that is the first job, or its class has a name that no earlier job
  shares (`ResumesAtFailedExactly`).
- `splitPromises` resolves if and only if the bound is at least one or there is nothing to run
  (`StopsResolvedExactly`); with a bound below one it waits for ever.
- In every run of its inner flow, the message adapter ends as the jobs in it if and only if there are jobs and the last
  one did not stop and call `next` afterwards (`AdapterEndsExactly`).
- The sanitizer returns its argument itself if and only if nothing is masked and no NaN occurs; a NaN makes it copy for
  nothing, against its comment that a payload with no sensitive field costs no allocation (`NanIsCopied`).

The delivery of a published message back to its queue is taken from the environment; its body then is the published one
under the condition of `WireIsIdentityExactly`.

## Model

| member | source | states |
|---|---|---|
| `BulkInsertProofs.StepKeepsInv` | src/infra/db/mongodb/util/bulk-insert-buffer.ts:49-122 | Every step from any state that satisfies the invariant keeps it: one insert at most, bounded queue and batches, conservation in order, suspended calls tied to real inserts, a timer for every idle nonempty queue, and a stale fired timer only while some `flush` call waits behind an insert |
| `BulkInsertProofs.ExecKeepsInv` | src/infra/db/mongodb/util/bulk-insert-buffer.ts:49-122 | The invariant holds after every script of steps, in any interleaving |
| `BulkInsertTheorems.Conservation` | src/infra/db/mongodb/util/bulk-insert-buffer.ts:49-86 | Batches in order, then the queue, are the accepted documents in acceptance order without the dropped ones; accepted = handed over + queued + dropped |
| `BulkInsertTheorems.OnlyOldestDropped` | src/infra/db/mongodb/util/bulk-insert-buffer.ts:52-55 | A step drops a document exactly when it is `enqueue` on a full queue, then one document, and it is the oldest one queued |
| `BulkInsertTheorems.BoundsHold` | src/infra/db/mongodb/util/bulk-insert-buffer.ts:49-96 | At most one insert in flight; queue and batches stay below `maxQueueSize + 1`; with no insert in flight the queue is below `maxSize` |
| `BulkInsertTheorems.QueueBoundExactly` | src/infra/db/mongodb/util/bulk-insert-buffer.ts:52-57 | The queue keeps within `maxQueueSize` in all runs exactly when that is a whole number |
| `BulkInsertTheorems.IdleDropsExactly` | src/infra/db/mongodb/util/bulk-insert-buffer.ts:52-62 | Documents are dropped only while an insert is in flight, in all runs, exactly when every length that reaches `maxQueueSize` reaches `maxSize` |
| `BulkInsertFlush.FlushMeans` | src/infra/db/mongodb/util/bulk-insert-buffer.ts:71-99 | When a `flush()` promise has resolved, every document accepted before the call was dropped or stands in the batches at its own place, behind exactly the earlier documents handed over, however many other inserts the call waited behind |
| `BulkInsertFlush.InBatchHolds` | src/infra/db/mongodb/util/bulk-insert-buffer.ts:80-86 | A document whose place lies within a batch is the document at that place of the batch |
| `BulkInsertFlush.ResolvesAfterInsertsExactly` | src/infra/db/mongodb/util/bulk-insert-buffer.ts:71-99 | From any reachable state, a `flush()` call resolves only after the inserts of all documents accepted before it have settled, in every continuation, exactly if it finds no insert running or nothing queued |
| `BulkInsertFlush.ResolvesTooEarly` | src/infra/db/mongodb/util/bulk-insert-buffer.ts:71-76 | Otherwise some continuation resolves the call while the insert of the very documents that were queued is in flight |
| `BulkInsertTheorems.InternalStepDescends` | src/infra/db/mongodb/util/bulk-insert-buffer.ts:71-122 | Each timer callback, insert settlement and resumed call strictly decreases (queue nonempty, inserts in flight, live timer, ready calls) |
| `BulkInsertTheorems.NotStranded` | src/infra/db/mongodb/util/bulk-insert-buffer.ts:71-109 | If `onError` does not throw, a nonempty queue always has a live timer, an insert in flight or a ready waiter |
| `BulkInsertTheorems.Drains` | src/infra/db/mongodb/util/bulk-insert-buffer.ts:71-115 | If `onError` does not throw, then once producers stop every run reaches an empty queue with no call left waiting |
| `BulkInsertCalls.CallsResolve` | src/infra/db/mongodb/util/bulk-insert-buffer.ts:71-115 | If moreover `insertMany` always returns a promise, every suspended `flush()` call has then resolved, each for the documents accepted before it |
| `BulkInsertCalls.CallIsLostExactly` | src/infra/db/mongodb/util/bulk-insert-buffer.ts:71-98 | At every step a suspended call stays suspended or resolves for its own documents, exactly unless the error handler of its insert threw or it hands the queue over itself and `insertMany` throws |
| `BulkInsertCalls.NewCallIsTracked` | src/infra/db/mongodb/util/bulk-insert-buffer.ts:71-98 | A new call answers for all documents accepted so far, exactly unless it hands the queue over and `insertMany` throws |
| `BulkInsertCalls.ResolvesAtOnceExactly` | src/infra/db/mongodb/util/bulk-insert-buffer.ts:72-81 | A call resolves at once exactly if no insert runs and nothing is queued |
| `BulkInsertCalls.ResolvesAtMostOnce` | src/infra/db/mongodb/util/bulk-insert-buffer.ts:71-99 | No `flush()` promise resolves twice or while its call is suspended |
| `BulkInsertTheorems.StrandingExactly` | src/infra/db/mongodb/util/bulk-insert-buffer.ts:83-109 | Over all runs nothing is ever stranded exactly if `onError` cannot throw or `maxSize` is at most one |
| `BulkInsert.BulkInsertBuffer.constructor` | src/infra/db/mongodb/util/bulk-insert-buffer.ts:31-47 | Sizes that are not finite and positive are replaced by 50, 1000 and 10000 |
| `BulkInsertSpec.PositiveOr` | src/infra/db/mongodb/util/bulk-insert-buffer.ts:35-46 | A finite positive option is kept and any other is replaced by the fallback |
| `BulkInsert.BulkInsertBuffer.Enqueue` | src/infra/db/mongodb/util/bulk-insert-buffer.ts:49-65 | `enqueue` takes exactly the Enqueue step and keeps the invariant |
| `BulkInsert.BulkInsertBuffer.GetDroppedCount` | src/infra/db/mongodb/util/bulk-insert-buffer.ts:67-69 | The count is the accepted documents neither handed over nor queued |
| `BulkInsert.BulkInsertBuffer.Flush` | src/infra/db/mongodb/util/bulk-insert-buffer.ts:71-99 | A call of `flush` up to its first suspension takes the Flush step |
| `BulkInsert.BulkInsertBuffer.OnTimeout` | src/infra/db/mongodb/util/bulk-insert-buffer.ts:104-106 | The timer callback takes the TimerFires step and leaves the stale handle in the field |
| `BulkInsert.BulkInsertBuffer.OnInsertSettled` | src/infra/db/mongodb/util/bulk-insert-buffer.ts:86-96 | The settling chain of an insert, through its `finally` body, takes the InsertSettles step |
| `BulkInsert.BulkInsertBuffer.AfterWait` | src/infra/db/mongodb/util/bulk-insert-buffer.ts:72-76 | A call resumed behind another call's insert takes the Resume step |
| `SendReprocessing.ExtendedDelays` | src/data/usecases/mq/mq-send-reprocessing.ts:31-38 | The loop leaves the configured delays in front, reaches `maxTries` entries and no more than needed, and entry i is the i-th delay of the list continued by doubling its last entry |
| `SendReprocessing.DelaysDouble` | src/data/usecases/mq/mq-send-reprocessing.ts:35-38 | Delay i past a list of n delays is the last one times two to the power of i + 1 - n |
| `SendReprocessing.ExactRetries` | src/data/usecases/mq/mq-send-reprocessing.ts:40-112 | A message failing on every delivery is published exactly max(1, whole part of `maxTries`) times and then saved, with no delivery after that; the k-th publication through an exchange carries the k-th delay, which is always in bounds; only the settings at the first failure matter |
| `SendReprocessing.ActionMeans` | src/data/usecases/mq/mq-send-reprocessing.ts:46-112 | A failure is parked exactly when its count passes the limit; published or parked, the message holds the payload, state, middleware and progress of the failure and its count, and goes where the queue options say, with the failed payload's headers, the delay of its count and an empty routing key by default |
| `SendReprocessing.MqSendReprocessing.ExtendDelays` | src/data/usecases/mq/mq-send-reprocessing.ts:34-38 | The loop terminates and extends the shared delay list in place as specified |
| `SendReprocessing.MqSendReprocessing.Reprocess` | src/data/usecases/mq/mq-send-reprocessing.ts:20-113 | One failure leads to exactly the specified publication or save, extends the delay list and counts on the tries object itself |
| `Reprocessing.OverrideState` | src/job/util/override-state.ts:3-8 | The loop over the keys, in any order, leaves the state overridden by the data |
| `Reprocessing.NormalizeReprocessingPayload` | src/job/util/reprocessing.ts:23-35 | Unwrapping an envelope sets the payload's headers and body, overrides the state and sets `state.reprocessing` only once |
| `Reprocessing.Handle` | src/job/util/reprocessing.ts:60-109 | The decorated handler takes the specified step of skipping, running, swallowing or sending |
| `Reprocessing.HandlersDecide` | src/job/util/reprocessing.ts:94-107 | What each handler did on what it saw decides: it completes exactly without an error, an error is sent exactly if sending is enabled and the job is not for normalizing only, and then with the job's name, the error's progress and what the handler left |
| `Reprocessing.NextJobExactly` | src/main/adapters/job-adapter.ts:49-69 | The next job gets its turn exactly when this one was skipped or its handler called `next` |
| `Reprocessing.PlainDelivery` | src/main/adapters/job-adapter.ts:49-69 | In a first delivery every job sees the message as delivered and the state the job before it left |
| `Reprocessing.SentWith` | src/job/util/reprocessing.ts:63-78 | A failure is sent with the job's own exchange, key, tries and delays where it has them, and otherwise with the message's and the service's |
| `Reprocessing.RetryGoesBack` | src/job/util/reprocessing.ts:66-78 | Without queue options of its own a job's failure goes back to the exchange and routing key, or the queue, the message came from |
| `Reprocessing.TriesCountSent` | src/data/usecases/mq/mq-send-reprocessing.ts:40-81 | Every failure sent in one delivery counts one more try, also when jobs throw after `next` and several are sent |
| `Reprocessing.FailedExactly` | src/job/util/reprocessing.ts:97-107 | A delivery fails exactly if a running job's handler throws, sending is enabled and the job is not for normalizing only, and the message names that job |
| `Reprocessing.NothingSentWhenDisabled` | src/job/util/reprocessing.ts:98 | With sending disabled, or all jobs for normalizing only, nothing is ever sent |
| `Reprocessing.ResumesAtFirst` | src/job/util/reprocessing.ts:12-21 | The jobs skipped are exactly those before the first one with the recorded name; an empty name skips none |
| `Reprocessing.ResumesAtFailedExactly` | src/job/util/reprocessing.ts:12-21 | A retry starts at the failed job exactly when that is the first job, or it has a name and no job before it shares it |
| `Reprocessing.RetryShape` | src/job/util/reprocessing.ts:80-94 | In a delivery of an envelope everything before the recorded job is skipped, that job sees the envelope, and nothing after it is skipped |
| `Reprocessing.OtherModesRestart` | src/job/util/reprocessing.ts:83-88 | In any mode but STOPPED_MIDDLEWARE no job is ever skipped |
| `Reprocessing.SentIsLast` | src/job/util/reprocessing.ts:94-107 | With handlers that throw only before `next`, a delivery sends at most one failure, at its last job, with what that job left and the tries the message came with |
| `Reprocessing.ResumesAtFailure` | src/job/util/reprocessing.ts:23-107 | The delivery after a failure skips exactly the jobs before the failed one, which sees the headers, body, state, progress and tries it failed with |
| `Reprocessing.CompletedInOrderOnce` | src/job/util/reprocessing.ts:60-109 | Over all deliveries of a message the jobs complete in chain order, each at most once |
| `Reprocessing.FailingHistory` | src/job/util/reprocessing.ts:60-109 | If at every delivery some job's handler throws while failures are sent, the message is published the number of times set at its first failure, with the delays in order, and then saved |
| `Reprocessing.LaterJobsSeeTheEnvelope` | src/main/adapters/job-adapter.ts:49-61 | Each later job of a retry gets the envelope's headers, body and state values again, over what earlier jobs left |
| `Reprocessing.DeliveryIsFlow` | src/main/adapters/job-adapter.ts:64-69 | The event-driven flow of a delivery starts exactly the jobs of the delivery and its promise resolves |
| `Flow.RunIsChain` | src/main/adapters/flow-adapter.ts:18-68 | In every run handlers start in order, one at a time, each only after the one before ended with `next` called, and the promise settles at most once with the verdict of the recursive chain semantics |
| `Flow.StopsWithVerdict` | src/main/adapters/flow-adapter.ts:43-68 | A handler is active exactly as long as the promise is unsettled, and at most one settlement per handler leads to the verdict |
| `Flow.CountSettlements` | src/main/adapters/flow-adapter.ts:18-41 | The handlers settle in the order of the chain, each once |
| `Flow.ThrowRejects` | src/main/adapters/flow-adapter.ts:37-39 | In every run a handler that throws rejects the promise with its error, whether or not it had called `next` |
| `Flow.ReturnStops` | src/main/adapters/flow-adapter.ts:30-34 | A handler that returns without having called `next` resolves the promise, and no further handler ever starts |
| `Flow.ReturnContinues` | src/main/adapters/flow-adapter.ts:30-52 | A handler that returns after calling `next` starts the one after it, or resolves the promise if it is the last |
| `Flow.LateNextIsIgnored` | src/main/adapters/flow-adapter.ts:22-34 | A second call of `next`, or one after the handler settled, changes neither what starts nor the verdict |
| `Flow.ProceedsExactly` | src/main/adapters/flow-manager/adapters/message-adapter.ts:17-38 | Whenever handlers call `next`, after the inner flow resolved the message adapter goes on exactly when there are handlers, all ran, and the last one went on or called `next` after it stopped |
| `Flow.PunctualProceedsExactly` | src/main/adapters/flow-manager/adapters/message-adapter.ts:17-38 | If no handler calls `next` late, it goes on exactly when there are handlers and all of them went on |
| `Flow.SomeRun` | src/main/adapters/flow-adapter.ts:18-68 | Whatever way a chain of handlers may end, with or without a late call by its last one, some run of the flow ends it that way |
| `Flow.LateNextProceeds` | src/main/adapters/flow-manager/adapters/message-adapter.ts:20-26 | A late call by the last job makes the adapter go on although its own flow stopped there |
| `Flow.Call.OnNext` | src/main/adapters/flow-adapter.ts:43-52 | The NEXT listener pops and starts the next handler, or resolves |
| `Flow.Call.OnReturn` | src/main/adapters/flow-adapter.ts:27-36 | A returning handler emits NEXT if `next` was called and RESOLVE otherwise |
| `Flow.Call.OnThrow` | src/main/adapters/flow-adapter.ts:37-39 | A throwing handler rejects the promise, even if it had called `next` |
| `MessageAdapter.ChainIsFlow` | src/main/adapters/flow-adapter.ts:18-68 | The ends of a chain run over data give the verdict the event-driven flow settles with |
| `MessageAdapter.PlainTrace` | src/main/adapters/job-adapter.ts:49-69 | In a chain of plain jobs each gets the payload as it came and the state the job before left, and only after that one went on |
| `MessageAdapter.PlainEnd` | src/main/adapters/flow-adapter.ts:18-68 | Such a chain stops at the first job that does not go on, with that job's state and end |
| `MessageAdapter.FlowRunsChain` | src/main/adapters/flow-adapter.ts:18-68 | A completed run of the event-driven flow whose handlers end as the chain's do settles with the chain's verdict |
| `MessageAdapter.Flattening` | src/main/adapters/flow-manager/adapters/message-adapter.ts:9-40 | For jobs that leave the payload alone and call `next` before settling, packing parts of a chain into nonempty adapters, nested to any depth, changes neither the job runs, nor the data they see, nor the outcome |
| `MessageAdapter.FlowsAgree` | src/main/adapters/flow-manager/adapters/message-adapter.ts:9-40 | The event-driven flows of the packed and of the plain chain settle with the same verdict |
| `MessageAdapter.SharedShape` | src/main/adapters/flow-adapter.ts:18-68 | The ends of the jobs inside an adapter give the verdict of their own flow, and the last end is how that chain ended |
| `MessageAdapter.AdapterIsFlow` | src/main/adapters/flow-manager/adapters/message-adapter.ts:36-38 | An adapter run over data ends as the code decides from the event-driven run of its inner flow: a rejection is thrown on, and after a resolution the flag decides |
| `MessageAdapter.InnerRunExists` | src/main/adapters/flow-manager/adapters/message-adapter.ts:19-36 | Every list of jobs in an adapter has such a run of its inner flow |
| `MessageAdapter.AdapterEndsExactly` | src/main/adapters/flow-manager/adapters/message-adapter.ts:17-38 | For every settled run of the inner flow, the adapter ends as the inner chain exactly when there are handlers and the last one did not stop and call `next` afterwards |
| `MessageAdapter.EmptyAdapterStops` | src/main/adapters/flow-manager/adapters/message-adapter.ts:17-38 | An adapter without jobs stops the chain |
| `MessageAdapter.SharedPayloadShows` | src/main/adapters/flow-manager/adapters/message-adapter.ts:36 | Jobs in an adapter share one payload object, jobs outside each get a copy |
| `FormattedSelect.SplitJoinExactly` | src/infra/db/mssql/util/knex/extensions/formatted-select-plugin.ts:10-37 | Splitting a delimited column name returns the keys it was joined from exactly when the delimiter first occurs behind each inner key and nowhere in the last |
| `FormattedSelect.ColumnJoins` | src/infra/db/mssql/util/knex/extensions/formatted-select-plugin.ts:8-17 | A column name is its keys joined, except that leading empty keys leave no trace |
| `FormattedSelect.ColumnOfTwo` | src/infra/db/mssql/util/knex/extensions/formatted-select-plugin.ts:3-10 | The column of key b in object a is named a, the delimiter, b |
| `FormattedSelect.GetPath` | src/infra/db/mssql/util/knex/extensions/formatted-select-plugin.ts:8-19 | The recursion pushes one column for each leaf, no leaf twice, under the name built on the way and with the leaf's value |
| `FormattedSelect.SelectColumns` | src/infra/db/mssql/util/knex/extensions/formatted-select-plugin.ts:92-97 | The select object holds the leaves of the schema under their column names |
| `FormattedSelect.LeavesArePrefixFree` | src/infra/db/mssql/util/knex/extensions/formatted-select-plugin.ts:8-19 | No leaf of a tree lies on the way to another |
| `FormattedSelect.SafeSelectIsPrefixFree` | src/infra/db/mssql/util/knex/extensions/formatted-select-plugin.ts:8-37 | In a safe schema different leaves have different column names and no name runs through another |
| `FormattedSelect.ParseValue` | src/infra/db/mssql/util/knex/extensions/formatted-select-plugin.ts:25-59 | Visited in any order, the columns build only what they name; when no name runs through another nothing fails and every column is held |
| `FormattedSelect.OrderDoesNotMatter` | src/infra/db/mssql/util/knex/extensions/formatted-select-plugin.ts:30-56 | The rebuilt object is the same for every order of visiting the columns |
| `FormattedSelect.RoundTripExactly` | src/infra/db/mssql/util/knex/extensions/formatted-select-plugin.ts:5-61 | Flattening, querying and rebuilding gives the schema's own tree of answers exactly when the schema is safe: no delimiter in or across keys, no empty object, no object under an empty top key |
| `FormattedSelect.SelectAndRebuild` | src/infra/db/mssql/util/knex/extensions/formatted-select-plugin.ts:5-61 | The same for the whole pipeline, including that a safe schema never makes the rebuilding throw |
| `FormattedSelect.TransformRows` | src/infra/db/mssql/util/knex/extensions/formatted-select-plugin.ts:24-64 | Every row is rebuilt, or the response fails because one cannot be |
| `FormattedSelect.Resolve` | src/infra/db/mssql/util/knex/extensions/formatted-select-plugin.ts:66-90 | Although only the first row is inspected, every row of a response with equal columns comes back rebuilt |
| `KeyCase.SplitIsScan` | src/util/object/formatters/key-case-formatter.ts:1-8 | Splitting at underscores and capitalizing is the same as one scan over the key |
| `KeyCase.SnakeByCharacter` | src/util/object/formatters/key-case-formatter.ts:10-13 | A published key is its first character made small followed, for each further one, by an underscore and its small letter if it is a capital and by itself otherwise; no capital is left |
| `KeyCase.CamelByCharacter` | src/util/object/formatters/key-case-formatter.ts:1-8 | A consumed key is the original without its underscores and with a capital for each character that stood behind one |
| `KeyCase.ConvertKeyTwice` | src/util/object/formatters/key-case-formatter.ts:4-13 | Each key conversion is idempotent on every key |
| `KeyCase.KeyRoundTrip` | src/util/object/formatters/key-case-formatter.ts:4-13 | Camel to snake and back returns a key exactly when it has no underscore and does not begin with a capital |
| `KeyCase.FormatKeys` | src/util/object/formatters/key-case-formatter.ts:17-28 | The loop renames every key in order, later entries overwriting collapsed ones in place |
| `KeyCase.LastWins` | src/util/object/formatters/key-case-formatter.ts:22-25 | Of the properties that share a converted key the last one's value is kept |
| `KeyCase.FilterCleans` | src/util/object/formatters/recursive-data-converter.ts:1-41 | At every depth of a converted tree, whatever the tree, no key has a capital after converting to snake case, and none an underscore after converting to camel case |
| `KeyCase.InnerArrayBecomesObject` | src/util/object/formatters/recursive-data-converter.ts:5-26 | An array directly inside an array becomes an object of its converted elements under their decimal indices |
| `KeyCase.ApplyTwice` | src/util/object/formatters/recursive-data-converter.ts:19-41 | Converting an object or array layer twice is the same as once, for every value, also with colliding keys |
| `KeyCase.FilterTwice` | src/util/object/formatters/recursive-data-converter.ts:1-41 | The tree conversion in either direction is idempotent on every value |
| `KeyCase.RoundIsIdentityExactly` | src/util/object/formatters/key-case-formatter.ts:4-28 | The two conversions in a row leave a value unchanged exactly when no array sits directly in an array and every key is underscore-free and does not begin with a capital |
| `KeyCase.WireIsIdentityExactly` | src/infra/mq/utils/rabbitmq-server/rabbitmq-server.ts:298-304 | The callback receives the published body, converted, written as JSON, parsed and converted back, exactly when moreover there is no date in it |
| `Pan.IsPAN` | src/util/security/is-sensitive-key.ts:253-289 | The one-pass loop accepts exactly strings of 13 to 38 digits and separators with 13 to 19 digits that pass the Luhn formula of Annex B of ISO/IEC 7812-1 |
| `Pan.Doubling` | src/util/security/is-sensitive-key.ts:275-279 | The doubled digit minus nine is the digit sum the formula asks for |
| `Pan.AcceptedExactly` | src/util/security/is-sensitive-key.ts:230-288 | The bounds in figures: 13 to 38 characters, 13 to 19 digits |
| `Pan.TestNumberIsAccepted` | src/util/security/is-sensitive-key.ts:263-288 | 4111111111111111 is accepted, and with no other first digit |
| `Pan.OneDigitErrorIsCaught` | src/util/security/is-sensitive-key.ts:267-288 | Changing any one digit of an accepted value makes it rejected |
| `Pan.TranspositionCaughtExactly` | src/util/security/is-sensitive-key.ts:267-288 | Swapping two neighbouring digits is accepted only if they are equal or are 0 and 9 |
| `KeyWords.IsKnownFragment` | src/util/security/is-sensitive-key.ts:178-192 | True exactly for the empty string, a member, or a concatenation of members of at most 40 characters |
| `KeyWords.KnownExactly` | src/util/security/is-sensitive-key.ts:176-180 | The length up to which fragments are decomposed is 40 |
| `KeyWords.HasKeywordFragment` | src/util/security/is-sensitive-key.ts:202-216 | Terminates, and is true exactly when the word is a known fragment, the keyword and a known fragment, over all overlapping occurrences |
| `KeyWords.RunsAreMaximal` | src/util/security/is-sensitive-key.ts:194-200 | The words are exactly the maximal runs of word characters |
| `KeyWords.WordsOccurInKey` | src/util/security/is-sensitive-key.ts:194-200 | Each split word is a nonempty contiguous piece of the lowered key |
| `KeyWords.CutAtHump` | src/util/security/is-sensitive-key.ts:194-200 | A key is cut between a small letter or digit and a capital |
| `KeyWords.CutAtSeparator` | src/util/security/is-sensitive-key.ts:194-200 | It is cut at every character that is no letter or digit, which is dropped |
| `KeyWords.NoOtherCut` | src/util/security/is-sensitive-key.ts:194-200 | Letters and digits without such a hump are one word, in small letters |
| `KeyClassifier.PrefilterLosesNothing` | src/util/security/is-sensitive-key.ts:76-79 | A key that any keyword list classifies passes the combined pattern |
| `SourceKeys.AffixedKeywordIsSensitive` | src/util/security/is-sensitive-key.ts:1-173 | With the repository's own lists, every keyword alone or with any affix fused on to either side is sensitive: a card keyword gives a card, a redacted one is redacted unless a card keyword hits too, a partial one is partial unless a keyword of the others hits |
| `OrdinaryKeys.OrdinaryWordsAreNotSensitive` | src/util/security/is-sensitive-key.ts:81-91 | With these lists `author`, `charge`, `shipping` and `company` are not sensitive although a short keyword occurs in each |
| `OrdinaryKeys.PasswordIsRedacted` | src/util/security/is-sensitive-key.ts:16-46 | With these lists `password` is redacted |
| `SourceKeys.FusedKeyHits` | src/util/security/is-sensitive-key.ts:202-228 | A short keyword hits between known fragments, a long one between anything |
| `KeyClassifier.MatchesKeywords` | src/util/security/is-sensitive-key.ts:218-228 | True exactly when some keyword hits: short ones within a word, longer ones anywhere |
| `KeyClassifier.HitExactly` | src/util/security/is-sensitive-key.ts:218-228 | A keyword of up to 4 characters hits exactly within a word between known fragments, a longer one exactly where it occurs |
| `KeyClassifier.ClassifiedExactly` | src/util/security/is-sensitive-key.ts:304-313 | A key has the type of the first list, of cards, redacted and partial ones in this order, of which a keyword hits, and none exactly if no keyword hits |
| `KeyClassifier.SensitiveTypeExactly` | src/util/security/is-sensitive-key.ts:320-329 | A field is a card exactly by its key, or by a card number in it when the key says nothing; the other types come from the key alone |
| `KeyClassifier.ComputeKeyType` | src/util/security/is-sensitive-key.ts:304-313 | With the prefilter the type is that of card, then redact, then partial matching without it |
| `KeyClassifier.Classifier.ClassifyKey` | src/util/security/is-sensitive-key.ts:300-318 | Over every sequence of calls the memoized result is the plain one, and the cache stays correct and within 5000 entries |
| `KeyClassifier.Classifier.GetSensitiveKeyType` | src/util/security/is-sensitive-key.ts:320-329 | The key decides first, a card number in the value second |
| `MaskValue.CardShowsTenDigits` | src/util/security/mask-value.ts:3-10 | A masked card shows exactly the value's own first six and last four digits, and nothing of a value with fewer than ten |
| `MaskValue.DigitsText` | src/util/security/mask-value.ts:4 | The digits of a value, in order |
| `MaskValue.MaskMeans` | src/util/security/mask-value.ts:3-29 | What each mask shows, character by character: redacted values nothing, cards their first six and last four of at least ten digits, others all but the first character and the first four fifths |
| `MaskValue.PartialShowsOneFifth` | src/util/security/mask-value.ts:16-23 | A partial mask keeps the length, hides at least one character and leaves at most the last fifth (rounded up) |
| `Sanitizer.UnchangedWhenNothingExposed` | src/util/security/sanitize-object.ts:16-69 | Masking leaves a value equal exactly when it exposes nothing, for any inherited type |
| `Sanitizer.NanIsCopied` | src/util/security/sanitize-object.ts:27-33 | When masking leaves an object as it is, the sanitizer returns another object exactly if there is a NaN in it |
| `Sanitizer.SanitizeNan` | src/util/security/sanitize-object.ts:20-34 | The array `[NaN]` comes back as a new array of the same content |
| `Sanitizer.SanitizeObject` | src/util/security/sanitize-object.ts:16-69 | On an acyclic heap the result is structurally the always-copying masking; no existing object changes; the very same reference comes back exactly when masking changes nothing (and there is no NaN); every child masking leaves alone is shared |
| `SanitizerSafety.Sanitize` | src/util/security/sanitize-object.ts:16-69 | At every place of the result: a string or number in a field whose key or value is sensitive is the mask of that type, one under `number`, `value` or `content` in something sensitive is the mask of the nearest sensitive field above it, through arrays too, and nothing else is changed |
| `SanitizerSafety.MaskedIsSafe` | src/util/security/sanitize-object.ts:16-69 | The same for every type inherited from outside |
| `Sanitizer.SanitizeArray` | src/util/security/sanitize-object.ts:20-34 | The same for an array, element by element with a lazily taken copy |
| `Sanitizer.SanitizeRecord` | src/util/security/sanitize-object.ts:36-66 | The same for a record |
| `Sanitizer.MaskField` | src/util/security/sanitize-object.ts:43-54 | The three-way choice for a field: by its own type, by the inherited type for the sub-value keys, or not at all |
| `Sanitizer.Put` | src/util/security/sanitize-object.ts:59-62 | The copy is taken at the first differing child and holds the results so far in front of the untouched rest |
| `SplitPromises.NextInv` | src/util/promise/split-promises.ts:23-58 | Every launch and settlement keeps each callback in exactly one place and the number running at what the bound allows |
| `SplitPromises.StartsAtMostOnce` | src/util/promise/split-promises.ts:35-48 | No callback starts twice |
| `SplitPromises.RunningIsBounded` | src/util/promise/split-promises.ts:39-64 | After the first wave exactly min(bound, unfinished) callbacks run, never more than `maxRunning` |
| `SplitPromises.StartOrder` | src/util/promise/split-promises.ts:35-64 | For a whole bound the first wave starts last one first, and afterwards always the first callback not taken yet |
| `SplitPromises.ResolvesInOrder` | src/util/promise/split-promises.ts:50-58 | The promise resolves at most once, exactly when all have settled, and entry i is what callback i settled with |
| `SplitPromises.RunsAreShort` | src/util/promise/split-promises.ts:39-67 | A run has no more events than callbacks and first-wave launches |
| `SplitPromises.StopsResolvedExactly` | src/util/promise/split-promises.ts:12-67 | A run that can go no further has resolved exactly if the bound is at least one or there are no callbacks; otherwise nothing ever started |
| `SplitPromises.Runner.constructor` | src/util/promise/split-promises.ts:35-63 | Reversing and splicing gives the initial stack and first wave |
| `SplitPromises.Runner.OnSettled` | src/util/promise/split-promises.ts:23-33 | A settled callback pushes its output and triggers the next start or the resolution |
| `SplitPromises.Runner.OnRunNext` | src/util/promise/split-promises.ts:39-48 | The RUN_NEXT listener pops and starts the next callback, or emits RESOLVE |
| `SplitPromises.Runner.OnResolve` | src/util/promise/split-promises.ts:50-58 | The RESOLVE listener sorts in place and resolves only when every output is there |

## Left out

- Bulk insert buffer: wall-clock durations (a timer is pending, fired or absent), the unhandled rejection when `onError` throws inside `flushInBackground`, and `insertMany` itself, which settles at any time or throws at once; documents in the theorems about runs are values, not references.
- BulkInsert.BulkInsertBuffer.GetDroppedCount: states the count over the model's own history of accepted documents, because the class keeps no other record.
- Sanitizer.SanitizeObject: the lazily taken copy is held as a local list and becomes an object when the loop ends, because no other code can see it before; the classifier is called without its cache, which `Classifier.ClassifyKey` proves to make no difference; cyclic values (on which the code does not return), accessors, symbol keys and class instances are not modelled.
- MaskValue.PartialShowsOneFifth: `floor(len * 0.8)` is taken as exact arithmetic, `4 * len / 5`.
- KeyClassifier.ComputeKeyType: keys are ASCII; `toLowerCase` and the case-insensitive pattern on other letters are not modelled. In `Pan.IsPAN` separators are the ASCII ones and the Unicode spaces of the `\s` class; a number is given by its text.
- FormattedSelect.ParseValue: the nested writes of the chunk walk are a recursion on values; row values are neither undefined nor objects that accept properties. Null, array and Date nodes in a schema, prototype keys such as `__proto__`, and the order of numeric keys are not modelled; neither are the proxies around knex.
- KeyCase.WireIsIdentityExactly: a body is a JSON value that may hold dates; what JSON text drops or changes besides (undefined, functions, NaN, objects with their own `toJSON`) is not modelled.
- KeyCase.FormatKeys: objects are lists of entries in insertion order; numeric-key ordering, prototype keys and non-ASCII letters are not modelled, and `lowerCaseKeyFormatter` is left out.
- SplitPromises.StopsResolvedExactly: `maxRunning` is a finite number; NaN acts as zero and infinity as any number from the count on.
- SendReprocessing.ExactRetries: `maxTries` is a finite number; with infinity the extension loop does not end, and NaN is not modelled. With an empty delay list the pushed entries are NaN (`NewDelay`) and the delay clause says nothing.
- MessageAdapter.Flattening: a job is a function of the payload and the state it is given; whether it calls `next` after it stopped is part of its result (`late`), which `InnerRun` ties to the calls in the run of the flow.
- Flow.RunIsChain: an error is a string and the data of the flow is in `MessageAdapter`; a handler that never settles leaves the run unfinished.
- Reprocessing.Handle: a malformed envelope, a failing publication, and handlers that write to `state.reprocessing` or to `payload.fields` are not modelled; a handler's writes happen at once when it ends.
- Reprocessing.LaterJobsSeeTheEnvelope: headers, bodies and state values are values that a handler replaces. The code copies the payload only one level deep and assigns state values by reference, so a handler that writes into a nested object in place (`payload.body.x = 1`) is seen by later jobs of the same delivery; that is not modelled.
- Reprocessing.ResumesAtFailure: assumes a delivered message equals the published one; JSON text, AMQP delivery and the headers added on the way (replaced by the envelope's) are not modelled.
- The branch of the `reprocessing` decorator for handlers that are not async: it does not await the handler.
- RabbitMQ connections, channels and consumers, the web server, controllers, routes, caches, Mongo and MSSQL repositories and the scheduler: input and output.
- APM spans, log decorators and formats: wrappers without a property of their own.
- Flow manager selection, `parallelize`, date helpers, validation schemas and the small object helpers: easy, or defined by a library.
