# Verification of the worker

This Dafny project models two parts of the worker and proves what its documentation promises of them.

**The task-delivery protocol** (`app/async_runtime.py`, `app/delivery.py`, `app/processors.py`, `app/consumer.py`,
`app/recovery.py`, `app/concurrency.py`). The worker takes messages from a queue, guards each task id with an inflight
registry and each task type with a bounded lease, runs the LLM, spools the result on disk, stores it on the server,
completes the task and settles the message by acknowledgement, requeue, republish or dead letter. A recovery scan
replays spool entries beside the handlers.

**The question-analysis recovery** (`app/openai_client.py`). The worker decides which questions of an analysis need
another LLM pass, runs those passes, merges what comes back with what it has and sanitises the result.

Beside them stand the corpus-reference budget of the analysis prompt, the retry loop with its backoff, the message
envelopes, and the spool and ledger as files.

## How it is modelled

| file | content |
|---|---|
| `Registry.dfy`, `Protocol.dfy` | The system: messages, spool entries, server tasks, actors with their program counters, and one step per await or file access. `LocalStep` is the worker's own code given the answers of its environment; `Apply` is a step of the whole system, with every interleaving of handlers, recovery scan, server and crashes. |
| `LocalInvariant.dfy`, `Exclusion.dfy`, `Durability.dfy`, `DeadLetters.dfy`, `Settlement.dfy`, `Retries.dfy`, `Justification.dfy`, `Conservation.dfy` | The invariants, each kept by every step. |
| `Worker.dfy`, `Refusals.dfy`, `Passage.dfy` | The invariant as a whole, the guarantees over all runs, what counts as a refusal in a run, and what each step of a reachable state does. |
| `Progress.dfy`, `Outcomes.dfy` | No actor is stuck, the code of each one ends, and what it ends in: with everything in order, and after each kind of single fault. |
| `Handling.dfy` | The code for one message as methods with their loops and exceptions, proved to take exactly the local steps of the system. |
| `Consuming.dfy` | The loops around that code: taking a message off the queue, and the recovery scan. |
| `Concurrency.dfy`, `Spool.dfy` | The limiter, the leases, the inflight registry, the spool and the ledger as classes. |
| `Envelope.dfy`, `ApiRetry.dfy`, `CorpusBudget.dfy` | Decoding and republishing, retrying server calls, the prompt's reference block. |
| `Text.dfy`, `Sorting.dfy`, `Questions.dfy`, `Selection.dfy`, `Preference.dfy`, `Merging.dfy`, `MergeGuarantees.dfy`, `Provenance.dfy`, `QuestionRecovery.dfy`, `RecoveryTrace.dfy`, `Sanitizing.dfy` | The question-analysis recovery on real strings. |

The environment is free to answer as it likes. A request is fine, retryable, non-retryable or fails unexpectedly; a
retryable or unexpected failure may have taken effect all the same, a refusal has not. A failed file write or delete
may have taken effect too. What is taken for granted of the server is that terminal statuses absorb, stored results
stay, an accepted completion makes the task successful, and the completion of a failed task is never accepted. The
history a run records (`Event`) is a ghost of the system: no step reads it. `Rejected` marks a non-retryable error
inside a delivery, the only event that may cost a spooled result; the guarantees are stronger than if any non-retryable
error of the task excused a loss.

Where code and documentation differ the model follows the code. Four promises turn out to need a condition:

- A finished result that is spooled or stored is not always reused: an analysis message that waited too long is refused
  before anyone looks for its result. The task is then failed, the message dead-lettered, and the next scan drops the
  result from the spool (`Outcomes.ExpiryLosesResult`). `HealthyHandler` gives the exact condition.
- A merge can lower the coverage of an answer with surrounding whitespace, because the merge compares sentences with
  the raw answer and the decision with the stripped one. `GroundIsKeptExactly` gives the exact condition for a merge,
  `LoopKeepsGroundExactly` for the whole loop.
- A message acknowledged after a failed DLQ publish need not have a terminal task, although the log says so: posting
  the failure may have failed too. `FailedTaskIsTerminalExactly` gives the exact condition.
- Ledger file names join two ids with `__`, which ids may contain, so two tasks can share a dead-letter record.
  `LedgerCollidesExactly` gives the exact condition; ids of one length are safe (`LedgerNamesApart`).

Run `dafny verify dfyconfig.toml` to check the project.

## Model

| member | source | states |
|---|---|---|
| Worker.ResultNeverLost | app/delivery.py:136-166 | In every reachable state, for every spooling of a result: the spool holds a result of that task, or the task is terminal on the server, or a delivery of it was refused since that spooling; while none was ever refused, what the spool holds is that very payload. This covers stale replays, re-written entries, lost responses and restarts. |
| Worker.OneResult | app/delivery.py:202-242 | Between any two spoolings of a result for one task a delivery of the task was refused. |
| Worker.NoLlmRerun | docs/WORKER_INTERNAL_API_CONTRACT.md:43-48 | If the LLM is called for a task after a result of it was spooled, a delivery of that task was refused between the two. |
| Refusals.LostOnlyByRefusal | app/delivery.py:440-443 | As long as no request of a delivery of the task was answered with an error that is not for trying again, every spooled result is still in the spool or its task is terminal, whatever errors, lost responses, failed writes and crashes there were. |
| Refusals.RerunOnlyAfterRefusal | docs/WORKER_INTERNAL_API_CONTRACT.md:43-48 | A second spooling, or an LLM call after a spooling, comes after a delivery request that was so answered, or the task has failed. |
| Refusals.RejectionsAreReal | app/delivery.py:579-600 | Over every run: a delivery is rejected only if an earlier request of a delivery of that task was so answered, or the task has failed. |
| Refusals.RefusalsAreReal | app/async_runtime.py:260-274 | Over every run: a task is given up as refused outside a delivery only after a request of a processor working on that very message was so answered. |
| Worker.ResultBeforeCompletion | app/delivery.py:579-600 | Every complete or finalize request of every run was sent while the server held the task's stored result, even if the response to the store request was lost. |
| Worker.CompletionsAreChecked | docs/WORKER_INTERNAL_API_CONTRACT.md:48 | Between any two completions sent for one task, the later one from an entry whose status can be asked for, the task's status was read and found open. |
| Worker.FailureWhileOwed | app/async_runtime.py:406-418 | A task is reported as failed while its result is owed only if the message has no retry left, by its own maximum or the setting for its type, or because something other than a delivery of the result was refused, as `Refusals.RefusalsAreReal` says. |
| Worker.ExclusionAndBounds | app/async_runtime.py:202-234 | In every interleaving the inflight ids are exactly those being worked on, one actor each; the limiter's count is the number of unreleased leases; handlers processing a type never exceed its limit; there is at most one replay, and it holds no lease. |
| Passage.ReceiveDecides | app/async_runtime.py:177-200 | In every reachable state: a copy that is no task leaves the queue at once; a task's copy stays, held by a new handler. |
| Passage.RegisterDecides | app/async_runtime.py:202-234 | In every reachable state: a message is requeued unregistered exactly if some actor works on its task id; it is requeued with its id registered exactly if nobody does but as many leases of its type are unreleased as its setting allows, or one if that is less; every other message gets a lease and starts. |
| Passage.RepublishDecides | app/async_runtime.py:450-473 | In every reachable state only a message with a retry left is republished; the new copy counts one retry more and carries its own maximum or the setting for its type; a confirmed republish is acknowledged, any other requeued. |
| Passage.SettleDecides | app/async_runtime.py:183-308 | In every reachable state a handler settles the copy it holds and no other: acknowledged, that copy is gone; requeued, it waits again. |
| Passage.ReleaseDecides | app/async_runtime.py:305-308 | In every reachable state an actor that is done leaves its task id free; the scan goes on after a replay unless that replay aborted it. |
| Passage.ScanDecides | app/async_runtime.py:327-335 | In every reachable state the scan replays its next entry from the start exactly if nobody works on that task, and otherwise passes it over and touches nothing. |
| Passage.ScanGoesOn | app/async_runtime.py:327-358 | In every reachable state a scan under way waits for a replay that exists, or can take its next entry, or is through. |
| Worker.DeadLetteredOnce | app/async_runtime.py:601-657 | Over any run a message is confirmed onto the DLQ at most once, plus once for every ledger write that failed or that a crash cut off. |
| Worker.SettledExactlyOnce | app/async_runtime.py:177-308 | No delivery is settled twice; a delivery taken from the queue is settled exactly when its handler no longer owes it, and until then the handler holds the one copy. |
| Worker.AcknowledgedIsAccounted | app/async_runtime.py:534-599 | For every acknowledged message, in every later state: it was processed (result spooled, task terminal, or refused since the last spooling), recorded in the ledger, terminal, confirmed onto the DLQ, or its DLQ publish was tried and failed, and in the last two cases the task is terminal or its failure could not be posted; or it was republished, and a chain of its next generations leads to one that is still with the broker or was acknowledged for one of those reasons. |
| Worker.MessageNeverLost | app/async_runtime.py:456-473 | In every later state some generation of every message put into the queue is still with the broker, or was acknowledged for one of the accounted reasons. |
| Worker.MessagesConserved | app/async_runtime.py:467-473 | For every message identity, over any run: copies with the broker plus acknowledgements for good equal exactly what producers put in, plus what unconfirmed republishes and crashes between republish and ack duplicated, plus the republishes whose ack is still to come. |
| Worker.RetriesEnd | app/async_runtime.py:376-473 | Over any run the acknowledgements so far plus those the queue can still cause never exceed what was published, one unit per message and per retry it had left, plus what crashes before the ack and unconfirmed republishes duplicated. |
| Worker.StepPaid | app/async_runtime.py:450-473 | Every acknowledgement is paid for out of the budget of the queue; a confirmed republish does not raise that budget, and only producers, crashes and unconfirmed republishes do. |
| Worker.StepInv | app/async_runtime.py:177-360 | Every step of the system keeps the whole invariant. |
| Worker.InitInv | app/recovery.py:36-55 | A worker starting on whatever spool, ledger and server state an earlier process left satisfies the invariant. |
| Justification.JustifiedKept | app/async_runtime.py:534-560 | No later step takes back the reason for which a message was acknowledged as processed, recorded, terminal or dead-lettered; `Conservation.FollowedKept` says the same of a republish. |
| Justification.GivenUpKept | app/async_runtime.py:376-441 | Every step keeps: whoever gives a task up for want of retries has a message whose retries are used up. |
| Conservation.FollowedKept | app/async_runtime.py:450-469 | Every step keeps: whatever was, or is about to be, acknowledged as republished had a retry left, and its next generation is with the broker or was acknowledged. |
| Conservation.LivesOn | app/async_runtime.py:471-473 | No step, requeues and crashes included, loses a message: it stays with the broker or is acknowledged. |
| Conservation.StepBalanced | app/async_runtime.py:456-473 | Every step keeps the balance of copies, acknowledgements and republishes in progress for every message identity. |
| Retries.ChainIsBounded | app/async_runtime.py:376-377 | Along a chain of republishes the retry count rises by exactly one, the resolved maximum, the type and the ids stay, and the chain is no longer than the retries the first message had left. |
| Retries.RetriedBudget | app/consumer.py:726-729 | Resolving the maximum of a republished message gives the maximum resolved before, and a republish costs exactly one unit of budget. |
| Retries.BrokeredKept | app/async_runtime.py:467-473 | Every step keeps: each held copy belongs to the one delivery that still owes its settlement, and only a message with a retry left reaches the republish. |
| Retries.RepublishPaid | app/async_runtime.py:456-473 | A confirmed republish adds exactly one copy, of the next generation, marks its own copy as handed over, and leaves the budget exactly as it was; an unconfirmed one raises it by no more than its top-up. |
| Settlement.SettledOnceKept | app/async_runtime.py:183-308 | Every step keeps that no two events settle the same delivery and that a taken one is owed or settled. |
| DeadLetters.DlqBoundedKept | app/async_runtime.py:609-657 | Every step keeps the count of confirmed dead letters within recorded, lost and pending ledger writes; this rests on the inflight exclusion between check and publish. |
| DeadLetters.NoOtherWriter | app/async_runtime.py:609-646 | While a handler is at the DLQ check or publish, no other actor has a ledger write pending for the same message. |
| Durability.RecordedKept | app/async_runtime.py:310-360 | Every step keeps: spool slots hold authentic entries, every spooled result is held, decided or refused, every snapshot entry of a scan is authentic, and the history never shows a result spooled or an LLM call while an earlier result is owed. |
| Durability.OtherPcKept | app/async_runtime.py:327-335 | A step of one actor breaks nothing another actor has found out about its own task. |
| Exclusion.ExclusiveKept | app/consumer.py:1167-1179 | Every effect on the registry keeps one actor per registered task id. |
| Exclusion.CoveredKept | app/async_runtime.py:305-308 | No id stays registered after its actor is gone. |
| Exclusion.BoundedKept | app/concurrency.py:48-70 | Every effect on the limiter keeps its count equal to the unreleased leases of each type and within the limit. |
| LocalInvariant.DeliverKeeps | app/delivery.py:402-451 | Every step of a delivery keeps the durability of the result, deletes the entry only once the task succeeded or the delivery was refused, and completes only a stored result. |
| LocalInvariant.ProcessKeeps | app/processors.py:172-298 | Every step of a processor keeps it: the LLM is called, and a fresh result spooled, only while no earlier result is owed. |
| LocalInvariant.FailureKeeps | app/async_runtime.py:520-599 | Every step of the failure path keeps it, and ends in an acknowledgement that is accounted for. |
| Progress.NeverStuck | app/async_runtime.py:177-308 | In every reachable state every actor can take a step of its own; a handler about to settle still finds its copy with the broker. |
| Progress.LocalCodeEnds | app/consumer.py:522-551 | Whatever the environment answers, a handler reaches its settlement or republish, and a replay its release, within a bound known in advance, if the LLM phase makes at most so many calls. |
| Progress.HealthyDelivery | app/delivery.py:402-451 | If every request and write from some point of it on succeeds, a delivery completes an open task once, with its result stored, and clears the spool; a replay then lets the scan go on and a handler acknowledges. |
| Progress.HealthyHandler | app/processors.py:498-610 | If every request and write succeeds, the task is open and the message not in the ledger, a handler makes the task successful if and only if the message is a job posting or passes the check on its waiting time. It then leaves exactly this history: a spooled or stored result is reused, otherwise one LLM call; the result is spooled, the status found open, then the completion sent; the spool ends clear and the message is acknowledged. A message that does not pass has its task failed, or is republished if the check broke off with an error that can be retried. |
| Progress.OutageDefers | app/delivery.py:422-438 | If the server stays out, a delivery uses up its attempts, leaves the task as it was and its entry in the spool with the final attempt count, and gives up without an error. |
| Progress.HealthyFailure | app/async_runtime.py:520-599 | Where the failure path ends, by cases: republished exactly if the error is no refusal and a retry is left, by the message's own maximum or the setting for its type; otherwise ledger hit, task decided, or task failed on the server, message dead-lettered once and recorded. |
| Progress.FailedTaskIsTerminalExactly | app/async_runtime.py:562-599 | For an open task and a message not in the ledger, whatever the environment answers: the failure path ends in an acknowledgement, after which the task is terminal if and only if the failure post was accepted or took effect all the same. |
| Outcomes.DecidedDelivery | app/delivery.py:579-600 | A task that has already succeeded, at the start of a delivery, at its status check or at the check after a failed request: nothing is sent, the entry is dropped, task, ledger and history stay as they are, and the delivery counts as done. |
| Outcomes.RefusedAttempt | app/delivery.py:440-442 | At every point where a request can be refused or the task be found failed: the entry is dropped with one rejection in the history; a replay lets the scan go on, a handler gives the task up. |
| Outcomes.FailedDelivery | app/delivery.py:583-584 | The same for a task that has failed, from the start of a delivery on. |
| Outcomes.RepeatedDelivery | app/delivery.py:422-439 | At every point where an attempt can fail retryably: while attempts are left the next one is made and decides; after the last one the entry stays in the spool with the count of the attempts, the task as it was. |
| Outcomes.BrokenAsking | app/async_runtime.py:289-304 | An unexpected error at any status or result request: nothing changes but that a replay ends the scan, and a handler republishes its message or is out of retries. |
| Outcomes.BrokenFile | app/delivery.py:409-443 | The same for a failed write or delete of the entry, whose effect on the slot is given for each. |
| Outcomes.BrokenRequest | app/delivery.py:587-600 | The same for an unexpected error of the store or the completion, which may have gone through. |
| Outcomes.NothingToDo | app/delivery.py:409-411 | An entry that has its request id is not written, and an entry without a task type has no status asked for, whatever would have come of it. |
| Outcomes.StoredIsNotSentAgain | app/delivery.py:629-634 | A result that is on the server is not stored again: whatever a store request would have come to, the delivery completes. |
| Outcomes.LostStoreResponse | app/delivery.py:503-514 | The store request of a delivery answers with a retryable error: if the result is on the server all the same the delivery completes, otherwise the attempt is repeated. |
| Outcomes.LostCompletionResponse | app/delivery.py:587-594 | The completion answers with a retryable error: if it went through, and the status can be asked for, the delivery is done with that one completion; otherwise the attempt is repeated, with the open status in the history where it was read. |
| Outcomes.RefusedCompletion | app/delivery.py:595-600 | The completion is refused: a task that succeeded all the same counts as delivered, any other delivery is refused. |
| Outcomes.RaisedProcessing | app/async_runtime.py:275-304 | From every point of a processor at which a request or write fails so that it raises: the status of the task is left alone, and with a retry left an error that is no refusal ends in the republish; only a refusal, or the last retry, gives the task up. |
| Outcomes.LostStoreOfProcessor | app/delivery.py:92-134 | The store request of a processor answers with a retryable error: an open task is completed in the end, unless the result did not arrive and this was the last attempt; then the message is republished, or without a retry the task given up, with the result still in the spool. |
| Outcomes.DecidedProcessing | app/delivery.py:295-304 | A task decided before its handler came to it is left as it is, and the message acknowledged. |
| Outcomes.LlmGoesOn | app/processors.py:172-298 | The LLM phase makes at least one call, and each further one as long as it needs one. |
| Outcomes.RecordedMeanwhile | app/async_runtime.py:609-620 | A message that someone else put on record while its task was being failed is not published again. |
| Outcomes.ExpiryLosesResult | app/processors.py:612-621 | The failing family: an analysis message that waited too long, for an open task whose finished result is spooled and owed. The task is failed and the message dead-lettered with the result still in the spool, and the next replay drops it. |
| Handling.TaskWorker.HandleMessage | app/async_runtime.py:236-308 | The handler's code from lease to settlement takes exactly the steps of the system, and ends where they end. |
| Handling.TaskWorker.ReplayEntry | app/async_runtime.py:330-358 | So does a replay; any error but a refusal ends the scan. |
| Handling.TaskWorker.DeliverPendingEntry | app/delivery.py:402-451 | The delivery with its retry loop takes exactly the steps of the system, for every outcome. |
| Handling.TaskWorker.DeliverOnceWithStateCheck | app/delivery.py:579-600 | One attempt, with the state checks around the request, takes exactly the steps of the system, whichever error it raises; where those lead in each case is said in `Outcomes`, for a successful task in `Outcomes.DecidedDelivery`. |
| Handling.TaskWorker.CompleteWithStateCheck | app/delivery.py:587-600 | The same for the request itself and what its errors come to mean. |
| Handling.TaskWorker.EnsureResultStored | app/delivery.py:629-654 | The same for ensuring that the result is stored. |
| Handling.TaskWorker.StoreResultWithStateCheck | app/delivery.py:503-514 | The same for posting the result and asking for it after a retryable error. |
| Handling.TaskWorker.ResumeWithoutLlm | app/delivery.py:288-338 | The same for the three checks that avoid the LLM; what their errors lead to is said in `Outcomes.RaisedProcessing`. |
| Handling.TaskWorker.ProcessMessage | app/processors.py:498-610 | The same for a whole processor run. |
| Handling.TaskWorker.SpoolAndDeliver | app/processors.py:566-588 | The same for spooling, storing and delivering a fresh result, in that order. |
| Handling.TaskWorker.RetryOrFail | app/async_runtime.py:368-473 | The same for the choice between republishing and failing for good. |
| Handling.TaskWorker.FinalizeFailedMessage | app/async_runtime.py:520-599 | The same for failing a task for good. |
| Handling.TaskWorker.PublishDlqOnce | app/async_runtime.py:601-657 | The same for check, publish and record. |
| Handling.AloneKeeps | app/async_runtime.py:177-308 | An actor's code run undisturbed inside the system computes what it computes alone and keeps the whole invariant. |
| Handling.LeadsToTheEnd | app/async_runtime.py:236-308 | An end the code reaches is the end the step system reaches, however many more steps it is given. |
| Consuming.Consumer.HandleIncomingMessage | app/async_runtime.py:202-308 | A message whose task is being worked on, or whose type is at its limit, is requeued with its task untouched, the latter before its registration is given back; any other is processed by the handler's code and settled before first its lease and then its registration are given back. On every path the registry and the held leases end as they began. |
| Consuming.Consumer.RecoverPendingDeliveries | app/async_runtime.py:310-360 | Unless a scan is running already, the scan visits the listed entries in order and replays exactly those whose task nobody works on; it ends early only when told to stop or at an error that is not a refusal; it leaves all other tasks untouched, and gives back every registration and the recovery lock. |
| Consuming.Consumer.RecoverInGoodOrder | app/async_runtime.py:327-347 | If every request and write succeeds, a scan of open tasks visits every entry and leaves every task it replays successful, completed once and out of the spool. |
| Concurrency.TaskTypeConcurrencyLimiter.TryAcquire | app/concurrency.py:54-62 | A lease is refused exactly when as many leases of its type are unreleased as the setting for that type allows, or one if that is less than one; otherwise it is a fresh unreleased lease, one more than before. |
| Concurrency.TaskTypeConcurrencyLimiter.ReleaseSlot | app/concurrency.py:64-70 | Releasing keeps every count equal to the unreleased leases. |
| Concurrency.TaskTypeConcurrencyLease.Release | app/concurrency.py:41-45 | Only the first release of a lease gives the slot back. |
| Concurrency.InflightRegistry.Register | app/consumer.py:1167-1173 | A task id is registered exactly when it was not registered before, under its task type or as unknown. |
| Concurrency.InflightRegistry.Release | app/consumer.py:1175-1179 | Releasing removes that id alone. |
| Spool.PendingDeliveryStore.Upsert | app/recovery.py:21-28 | On the map the directory stands for, writing an entry is setting its key, for ids over any alphabet, by sanitised key. |
| Spool.PendingDeliveryStore.Delete | app/recovery.py:30-34 | Deleting is removing the key, present or not. |
| Spool.PendingDeliveryStore.GetEntry | app/recovery.py:57-72 | Reading is looking the key up. |
| Spool.PendingDeliveryStore.ListEntries | app/recovery.py:36-55 | Listing yields every entry of the map exactly once and nothing else, in the order of the file names. |
| Spool.WriteIsAtomic | app/recovery.py:24-28 | Between any two steps of a write the directory stands for the old map or the new one. |
| Spool.NamesOf | app/recovery.py:77-80 | The names under which entries and records are filed: the id with an underscore for everything but letters, digits, dots, underscores and hyphens, behind the delivery kind or before the message id. |
| Spool.FileNamesCollide | app/recovery.py:77-80 | Two keys share a file exactly when their sanitised keys agree; over the safe alphabet file names are injective. |
| Spool.LedgerCollidesExactly | app/recovery.py:119-122 | Two safe task ids can share a ledger file exactly when one followed by the separator starts the other followed by it. |
| Spool.LedgerNamesApart | app/recovery.py:119-122 | For safe task ids of one length ledger names are injective. |
| Spool.LedgerCollision | app/recovery.py:119-122 | A concrete pair of different messages of different tasks with one ledger file. |
| Spool.TerminalMessageStore.Record | app/recovery.py:93-117 | Recording a message through its temporary file adds it to the recorded ones, keeps every earlier record, and leaves each file standing for exactly a recorded message. |
| Spool.RecordIsAtomic | app/recovery.py:113-117 | Between any two steps of recording a message, the directory stands for the recorded messages with or without it. |
| Spool.TerminalMessageStore.Contains | app/recovery.py:88-91 | A message counts as recorded exactly when one with the same file name was recorded, and for safe ids with task ids of one length exactly when it was recorded itself. |
| Envelope.RepublishRoundTrip | app/async_runtime.py:450-466 | Decoding the retry copy of any decoded message gives that message with only its two counts changed. |
| Envelope.DeadLetterRoundTrip | app/async_runtime.py:665-675 | Decoding the DLQ copy of any decoded message gives the message itself. |
| Envelope.DeadLetterKeeps | app/consumer.py:1262-1269 | The DLQ copy has the original body and every original header that is not one of the message's own five. |
| Envelope.DecodesExactly | app/consumer.py:332-353 | Decoding succeeds exactly if there is a message to read out: header before message-id property before body for each identity, the type one of the two, counts from header or body or nought, user id and maximum from the body; and then it yields that message. |
| Envelope.CoercedMeans | app/consumer.py:1273-1281 | Coercion cuts the whitespace around a text, yields nothing for an absent or blank one, and prints an integer so that it reads back. |
| Envelope.CoercedStays | app/consumer.py:1273-1281 | Coercion to text is idempotent. |
| Envelope.DecodedIdentities | app/consumer.py:332-353 | Each identity of a decoded message reads back as itself from a header, or is blank and stays as it is in the body. |
| ApiRetry.RunApiCallWithRetry | app/consumer.py:522-551 | Between one call and as many as the setting says; all but the last failed retryably; one callback per retryable failure, saying whether another attempt follows; each sleep within its bounds, and all of them within (attempts - 1) times the cap unless the cap is negative. |
| ApiRetry.BackoffBounds | app/consumer.py:553-558 | For any settings and any jitter the delay lies between the unjittered delay and the cap, and the former is negative only if the cap is. |
| ApiRetry.DelaysDouble | app/consumer.py:553-556 | The delays before jitter start with the base delay and double from attempt to attempt up to the larger of the two settings, where they stay. |
| ApiRetry.JitterIsAFifth | app/consumer.py:557-558 | The jitter is the draw times a fifth of the delay, or a tenth of a second where there is none, cut off at the cap. |
| CorpusBudget.BuildCorpusReferences | app/openai_prompts.py:349-370 | The joined references stay within 6000 characters and are a prefix of the best eight, each with category, rank and title and the first 1200 characters of its content at most; only the last may be cut below that, and then the budget is used up; the block stops early only when not even the next header fits. |
| CorpusBudget.BestRanked | app/openai_prompts.py:351-352 | The references taken are in rank order, as many as there can be, and none left out ranks before one taken. |
| Sorting.SortMeans | app/openai_prompts.py:351 | Sorting orders, permutes and is stable. |
| Text.DecimalReads | app/openai_prompts.py:356 | A printed integer reads back as that integer, without leading zeros. |
| Questions.QuestionIdsRequiringRecovery | app/openai_client.py:884-913 | The grouping and counting loops compute the specified list of questions. |
| Questions.QuestionNeedsRecovery | app/openai_client.py:895-911 | The loop over one question's items decides as specified: too few distinct sentences of the stripped answer, or an item without a usable rewrite. |
| Questions.RequiringMeans | app/openai_client.py:884-913 | The list holds exactly the questions with an answer whose items cover no sentence of it, or fewer than it has and fewer than three, or include one that is not proven and whose rewrite is missing, blank, the sentence again up to whitespace, or advice about rewriting. |
| Questions.RequiringInOrder | app/openai_client.py:884-913 | The list follows the order of the context. |
| Questions.TargetCount | app/openai_client.py:915-921 | The target is the number of sentences brought into the range from one to three. |
| Text.ContainsMeans | app/openai_client.py:942 | A sentence occurs in an answer exactly if the answer is some text, the sentence, and some text. |
| Questions.UsableByKey | app/openai_client.py:1040-1061 | Whether a rewrite is usable depends on its sentence only up to surrounding whitespace. |
| Selection.SelectIsOptimal | app/openai_client.py:976-1019 | The selection has min(target, distinct valid sentences) items on distinct sentences of the answer, in order of first occurrence, with as many different statuses as the target and the first candidates of the sentences allow, and a fabricated one whenever the first candidate of some sentence is fabricated. |
| Selection.DistinctMeans | app/openai_client.py:976-987 | Deduplication keeps valid candidates with distinct sentences and covers every sentence the candidates cover. |
| Selection.FirstStays | app/openai_client.py:978-987 | Of several valid candidates for one sentence the first is kept. |
| Selection.DistinctInOrder | app/openai_client.py:978-987 | What deduplication keeps stays in order. |
| Selection.ChooseIsOptimal | app/openai_client.py:989-1017 | From candidates on distinct sentences the two passes choose as many items and as many statuses as the target allows, and a fabricated one if there is one. |
| Preference.ChoosePrefers | app/openai_client.py:992-1017 | Which candidates are chosen: the first fabricated one; the first proven one if the target is two or there is no fabricated one; the first mentioned one if the target exceeds the number of the other statuses; and beyond those the earliest. |
| Text.FindIsFirst | app/openai_client.py:1019 | The position by which items are ordered is that of the first occurrence. |
| Merging.MergeRecoveredQuestionAnalyses | app/openai_client.py:923-1025 | The merge loops compute the specified merge, and change nothing else of the response. |
| Merging.AcceptRecovered | app/openai_client.py:939-963 | The loop over the recovered items computes the specified accepted items of every targeted question; `Provenance.SelectedComesFrom` says what they are. |
| Merging.ChooseItems | app/openai_client.py:989-1017 | The status loop and the filling loop compute the specified choice. |
| MergeGuarantees.MergeFrame | app/openai_client.py:966-970 | For every question outside the targets, known to the context or not, the items after the merge are the items before, in order. |
| MergeGuarantees.MergeSelects | app/openai_client.py:972-1020 | Every targeted question ends up with an optimal selection among its recovered and current items. |
| Provenance.SelectedComesFrom | app/openai_client.py:936-987 | Where each item of a merge comes from: the first recovered item that quotes the answer with its sentence, if there is one, otherwise the first current one, unchanged. A recovered item keeps every field but its rewrite; it keeps that too if it is proven or the rewrite is usable, and if the first current item of the sentence is missing, differs in status or has no usable rewrite; otherwise it gets that item's rewrite. |
| Provenance.MergedCount | app/openai_client.py:976-1017 | A merge selects as many items as there are distinct sentences of the answer among the recovered and the current items of the question, up to the target. |
| Provenance.MergeInOrder | app/openai_client.py:965-1025 | A merge lists the questions in the order of the context, and the items of all others behind them. |
| MergeGuarantees.MergedKeepsCoverage | app/openai_client.py:923-1025 | For an answer without surrounding whitespace no LLM answer lowers the number of distinct valid sentences, capped at the target. |
| MergeGuarantees.GroundIsKeptExactly | app/openai_client.py:895-904 | No merge of a question that needs recovery can lower its coverage if and only if its answer is blank or has no surrounding whitespace. |
| MergeGuarantees.WhitespaceLosesGround | app/openai_client.py:978-987 | For every other answer, a current item that leaves the question in need of recovery and a recovered item with which the merge lowers its coverage. |
| MergeGuarantees.RewriteSurvives | app/openai_client.py:944-962 | Where the recovered items of a sentence agree in status with its first current item, whose rewrite is usable, and that item or some recovered one quotes the answer, the item selected for that sentence has a usable rewrite. |
| MergeGuarantees.OtherIsSelected | app/openai_client.py:976-987 | If neither quotes the answer, the merge selects another current item of that sentence instead. |
| MergeGuarantees.RewriteMayBeLost | app/openai_client.py:944-962 | A concrete input of that kind in which a usable rewrite is replaced by an item without one. |
| QuestionRecovery.RecoverQuestionAnalyses | app/openai_client.py:804-882 | The loop over a worklist that grows while it is worked through ends for any LLM, computes the specified result and makes the specified calls; `RecoveryTrace` says what each call does to the items. |
| RecoveryTrace.LoopCallByCall | app/openai_client.py:815-882 | The loop call by call: the first answer is merged for all questions asked about; each question then still in need is asked about once, alone and in order, on the items so far; an answer is merged into that question's items and touches no other, a failure changes nothing; a question ends up with what it has right after its own call. |
| RecoveryTrace.RetryIsUsed | app/openai_client.py:853-858 | A question that is asked about alone ends up with the merge of that answer and what the first merge left it, so with as many items as there are distinct sentences of its answer in both together, up to its target; with a failed call it keeps what it had. |
| QuestionRecovery.CallsAreBounded | app/openai_client.py:815-882 | At most one call plus one per original question; every call after the first is for a single original question, each a different one. |
| QuestionRecovery.RemainingWithin | app/openai_client.py:859-865 | The questions still to recover stay within the original ones, so the membership filter removes nothing. |
| QuestionRecovery.RecoveryGuarantees | app/openai_client.py:804-882 | A failed first call changes nothing; after a success every original question keeps a well-formed selection to the end; all others keep their items; what still needs recovery was asked for. |
| QuestionRecovery.RecoveryKeepsCoverage | app/openai_client.py:804-882 | The whole loop never lowers the coverage of an answer without surrounding whitespace. |
| QuestionRecovery.LoopKeepsGroundExactly | app/openai_client.py:804-882 | The whole loop keeps a question's coverage for every context, LLM and list of items if and only if its answer is blank or has no surrounding whitespace. |
| Sanitizing.SanitizingCleans | app/openai_client.py:1027-1038 | Sanitising a response is idempotent, changes improvements only, and leaves one exactly where the item is not proven and the rewrite is usable. |
| Sanitizing.SanitizingKeepsDecision | app/openai_client.py:1027-1061 | The questions requiring recovery are the same before and after sanitising. |

## Left out

- The synchronous twins in `app/consumer.py`, `app/delivery.py` and `app/openai_client.py`: the same logic as the asynchronous path.
- Transport, broker client and LLM client: their outcomes are free choices of the environment. The LLM phase of a processor is one or more calls with one outcome; context, candidate and running requests before it are one request.
- Interleavings are a property of the step system, on values. The classes in `Handling.dfy` and `Consuming.dfy` run one actor's code against an environment that depends on what the actor sees; their methods do not suspend in the middle.
- Acks and nacks return normally, ledger lookups do not fail, and a handler is not cancelled; a crash of the process may happen between any two steps.
- One worker process at a time. A restart finds the spool, the ledger and the server as they were left.
- Corrupt spool files, which the worker reads as absent.
- The protocol files spool entries and ledger records under the ids themselves, as if file names were injective; `Spool.FileNamesCollide` and `Spool.LedgerCollidesExactly` say exactly when they are not.
- Liveness across actors: `Progress` shows that each actor's code ends and none is stuck, not that the broker or the scheduler is fair.
- JSON and timestamps: the remaining fields of a message are validated and written by an opaque codec assumed to round-trip, and integers are read by readers assumed to take an integer as it is. Printed forms of other header values are assumed to have no surrounding whitespace.
- Delays and the jitter are real numbers; rounding is not modelled.
- The sentence splitter is any function from an answer to a count; question ids in a context are distinct.
- Prompt texts other than the reference block, and the stripping of the finished block.
- `_normalize_classification`, `_build_finalize_request`, `_build_low_confidence_generated`, logging, masking, metrics, start and stop of the threads, and the cancelled-task check, which nothing calls.
- The low-confidence completion path of `app/delivery.py`, which the processors do not use.
