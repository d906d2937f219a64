# EngageIQ workers: a verified model

This project models the background workers of EngageIQ (campaign sends, transactional mail,
workflow executions, segment refreshes and the rate limiter they share) and proves what they
guarantee when messages are redelivered, handlers interleave, workers die and database or broker
calls fail. `dafny verify dfyconfig.toml` checks everything.

## How it is organised

- **Campaign pipeline.** `CampaignTables` has the guarded SQL updates as functions. `ChunkMachine`
  is the state machine of all chunk handlers of a campaign: every statement of every handler is one
  step, and any step of any other handler, a bounce, or the start handler's write of the total can
  come between two of them. `ChunkAccounting`, `ChunkCompletion`, `ChunkExactness` and `ChunkMail`
  prove the laws of its runs. `ChunkHandler` is the handler itself, loop by loop and statement by
  statement, proved to do nothing but runs of that machine and to leave every recipient, mailed or
  not, as calls and SES replies decide for it. `CampaignLifecycle` takes all campaign
  updates in any order.
- **Batcher.** `KeysetScan` is keyset pagination over a table that changes between pages; `Batcher`
  is `StreamAndChunk` with its transactions and deduplicated publishes, crash and rerun;
  `CampaignStart` is the start handler and the hand-over to the chunk machine.
- **Rate limiter.** `TokenBucket` is the Lua step and its histories; `Limiter` is the script on the
  Redis hash and the waiting loop of `Acquire`.
- **Workflows.** `WorkflowWalk` says what a workflow means; `WorkflowExecutor` is the executor over a
  store whose calls may fail; `WorkflowTrigger` is the trigger handler; `Lease` is the Redis lock, as
  a machine and as commands on a store that follow it; `DelayMachine` is the delay scheduler as a
  machine of many workers with both kinds of locks, `DelaySafety` its laws, `DelayMargins` how late
  workers may be, and `DelayScheduler` the poll as a method over it.
- **Segments.** `Evaluator` is the filter evaluator; `SegmentRefresh` is the refresh handler.
- **Mail.** `Renderer` is the plain-text fallback; `TransactionalSend` is the transactional handler.
- `Messages` and `Wrappers` hold the types the handlers share.

## What is assumed

- Two deliveries of the same chunk, or of the same transactional send, do not overlap: the status
  check and the send are separate statements in the source. Different chunks interleave freely.
- A write that reports an error was not applied. A worker that dies is modelled as one whose
  remaining calls fail, or by a crash step.
- The broker may redeliver a message whenever it was not told of its settlement, up to the six
  deliveries of the mail workers, and deduplicates publishes by message id.
- `Recover` and `ChunksPartition` take a segment that does not change between a crashed start run
  and its rerun. `DedupLosesContact` shows what happens otherwise.
- A segment refresh is the only writer of its segment's memberships.
- Database, Redis and worker clocks agree where leases and due times are concerned. The token
  bucket's bound holds for clocks that go backwards.
- Contact ids are 128-bit numbers. Tokens are counted in thousandths and time in milliseconds, which
  is exact for the integer rates the constructor accepts.

## What the proofs found

- A redelivered chunk tries and counts permanently failed recipients again. `failed_count` is exact
  if and only if that never happens (`AccountingWithoutWriteFaults`), and a campaign can be completed
  with recipients still queued (`CompletedTooEarly`), exactly when its counters fall short of its total
  plus the recounts (`CompletedTooEarlyExactly`).
- A campaign whose chunks all finish before its total is stored is never completed
  (`StuckInProgress`, `NeverCompletes`).
- A trigger delivery that creates the execution and then fails to get the lock is retried, but the
  retry finds the execution and acks: it stays `running` and never runs. The same happens when a run
  errs and its failure cannot be recorded (`StuckExactly`, `UntouchedExactly`).
- A rerun of the batcher repairs a crashed run exactly if what the crash left agrees with the segment
  as it is now (`GoodExactly`); otherwise a contact can lose its message (`DedupLosesContact`).
- The scheduler's re-check looks at the status and not at the due time, so a poll that outlives its
  lease by a single millisecond can resume a later delay early; no delay is resumed early exactly if
  polls never outlive their lease (`NoEarlyExactly`). None is resumed twice exactly if execution
  leases are kept or polls outlive theirs by at most 75 seconds (`NoTwiceExactly`). A lock
  excludes if and only if its holders write different values (`ExclusiveExactly`); the scheduler's
  two write constants, so they do not (`SchedulerLocksNotExclusive`).
- A transactional message can run out of deliveries on rate-limit denials without an outcome and
  without a dead letter (`LimiterLosesMessage`), and one that SES accepted stays `sending` if its
  `sent` write fails (`UnwrittenSentIsLost`); `LastDeliveryDecides` says exactly when a send gets an
  outcome. A send without a row is mailed again whenever a settlement is lost (`BoundExactly`).
- When a filter condition errs, the order of a group's children decides between an error and a
  verdict (`OrderIrrelevant`, `ErrorsMakeOrderMatter`).
- Where code and documentation differ the model follows the code. docs/workers/campaign-email.md says
  recipients are inserted with DO NOTHING, the statement is DO UPDATE of `updated_at`, which is why
  the row ids come back on a rerun. docs/workers/segment-computation.md describes event conditions
  with an `eventName` key, the evaluator knows only fields starting with `event:`. The comment above
  `processRecipient` says a transient outcome changes nothing, yet the row has become `sending`.
  MarkCampaignComplete is guarded by `completed_at` and not by the status.

## Model

| member | source | states |
|---|---|---|
| `ChunkAccounting.Conservation` | internal/worker/email/handler.go:505-598 | After every run of interleaved, redelivered, crashing chunk handlers: `sent_count`, plus sent outcomes still held by handlers, plus those lost to failed increments or dead handlers, less those whose row write failed, balances the delivered rows; likewise failures (less recounts) and SES acceptances. |
| `ChunkAccounting.StepKeepsInv` | internal/worker/email/handler.go:505-598 | Each single statement of any handler, and each bounce or stored total in between, keeps the three conservation laws and what every handler holds about its rows. |
| `ChunkAccounting.AccountingWithoutWriteFaults` | internal/worker/email/handler.go:529-558 | With database writes succeeding, `sent_count` + pending = delivered rows, acceptances = delivered rows + acceptances not yet recorded, `failed_count` + pending ≥ failed rows, with equality if and only if no failed row was tried or counted again. |
| `ChunkAccounting.NoLostOutcomes` | internal/worker/email/handler.go:529-558 | If no write fails, no outcome is ever lost or left unwritten. |
| `ChunkAccounting.NoUnwrittenOutcomes` | internal/worker/email/handler.go:650-673 | If the write of each outcome succeeds, no delivered or failed row is missing, even if increments fail and handlers die. |
| `ChunkAccounting.SentNeverOverstated` | internal/infra/postgres/client.go:301-316 | Even when increments fail, `sent_count` never exceeds the number of delivered recipients. |
| `ChunkMail.MailsPerRecipient` | internal/worker/email/handler.go:612-676 | Over every run and for every single recipient, SES accepts a mail exactly once if its row is delivered or about to be, plus once for each of its `sent` writes that failed or that the handler died before. |
| `ChunkMail.MailedOnce` | internal/worker/email/handler.go:622-632 | A recipient none of whose `sent` writes was lost is mailed at most once, and exactly once if its row is delivered. |
| `ChunkCompletion.CompletedOnce` | internal/infra/postgres/client.go:321-336 | In every run `MarkCampaignComplete` reports the transition at most once, exactly once if the campaign is completed, and `completed` means that the counters reached the total. |
| `ChunkCompletion.CompletionExactly` | internal/worker/email/handler.go:529-598 | With writes succeeding, once every chunk is acked or dead-lettered every recipient is terminal; if the total is stored, the campaign is completed if and only if some handler checked after that, so in particular if the counters were short of the total when it was stored. |
| `ChunkCompletion.NeverCompletes` | internal/worker/email/handler.go:529-558 | A campaign that has no chunk left and is not completed stays so whatever happens. |
| `ChunkExactness.NothingRecounted` | internal/worker/email/handler.go:627-663 | On runs without redelivery of a chunk that holds a permanent failure, no failed row is ever tried or counted again. |
| `ChunkExactness.Exactness` | internal/worker/email/handler.go:505-598 | On such runs `failed_count` + pending equals the failed rows, and `completed` implies that every recipient is terminal. |
| `ChunkExactness.TerminalExactly` | internal/worker/email/handler.go:505-598 | On every run, whatever fails: every recipient is terminal if and only if the outcomes seen (counted, held by handlers or lost on the way) cover the rows, the outcomes whose row write failed, and the statements that opened a failed row again or dead-lettered a row with an outcome. |
| `ChunkExactness.CompletedTooEarlyExactly` | internal/infra/postgres/client.go:321-336 | A campaign completed with no handler at work has recipients left to serve if and only if its counters, with lost increments, fall short of its total, the unwritten outcomes and those statements; with writes succeeding, if and only if sent + failed falls short of the total plus those statements. |
| `ChunkExactness.CompletedTooEarly` | internal/worker/email/handler.go:627-644 | A concrete run with no failing write in which a redelivered permanent failure is counted twice and the campaign is completed with a recipient still queued. |
| `ChunkExactness.StuckInProgress` | internal/infra/postgres/client.go:277-290 | A concrete run in which the only chunk is done before the total is stored, and the campaign stays in progress in every continuation. |
| `ChunkHandler.Cluster.GetRecipientStatus` | internal/worker/email/handler.go:622-632 | A failed status check makes the recipient transient; `sent` and `bounced` are skipped; anything else goes on to the rate limit. |
| `ChunkHandler.Cluster.AcquireToken` | internal/worker/email/handler.go:634-639 | A rate-limit refusal makes the recipient transient. |
| `ChunkHandler.Cluster.MarkRecipientSending` | internal/worker/email/handler.go:641-644 | The row of an undelivered recipient becomes `sending`, and an error makes the recipient transient. |
| `ChunkHandler.Cluster.SendEmail` | internal/worker/email/handler.go:646-671 | SES is asked for this recipient; acceptance leads to the `sent` write, a permanent error to the `failed` write, a transient one to a retry. |
| `ChunkHandler.Cluster.MarkRecipientSent` | internal/worker/email/handler.go:673-679 | An accepted recipient counts as sent whether or not the row write succeeds; if it does the row is `sent`. |
| `ChunkHandler.Cluster.MarkRecipientFailed` | internal/worker/email/handler.go:659-668 | A permanent failure is counted whether or not the row write succeeds; if it does the row is `failed`. |
| `ChunkHandler.Cluster.ProcessRecipient` | internal/worker/email/handler.go:612-680 | Under any interference and any failures: whether SES is asked, the outcome returned, the status the row is left with, and that no other row is written. |
| `ChunkHandler.Cluster.IncrementCounts` | internal/worker/email/handler.go:529-544 | A failed increment naks with the outcomes lost; otherwise exactly these outcomes are added to the row as it was then, and the returned values decide whether completion is tried. |
| `ChunkHandler.Cluster.MarkComplete` | internal/infra/postgres/client.go:321-336 | Reports true if and only if this very statement made the transition, and then none made it before; the row it leaves is completed and otherwise unchanged. |
| `ChunkHandler.Cluster.Finish` | internal/worker/email/handler.go:559-597 | Ack without transient recipients, nak with, dead-letter loop on the last delivery. |
| `ChunkHandler.Cluster.FailTransients` | internal/worker/email/handler.go:565-574 | The final delivery’s loop counts exactly the recipients whose `failed` write succeeded, and fails those of them that were not delivered. |
| `ChunkHandler.Cluster.DeadLetter` | internal/worker/email/handler.go:560-587 | The dead-letter path ends with the message terminated, the recipients failed that could be, and, undisturbed, their number added and completion tried. |
| `ChunkHandler.Cluster.ProcessAll` | internal/worker/email/handler.go:505-527 | The loop returns exactly the numbers of recipients sent and failed and the list to retry, as row status, calls and SES replies decide them for each; SES was asked for exactly the undelivered recipients that nothing stopped, in order; every row is left as its recipient’s fate says. |
| `ChunkHandler.Cluster.Handle` | internal/worker/email/handler.go:462-598 | For every pattern of failures and whatever others do: which recipients SES is asked for, in order; the status each row is left with (others can only add a bounce); ack, nak or term; undisturbed also the exact counters, total and completion, and that no other row changes. And the call is a run of the machine that leaves the conservation laws true. |
| `ChunkHandler.Cluster.Sound` | internal/worker/email/handler.go:462-598 | Every state of the imperative cluster satisfies the machine’s invariant. |
| `ChunkHandler.FatesPartition` | internal/worker/email/handler.go:505-527 | Every recipient of a delivery is sent, skipped, failed or retried, exactly one of them; if nothing is refused before SES, those asked for are the sent, the failed and the retried. |
| `ChunkHandler.PlainDelivery` | internal/worker/email/handler.go:505-527 | With no refused call SES is asked for exactly the recipients whose row is not delivered, and there is something to retry if and only if it refuses one of them transiently. |
| `CampaignLifecycle.Lifecycle` | internal/infra/postgres/client.go:277-360 | From a new row, any campaign updates in any order: a terminal status comes with `completed_at`, `completed` means total 0 or sent + failed ≥ total, and a terminal status never changes again. |
| `CampaignLifecycle.SoundAlways` | internal/infra/postgres/client.go:277-360 | The same invariant from any sound row. |
| `CampaignLifecycle.TerminalForEver` | internal/infra/postgres/client.go:321-360 | `completed` and `failed` are absorbing, and their total stays. |
| `CampaignLifecycle.StatusGraph` | internal/infra/postgres/client.go:277-360 | Which update changes the status, from where, to where and under which condition, and what becomes of the total, the counters and `completed_at`. |
| `CampaignLifecycle.CountersAddUp` | internal/infra/postgres/client.go:301-316 | In any order of updates the counters are exactly the sums of the increments. |
| `CampaignLifecycle.RecipientGraph` | internal/infra/postgres/client.go:428-464 | Which status each guarded recipient update leaves, by the status it finds; no other row changes. |
| `KeysetScan.NeverTwice` | internal/infra/postgres/client.go:221-255 | However the table changes between pages, the visited ids strictly increase, so none comes twice. |
| `KeysetScan.StableVisited` | internal/infra/postgres/client.go:221-255 | An id that is eligible whenever a page is fetched is visited. |
| `KeysetScan.VisitedWasThere` | internal/infra/postgres/client.go:221-255 | Only ids eligible when some page was fetched are visited. |
| `KeysetScan.FrozenScan` | internal/infra/postgres/client.go:221-255 | On a frozen table the pages concatenate to the sorted eligible ids above the cursor. |
| `KeysetScan.PageComplete` | internal/infra/postgres/client.go:235-241 | What a page leaves out comes after it, and it leaves something out only if it is full. |
| `KeysetScan.PagesArePaged` | internal/worker/email/batcher.go:108-167 | All pages but the last are full and none is empty. |
| `KeysetScan.PageCount` | internal/worker/email/batcher.go:108-167 | The number of pages is the number of ids divided by the page size, rounded up. |
| `Batcher.CampaignStore.Upsert` | internal/infra/postgres/client.go:393-405 | A contact has one row id for ever; other rows are untouched; ids are never reused. |
| `Batcher.CampaignStore.BulkInsert` | internal/infra/postgres/client.go:376-413 | All or nothing: existing rows keep id and status, new ones are queued, and the ids come back in the order of the contacts. |
| `Batcher.CampaignStore.Publish` | internal/worker/email/batcher.go:148-150 | A message id is stored once; later content under the same id is dropped. |
| `Batcher.CampaignStore.StreamAndChunk` | internal/worker/email/batcher.go:99-170 | On a changing segment and with failures anywhere: which messages are stored and with which row ids, which contacts have rows, the totals returned, and which fault each error points to. |
| `Batcher.ChunksPartition` | internal/worker/email/batcher.go:108-167 | Chunks of an unchanged segment are its ids in order, each once, only the last chunk short, none empty, their number ⌈n / chunkSize⌉. |
| `Batcher.RunKeepsConsistent` | internal/worker/email/batcher.go:99-170 | Each run, however it ends, leaves rows and messages that agree with the chunks of the segment, and a run that gets through leaves them complete. |
| `Batcher.Recover` | internal/worker/email/batcher.go:191-243 | Any number of crashed runs followed by one that gets through leaves the rows and chunk messages of one clean run, and returns the segment’s size and chunk count; one does get through if nothing goes wrong in it. |
| `Batcher.DispatchedIsFinal` | internal/worker/email/batcher.go:95-98 | A run on a complete store changes no row and no message. |
| `Batcher.GoodExactly` | internal/worker/email/batcher.go:95-98 | A run that got through leaves the store of one clean run if and only if the store before it held no contact from outside the segment and no message that disagrees with the segment’s chunks. |
| `Batcher.Rerun` | internal/worker/email/batcher.go:99-170 | One run on any store returns the segment’s size and chunk count if it gets through, and then the store is that of one clean run exactly if it was consistent before. |
| `Batcher.DedupLosesContact` | internal/worker/email/batcher.go:148-150 | If the segment changed between a crashed run and its rerun, a contact can have a row and no message while another is in two messages. |
| `CampaignStart.Handle` | internal/worker/email/batcher.go:191-273 | Terminal campaigns are left alone; otherwise the message is acked only after all chunks went out and the total was stored, and is acked if nothing fails; the campaign is then in progress with that total, or completed if it is 0. A nak leaves the campaign row as it was. |
| `CampaignStart.HandOver` | internal/worker/email/batcher.go:191-273 | What the batcher leaves is a well-formed plan: every row in exactly one place of one chunk, no empty chunk, and the stored total is the number of rows. |
| `CampaignStart.Launch` | internal/worker/email/batcher.go:191-273 | From an unused store, however many runs fail before one gets through, the store is an initial state of the chunk machine for the recipients of the segment. |
| `TokenBucket.TokensInRange` | internal/ratelimit/token_bucket.go:41-54 | Tokens stay between 0 and capacity, whatever the clock does. |
| `TokenBucket.AdmissionBound` | internal/ratelimit/token_bucket.go:32-55 | In any window of any history, even with a clock that goes back, admissions cost at most capacity + rate × the forward clock steps inside the window. |
| `TokenBucket.AdmissionBoundMonotone` | internal/ratelimit/token_bucket.go:32-55 | With a monotone clock the bound is capacity + rate × the window’s length. |
| `TokenBucket.AdmittedExactly` | internal/ratelimit/token_bucket.go:26-56 | For any history and any clock: a call is admitted if and only if in every stretch of the history that ends with it the admissions and this call cost no more than a full bucket and what the clock has added since, nor, from the start, than the bucket then held. |
| `TokenBucket.BurstExactly` | internal/ratelimit/token_bucket.go:73-85 | Of the calls that come in one millisecond to an unused bucket exactly the first `ratePerSec` are admitted, or the first one if that is less than one. |
| `TokenBucket.DenialsAreFree` | internal/ratelimit/token_bucket.go:41-49 | With a monotone clock, leaving any denied calls out of a history changes no other reply. |
| `TokenBucket.ExpiryUnobservable` | internal/ratelimit/token_bucket.go:47-54 | With a monotone clock no caller can tell that idle keys expire. |
| `TokenBucket.WaitIsTight` | internal/ratelimit/token_bucket.go:45-49 | With no other consumer a call `d` ms after a denial succeeds if and only if `d` is at least the wait, which is between 1 and 1000 ms. |
| `Limiter.Buckets.Run` | internal/ratelimit/token_bucket.go:26-56 | The script’s read-refill-write on one key is the step that `AdmittedExactly` is about, and other keys are untouched. |
| `Limiter.Buckets.TryAcquire` | internal/ratelimit/token_bucket.go:83-98 | One attempt against rivals: an error, one token, or a denial after whose wait every call is admitted if nobody else calls. |
| `Limiter.Buckets.Acquire` | internal/ratelimit/token_bucket.go:102-126 | `Acquire` terminates, waits at most `maxWait` in total, touches no other key, takes one token if it succeeds and none otherwise, gives up only after a denial whose wait would end too late, a Redis error or the end of the context, and uncontended succeeds after at most one wait if the budget covers a second and the scheduling delays. |
| `Limiter.DenialPromises` | internal/ratelimit/token_bucket.go:45-49 | A denial’s wait, if nobody else calls, is followed by an admission. |
| `WorkflowWalk.RunIsTicks` | internal/worker/workflows/executor.go:65-128 | A run that stops or pauses did what that many steps of the uninterrupted walk do: same mails, same place. |
| `WorkflowWalk.PauseResume` | internal/worker/workflows/executor.go:50-151 | After the trigger’s run and any number of resumes the mails published are, in order, those of the uninterrupted walk up to the stored place; a waiting execution is stored at a delay node; a finished one has the walk’s ending. |
| `WorkflowWalk.ResumesFinish` | internal/worker/workflows/executor.go:133-151 | Conversely, if the walk is over after n nodes, so is the execution after that many resumes, with the same mails and ending. |
| `WorkflowWalk.EveryRunStops` | internal/worker/workflows/executor.go:65-128 | If the uninterrupted walk ends, every run of the execution stops. |
| `WorkflowWalk.StopsByPigeonhole` | internal/worker/workflows/executor.go:65-128 | A run that has not stopped within one node more than the workflow has never stops, and that happens exactly if some node comes back. |
| `WorkflowWalk.RunsOutExactly` | internal/worker/workflows/executor.go:65-128 | A run is still going after n nodes if and only if n trigger or email nodes follow one another. |
| `WorkflowWalk.LoopsForEver` | internal/worker/workflows/executor.go:65-128 | A node that comes back once comes back for ever. |
| `WorkflowWalk.MailsOnce` | internal/worker/workflows/executor.go:204-205 | A run that stops publishes only mails of nodes it comes to, each at most once. |
| `WorkflowExecutor.BuildNodeMap` | internal/worker/workflows/executor.go:216-222 | Builds the index that `IndexedLast` is about. |
| `WorkflowExecutor.IndexedLast` | internal/worker/workflows/executor.go:216-222 | An id stands for the last node of the list that has it, and for none if no node has it. |
| `WorkflowExecutor.ExecutionStore.ExecuteEmail` | internal/worker/workflows/executor.go:153-213 | Publishes exactly one mail, or none: no subject, neither body or a refused call is an error, a contact without address is none. |
| `WorkflowExecutor.ExecutionStore.ExecuteNode` | internal/worker/workflows/executor.go:65-128 | One pass of the loop: the row and the outbox after it, whether it stops, and that the rest of the run starts from there. |
| `WorkflowExecutor.ExecutionStore.Run` | internal/worker/workflows/executor.go:50-129 | For any pattern of refused calls: the row, the mails and the result of the whole run; no other row changes. |
| `WorkflowExecutor.ExecutionStore.ResumeFromDelay` | internal/worker/workflows/executor.go:133-151 | The same for a resume through the stored current node. |
| `WorkflowExecutor.RunsAlong` | internal/worker/workflows/executor.go:65-128 | Along any path of nodes as the workflow is drawn (triggers, and email nodes with a subject and a body, each naming the next): a run whose calls succeed publishes the mails of its email nodes in order, if the contact has an address, and the last node decides: waiting with its due time, completed, or an error. |
| `WorkflowExecutor.PathOfRun` | internal/worker/workflows/executor.go:65-128 | Every run that stops or pauses has such a path, and the walk ends where it does. |
| `WorkflowExecutor.NewRunsAlong` | internal/worker/workflows/executor.go:53-57 | The run of a new execution starts at the first node of the list. |
| `WorkflowExecutor.RefusedCalls` | internal/worker/workflows/executor.go:65-128 | A refused call leaves row and outbox alone, except that a mail already published stays published when the execution then cannot be moved. |
| `WorkflowExecutor.RunRefinesWalk` | internal/worker/workflows/executor.go:65-128 | When its calls succeed, the run publishes the walk’s mails and pauses (with the due time), completes or fails where the walk does. |
| `WorkflowExecutor.WaitsAtDelay` | internal/infra/postgres/client.go:1050-1057 | A row is left waiting only at a delay node, with its due time, and only if the run says so. |
| `WorkflowExecutor.FaultsOnlyTruncate` | internal/worker/workflows/executor.go:65-128 | Refused calls cut the published mails short; they never change or reorder them. |
| `WorkflowExecutor.TriggerRefines` | internal/worker/workflows/executor.go:50-129 | The trigger’s run on the stored row is the first session of the walk. |
| `WorkflowExecutor.ResumeRefines` | internal/worker/workflows/executor.go:133-151 | A resume on the stored row is the next session of the walk. |
| `WorkflowExecutor.Execute` | internal/worker/workflows/executor.go:50-151 | One trigger run and any number of resumes on the store: the mails published are, in order, those of the uninterrupted walk up to where the row stands, and a finished row has the walk’s ending. `PathOfRun` says what that walk is on the nodes as drawn. |
| `WorkflowExecutor.FirstWrite` | internal/worker/workflows/executor.go:65-128 | A run leaves a new row untouched if and only if its first node cannot be executed or a call it needs is refused. |
| `WorkflowTrigger.TriggerHandler.CreateExecution` | internal/infra/postgres/client.go:998-1017 | A key gets one execution; a conflict creates nothing and is no error. |
| `WorkflowTrigger.TriggerHandler.Handle` | internal/worker/workflows/handler.go:105-209 | Every branch of one delivery: what it does to the executions, the outbox and the started runs, and how it settles its message. |
| `WorkflowTrigger.CreatorRunsAlong` | internal/worker/workflows/handler.go:153-209 | A creating delivery whose calls succeed runs the execution from the first node along the nodes ahead: the mails published, the row left (in a delay with its due time, completed or failed), and how the message is settled. |
| `WorkflowTrigger.DisposedExactly` | internal/worker/workflows/handler.go:116-222 | A message is naked exactly for a failure before the last attempt, and terminated exactly for a failure on the last one, a missing workflow or nodes that do not parse. |
| `WorkflowTrigger.DecidedByFirstCreator` | internal/worker/workflows/handler.go:153-209 | Over any deliveries of any triggers, row, mails and number of first-node runs of an execution are those of its first creating delivery alone. |
| `WorkflowTrigger.StartsAtMostOnce` | internal/worker/workflows/handler.go:153-163 | At most one first-node run per workflow, contact and event. |
| `WorkflowTrigger.StuckExactly` | internal/worker/workflows/handler.go:158-199 | Over any further deliveries an execution is stuck in `running`, at whatever node, if and only if its creating delivery did not get the lock, or could not parse the nodes or got an error from the executor and then could not record the failure. |
| `WorkflowTrigger.UntouchedExactly` | internal/worker/workflows/handler.go:158-199 | Its row stays as it was created if and only if that delivery did not get the lock, or could not record a failure that came before the first row write: bad nodes, a first node that cannot be executed, or a refused call of it. |
| `Lease.Locks.AcquireLock` | internal/infra/redis/client.go:43-52 | The command on the store is the machine’s step; whoever is granted the key is inside, a refusal means that somebody’s entry is live, and with distinct values the holder granted is the only one inside. |
| `Lease.Locks.ReleaseLock` | internal/infra/redis/client.go:56-63 | The command on the store is the machine’s step; with distinct values a holder inside frees the key, and one whose lease is over takes nothing from a holder inside. |
| `Lease.MutualExclusion` | internal/infra/redis/client.go:43-63 | At most one holder is within its lease, over any crashes and overruns, if values are distinct or nobody releases late. |
| `Lease.ReleaseIsOwnerSafe` | internal/infra/redis/client.go:54-63 | With distinct values a release never removes another holder’s entry. |
| `Lease.ExclusiveExactly` | internal/infra/redis/client.go:43-63 | No run lets two holders be within their leases together, whatever crashes and late releases there are, if and only if all holders write different values. |
| `Lease.SharedValueUnsafe` | internal/infra/redis/client.go:54-63 | For any two holders that share a value there is a run in which both are within their leases. |
| `DelaySafety.SchedulerLocksNotExclusive` | internal/worker/workflows/scheduler.go:56-87 | Neither of the scheduler’s two locks excludes. |
| `DelayMargins.NoTwiceExactly` | internal/worker/workflows/scheduler.go:55-130 | Over all runs in which polls outlive their lease by less than p ms and work on an execution outlives its lease by less than r ms, no scheduled delay is resumed twice if and only if r ≤ 0 or p ≤ 75 000. |
| `DelayMargins.NoEarlyExactly` | internal/worker/workflows/scheduler.go:55-130 | Over those runs, for any r ≥ 0, no delay is resumed before it is due if and only if p ≤ 0. |
| `DelayMargins.SlackSuffices` | internal/worker/workflows/scheduler.go:56-87 | Polls that outlive their lease by no more than 75 seconds keep every execution lease, whatever margin is allowed for these. |
| `DelaySafety.NeverEarly` | internal/infra/postgres/client.go:1089-1096 | If polls stay within the scheduler lease no delay is resumed before it is due. |
| `DelaySafety.EarlyMeansRescheduled` | internal/worker/workflows/scheduler.go:114-118 | In any run whatever, a delay is resumed early only by a poll that had fetched the execution for an earlier delay, since the re-check does not look at the due time. |
| `DelayMargins.OverrunResumesEarly` | internal/worker/workflows/scheduler.go:114-118 | However small the overrun allowed to polls, and with every execution lease kept, there is a run in which a delay is resumed hours early. |
| `DelayMargins.OverrunResumesTwice` | internal/worker/workflows/scheduler.go:114-118 | With more overrun than 75 seconds for polls and any for execution leases there is a run in which one delay is resumed twice. |
| `DelaySafety.BasicsAlways` | internal/worker/workflows/scheduler.go:55-130 | Workers poll exactly while they think they hold the scheduler lock, work on an execution exactly while they think they hold its lock, and what a poll holds was due when fetched. |
| `DelaySafety.SpentByResumeLeases` | internal/worker/workflows/scheduler.go:87-118 | Under kept execution leases, a re-checked row is still waiting when it is written, and no resumed delay is still on. |
| `DelaySafety.SpentByPollLease` | internal/worker/workflows/scheduler.go:55-82 | Under a kept scheduler lease, a poll’s queue holds different executions, all still in the delay they were fetched for. |
| `DelayScheduler.Cluster.ResumeFromDelay` | internal/worker/workflows/scheduler.go:120-125 | The executor’s row writes are steps of the machine; an error leaves the execution to the caller’s failure path; undisturbed, the execution leaves its delay, no other is touched, and with granted calls it is left as the nodes ahead say: in the next delay, due when that has passed, completed, or failed. |
| `DelayScheduler.Cluster.Resume` | internal/worker/workflows/scheduler.go:84-130 | Under any interference one resume extends the run, takes one execution off the queue and gives its lock back; undisturbed, an execution still in its delay is taken out of it, once, left as its workflow says, or failed if the workflow is gone, and no other is touched. |
| `DelayScheduler.Cluster.PollDue` | internal/worker/workflows/scheduler.go:55-82 | Under any interference a poll is a run of the machine and ends without the scheduler lock. An undisturbed poll takes exactly the executions it fetched out of the delays they were in, leaves each as its workflow says (next delay and due time, completed, failed) with its lock free, touches nothing else, and leaves the scheduler lock free. |
| `DelayScheduler.Cluster.ResumeAll` | internal/worker/workflows/scheduler.go:75-81 | The loop of the poll: undisturbed, it serves the whole batch in order. |
| `DelayScheduler.ServedNext` | internal/worker/workflows/scheduler.go:75-81 | After i executions and one more the first i + 1 of the batch have left their delays as their workflows say and all others are as before. |
| `DelayScheduler.DueAreTaken` | internal/worker/workflows/scheduler.go:55-82 | Of the executions that had come due when an undisturbed poll asked, each is out of its delay, or the fifty that had been due longest are. |
| `DelayScheduler.ResumeLeaves` | internal/worker/workflows/executor.go:133-151 | What the executor answers is what the nodes ahead of the delay say. |
| `DelayScheduler.ResumeShapes` | internal/worker/workflows/executor.go:133-151 | The executor leaves a waiting row alone and fails, or completes it, or advances it and then pauses, completes or abandons it. |
| `Evaluator.EvalMeans` | internal/worker/segments/evaluator.go:65-119 | On a tree whose conditions do not err and whose groups are AND or OR, the evaluator computes the order-free meaning; a missing tree matches everybody. |
| `Evaluator.ColumnMeans` | internal/worker/segments/evaluator.go:164-181 | Under each of its names, a condition on one of the seven columns says what its operator says of that column, whatever the other columns hold. |
| `Evaluator.PropertyMeans` | internal/worker/segments/evaluator.go:183-210 | A condition on `properties.a` is about the value under `a`, one on `properties.a.b` about the field `b` of that object, and about nothing if there is none. |
| `Evaluator.EventMeans` | internal/worker/segments/evaluator.go:70-86 | `exists` and `occurred_within_days` on `event:x` ask whether the contact has performed x, `not_exists` whether not, and no other operator ever matches. |
| `Evaluator.OtherFieldsAreMissing` | internal/worker/segments/evaluator.go:186 | Any other field counts as missing. |
| `Evaluator.ConditionSays` | internal/worker/segments/evaluator.go:121-262 | The meaning of each of the eleven operators on a present or missing value, stated without the comparison helpers. |
| `Evaluator.CaseLaws` | internal/worker/segments/evaluator.go:93-119 | Case folding touches the 26 letters and nothing else, and group operators ignore case. |
| `Evaluator.FirstDecider` | internal/worker/segments/evaluator.go:94-115 | Exact short-circuit semantics, errors included: the first child that errs or has the absorbing value gives the result. |
| `Evaluator.OrderIrrelevant` | internal/worker/segments/evaluator.go:94-115 | Every order of a group’s children gives the same verdict if and only if the children that decide agree. |
| `Evaluator.RearrangedAlike` | internal/worker/segments/evaluator.go:89-119 | Rearranging the children of any groups at any depth of an error-free tree changes nothing. |
| `Evaluator.ErrorsMakeOrderMatter` | internal/worker/segments/evaluator.go:94-103 | Two children, one of which errs, give an error in one order and false in the other. |
| `Evaluator.DesugarKeeps` | internal/worker/segments/evaluator.go:121-160 | Rewriting every `in` and `not_in` of a tree into groups of `equals` and `not_equals` leaves the verdict of every contact, with missing and `event:` fields and errors included. |
| `Evaluator.DesugarRemovesLists` | internal/worker/segments/evaluator.go:249-262 | That rewriting leaves no membership condition except on an empty list. |
| `Evaluator.ContainsIsInfix` | internal/worker/segments/evaluator.go:219-221 | Containment is the existence of a text before and after. |
| `Evaluator.SplitAtDot` | internal/worker/segments/evaluator.go:200-209 | A property key is split at its first dot and nowhere else. |
| `SegmentRefresh.StreamContactsForEval` | internal/infra/postgres/client.go:874-927 | The paging loop with the handler’s callback computes the scan: the matching contacts, or a failure if a query or the filter fails. |
| `SegmentRefresh.MatchPage` | internal/worker/segments/handler.go:184-193 | A page yields its matching contacts, or fails if the filter errs for one of them. |
| `SegmentRefresh.StableFound` | internal/infra/postgres/client.go:874-927 | On a changing table, a contact that is there and matches throughout is found. |
| `SegmentRefresh.FoundMatched` | internal/infra/postgres/client.go:874-927 | On a changing table, only contacts that were there and matched when their page was fetched are found. |
| `SegmentRefresh.ScanSucceeds` | internal/infra/postgres/client.go:874-927 | A scan fails only if a query fails or the filter errs for some contact. |
| `SegmentRefresh.ScanFails` | internal/infra/postgres/client.go:874-927 | A scan does fail if there is a contact throughout for which the filter errs. |
| `SegmentRefresh.Diff` | internal/worker/segments/handler.go:258-266 | The keys of one set that are not in the other, each once. |
| `SegmentRefresh.SegmentStore.InsertSegmentMembers` | internal/infra/postgres/client.go:814-832 | One transaction: all ids become members, or none; an empty list cannot fail. |
| `SegmentRefresh.SegmentStore.DeleteSegmentMembers` | internal/infra/postgres/client.go:835-852 | One transaction: all ids are removed, or none; an empty list cannot fail. |
| `SegmentRefresh.SegmentStore.Handle` | internal/worker/segments/handler.go:107-242 | Every branch of one delivery: the segment’s status, count and members afterwards, and how the message is settled. |
| `SegmentRefresh.RefreshExactly` | internal/worker/segments/handler.go:107-259 | Exactly when a delivery runs to its end, is acked, naked or terminated, and the status it leaves behind. |
| `SegmentRefresh.IndexAgrees` | internal/worker/segments/handler.go:182-242 | A refresh that ran to its end leaves as members exactly the contacts that match, their number as the count, and the segment ready. |
| `SegmentRefresh.NeverOutside` | internal/worker/segments/handler.go:211-222 | Wherever a refresh stops, and however the contacts change meanwhile, old ∩ new ⊆ members ⊆ old ∪ new, where new is what its scan found. |
| `SegmentRefresh.SuccessIsGoal` | internal/worker/segments/handler.go:198-233 | A refresh that ran to its end leaves exactly what its scan found, and its number as the count, changing contacts or not. |
| `SegmentRefresh.StaysInBounds` | internal/worker/segments/handler.go:107-242 | Over any number of refreshes on changing contacts, each stopping anywhere, the members lie between the intersection and the union of what was found since the last refresh that ran to its end. |
| `SegmentRefresh.Converges` | internal/worker/segments/handler.go:107-242 | On unchanging contacts any number of refreshes each stopping anywhere stay between old and new, and from the first that ran to its end on the members are the matching contacts. |
| `SegmentRefresh.SecondWritesNothing` | internal/worker/segments/handler.go:208-222 | Refreshing an up-to-date segment inserts and deletes no membership. |
| `TransactionalSend.Worker.Process` | internal/worker/email/handler.go:171-275 | Every branch from the status check to the settlement: row, acceptances, dead letters, and the mail that went out. |
| `TransactionalSend.Worker.Handle` | internal/worker/email/handler.go:141-276 | One delivery as a step of the send’s machine. |
| `TransactionalSend.DeliveryOutcome` | internal/worker/email/handler.go:171-275 | Row, acceptances, dead letters, settlement and what the broker keeps after each delivery, by status, calls and SES reply. |
| `TransactionalSend.FirstReplyDecides` | internal/worker/email/handler.go:212-276 | If nothing but SES fails, its first reply that is not transient decides the send, and six transient ones fail and dead-letter it. |
| `TransactionalSend.AtMostOneKept` | internal/worker/email/handler.go:171-275 | Over any deliveries, failures and bounces of a send that has its row, at most one SES acceptance leaves a trace: each further one needs both the `sent` write and the settlement of the one before to be lost. |
| `TransactionalSend.DeliveredForEver` | internal/infra/postgres/client.go:175-202 | `sent` and `bounced` are never left for `sending` or `failed`, and nothing is accepted after them. |
| `TransactionalSend.DoubleLossRepeats` | internal/worker/email/handler.go:259-267 | The bound is tight: n double losses can bring n acceptances. |
| `TransactionalSend.MissingRowRepeats` | internal/infra/postgres/client.go:162-173 | Without a row a lost settlement alone repeats the acceptance. |
| `TransactionalSend.BoundExactly` | internal/infra/postgres/client.go:162-202 | Every run accepts at most once more than it loses both traces if and only if the send starts with a row. |
| `TransactionalSend.LastDeliveryDecides` | internal/worker/email/handler.go:187-276 | At the end of every message, settled or out of deliveries: the send ends with an outcome if and only if a bounce comes later, or its last delivery reached SES and its row write succeeded, or did not reach SES and the row had an outcome already; and it is dead-lettered by that delivery if and only if SES refused it transiently. |
| `TransactionalSend.UnwrittenSentIsLost` | internal/worker/email/handler.go:259-275 | An accepted mail whose `sent` write fails is acked after one delivery and its row stays `sending`. |
| `TransactionalSend.LimiterLosesMessage` | internal/worker/email/handler.go:187-192 | Six rate-limit denials leave a queued send with no outcome and no dead letter. |
| `Renderer.StrippedHasNoTag` | internal/worker/email/renderer.go:52 | After tag stripping no `<` is followed by a `>`, so no tag match remains. |
| `Renderer.NormalisedIsNormal` | internal/worker/email/renderer.go:61-63 | Whatever the input, the text comes out with no tabs or carriage returns, no two adjacent spaces, no three adjacent newlines and no outer whitespace. |
| `Renderer.FixedExactlyIfNormal` | internal/worker/email/renderer.go:61-63 | Normalisation leaves a text alone if and only if it is in normal form, so it is idempotent. |
| `Renderer.NormaliseKeepsInk` | internal/worker/email/renderer.go:61-63 | Normalisation loses, adds and reorders nothing but white space. |
| `Renderer.BlankRun` | internal/worker/email/renderer.go:61 | A run of blanks becomes one space, whatever surrounds it. |
| `Renderer.LineRun` | internal/worker/email/renderer.go:62 | A run of newlines is cut to two, whatever surrounds it. |
| `Renderer.TrimsOuterSpace` | internal/worker/email/renderer.go:63 | Trimming removes the outer white space and nothing else. |
| `Renderer.NothingToStrip` | internal/worker/email/renderer.go:52-60 | Text without a tag and text without an ampersand come through as they are. |
| `Renderer.DocumentRoundTrip` | internal/worker/email/renderer.go:51-64 | Of any document made of escaped text, `&nbsp;` and tags, the fallback yields exactly the text with a blank for each tag, whitespace-normalised, with every other character in its place. |
| `Renderer.TextRoundTrip` | internal/worker/email/renderer.go:53-64 | Escaped text comes back as its normal form, and unchanged if it is in normal form, because decoding is single-pass. |
| `Renderer.RenderFailsOnlyUnvalidated` | internal/worker/email/renderer.go:33-46 | Rendering fails for exactly the payloads without a body, never touches a given text or the HTML, trims the subject and nothing else, and generates text in normal form. |
| `Renderer.IndexOf` | internal/worker/email/renderer.go:26 | Finds the first occurrence, or none if there is none. |

## Left out

- internal/worker/events: identity stitching rests on unique indexes of a schema that is not in the repository.
- Domain verification, the two cleanup sweepers, payload validators, `nextDelay` and the register handler: one-branch claims only.
- NATS, Redis, Postgres and SES transport, JSON decoding, logging, metrics, configuration: modelled only as calls that succeed or fail.
- Delivery events and the content of dead-letter messages: published without effect on any modelled state.
- `failAllRecipients` (internal/worker/email/handler.go:682-703): never reached, because the payload check refuses the only payloads for which rendering fails (`Renderer.RenderFailsOnlyUnvalidated`).
- A crash between a statement's effect and its reply is covered as a lost settlement or a crash step, but an SES acceptance whose reply is lost counts as a transient error.
- Back-off delays and acknowledgement timeouts: redelivery is nondeterministic within the delivery limit.
- Float rounding in the token bucket, and infinities and not-a-number in numeric filters.
- `%v` formatting, number and time parsing: a value carries its text and, if it has one, its number.
- Unicode: case folding and whitespace are ASCII; a JSON `null` in a list of rules, which the source does not survive, is not a tree of the model.
- The campaign row's changes by others while the start handler runs: its final guarded update is atomic in the model as in the source.
- The trigger handler's own lock on an execution is not part of `DelayMachine`: it could only make the scheduler skip an execution.
- The 10-minute lease of a segment refresh: refreshes that outlive it and overlap are not modelled.
- The cursor loop's context check in StreamAndChunk is one more way for a page to fail.
- DelayScheduler.Cluster.FetchDueExecutions: the query's answer is an input that counts as an error unless it is the right answer, so the sorting inside Postgres is specified and not computed.
