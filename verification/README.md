# Verified model of the API gateway and its analysis workers

The repository is a Go gateway that relays LLM traffic and captures it, and a set of Python
workers that analyse what was captured. This project models the parts of it that are hard to get
right and proves, for all inputs and all runs, what they guarantee.

- **The analysis-task protocol.** Two Redis streams, the `analysis_tasks` lease rows, the stage
  columns of `traces`, the dead-letter stream and every handler that is part-way through a message
  form one state machine (`Protocol.dfy`). A step is one commit, one stream command or one crash.
  Steps of different handlers interleave freely; any un-acknowledged message may be delivered again
  at any time, and every clock reading is arbitrary. `ProtocolInvariant.dfy` has the inductive
  invariant, `ProtocolRetries.dfy` the one about attempts and worker ids, `ProtocolResults.dfy` the
  theorems. `ProtocolClock.dfy` adds a clock: `ProtocolEndings.dfy` says which endings each reachable
  state can still reach from a given time on. What can happen is shown on runs whose readings go
  forward and whose leases do not end before they begin; what cannot is shown for all runs whose
  readings are at that time or later, in any order, since `now()` is the start of a transaction and
  a transaction may have been open for a while. `ProtocolExamples.dfy` has runs in which the protocol goes wrong. `TaskStore.dfy` is the lease table
  with its guarded statements, and `Handler.dfy` is `_process_stream_message` as code whose every
  effect is a protocol step, which lets other handlers run between any two statements, and which
  keeps a tally of its own acknowledgements, commits, dead letters and requeued messages.
- **The batch scheduler** (`BatchScheduler.dfy`): ready, delayed and running messages under a bound
  on concurrency and a monotone clock.
- **Usage rollup** (`UsageRollup.dfy`, `UsageStore.dfy`): facts, the full rebuild, the windowed
  rebuild.
- **Streaming** (`Relay.dfy`, `Sse.dfy`, `ChatAssembly.dfy`, `ClaudeAssembly.dfy`,
  `ChatPipeline.dfy`): the relay loop, the event-stream line parser (a subset of sections 9.2.5 and
  9.2.6 of the WHATWG HTML Standard), the two extractors, and the chat path from end to end.
- **Work relevance** (`WorkRelevance.dfy`): evidence, scores, the judge and its fallback.
- **Message reference counts** (`MessageCounts.dfy`), the **rate limiter** (`RateLimiter.dfy`), the
  **pending scans** (`PendingScan.dfy`), **listings** (`Listing.dfy`).

`dafny verify dfyconfig.toml` checks everything.

## What does not hold

Each of these is shown by a concrete case and comes with the exact condition.

- *A stale handler can end another handler's lease.* The `mark_*` statements compare worker ids
  only. Two processes with one `ANALYSIS_WORKER_ID` share an id
  (`workers/analysis_worker/main.py:323-327`), and so do two entries of one task in one batch, the
  second of which may be held back by its backoff until the first lease has lapsed. A handler whose
  lease lapsed can then mark the task retryable while another handler with that id is on the last
  attempt; the task is `failed_retryable` with no attempts left and nothing will ever claim it
  (`SharedWorkerIdStrandsTask`, `StrandedRetryableStays`). It happens exactly when the marking
  claim is stale and the task was since claimed for the last time (`RetryMarkStrandsExactly`), and
  not when no worker id has two live claims on one task (`OnlyLastLeaseStrands`).
- *The windowed rebuild is not the full rebuild on the bucket in progress at the cutoff.* It
  overwrites the hour and the day row that contain the cutoff with their in-window part
  (`RecentUndercountsToday`). A row is right exactly when it has in-window traffic and none before
  the cutoff, or it has no in-window traffic and its bucket starts in the window or its old row was
  right already (`RecentIsRightExactly`, `RecentIsRightForJobsExactly`).
- *The anomaly listing can show a row twice and another never.* It sorts by `created_at` alone, all
  anomalies of one transaction share that value, and each page query may order them anew
  (`AnomalyPagesCanRepeat`). Every choice of orders shows each row once exactly when no two
  anomalies with one creation time stand on either side of a page end
  (`AnomalyPagesShowOnceExactly`). The trace listing has a tie-breaker and is always right
  (`TracePagesShowEverything`).
- *Assembling a chat response panics on sparse tool-call indices.* It does so exactly when some
  index seen is negative or not below the number of indices seen (`AssembleSSE`,
  `SparseIndexPanics`); never when each new index is at most the number seen so far
  (`InOrderIsSafe`).
- *`occurrence_count` can exceed the number of references by one*, exactly when the save that
  created the message found its slot taken (`CountsExactly`, `ChangedSlotLeavesAnOrphan`).
- *A dead letter does not mean a failed task.* It is written before the row is marked. A commit that
  took effect but was reported as an error leaves one for a task that succeeded
  (`DeadLetterForSucceededTask`), and a last attempt that outlives its lease leaves one for a task
  that nothing will ever finish (`LapsedLastLeaseNeverEnds`). What a dead letter does mean is that the
  task is final or can never be claimed again (`DeadLetterIsFinalOrStranded`). From a given time on
  the task can still fail for good exactly when it has, or its lease has not lapsed by then and its
  owner has a live handler on the last attempt (`DeadLetterFailsExactly`).
- *An entry with an unknown stage does not go to the dead-letter stream*, although
  `docs/adr/0003-stream-contract-constants-and-fail-loud.md` says so. The code acknowledges and
  drops it (`workers/analysis_worker/streams.py:90-103`), and so does the model
  (`UnknownStageIsDropped`). An entry can be acknowledged without leaving a task or a dead letter
  exactly when its stage is unknown or its trace id is blank (`VanishesExactly`).

## Model

| member | source | states |
|---|---|---|
| `ProtocolResults.NoLostWork` | workers/analysis_worker/main.py:1013-1138 | In every reachable state a task that is neither succeeded nor failed for good has an un-acknowledged message of its own (trace, stage), under any interleaving, crash, lapse, redelivery or publish failure |
| `ProtocolResults.AckedIsAccountedFor` | workers/analysis_worker/main.py:990-1138 | Once a message with a known stage and a trace id is acknowledged, its task exists and is settled, or another message stands for it |
| `ProtocolResults.ClaimableIsResumable` | workers/analysis_worker/streams.py:56-106 | From every reachable state a claimable task can be claimed through a delivery of one of its own messages, leaving every other row alone |
| `ProtocolResults.HandoffIsAtLeastOnce` | workers/analysis_worker/main.py:1359-1413 | A core task that succeeded and requires enrichment has a published enrichment message, or meets the recovery test and has an un-acknowledged core message |
| `ProtocolResults.RecoveryPublishes` | workers/analysis_worker/main.py:1018-1033 | From any such state, delivering that message leads to a published enrichment message without touching any task row |
| `ProtocolResults.FinalIsAbsorbing` | workers/analysis_worker/task_store.py:55-188 | Between any two points of any run no row is lost, attempts never fall, the retry limit is fixed, and a final row never changes |
| `ProtocolResults.ResultsCommitOnce` | workers/analysis_worker/main.py:1053-1075 | The results of a (trace, stage) have been committed exactly once if its task succeeded and never otherwise |
| `ProtocolResults.DeadLettersComeFirst` | workers/analysis_worker/main.py:1080-1111 | A task that failed for good has a dead letter; a task with a dead letter has used all its attempts |
| `ProtocolResults.RetriesAreBounded` | workers/analysis_worker/main.py:1112-1135 | Attempts never exceed the limit; a task's requeued messages never outnumber its claims and stay below the limit |
| `ProtocolResults.StaleClaimIsFenced` | workers/analysis_worker/main.py:1057-1128 | With exclusive worker ids, only the handler with the latest claim can commit results or mark the task |
| `ProtocolResults.StrandedExactly` | workers/analysis_worker/task_store.py:55-91 | An unfinished row can never again be claimed exactly when its attempts are used up |
| `ProtocolResults.OnlyLastLeaseStrands` | workers/analysis_worker/task_store.py:55-91 | With exclusive worker ids the only tasks no clock will ever let anyone claim are those leased on their last attempt |
| `ProtocolResults.RetryMarkStrandsExactly` | workers/analysis_worker/task_store.py:133-159 | Marking a task retryable strands it if and only if the marking claim is stale and the task was since claimed for the last time |
| `ProtocolResults.StrandedRetryableStays` | workers/analysis_worker/task_store.py:55-91 | Such a row never changes again in any run |
| `ProtocolExamples.SharedWorkerIdStrandsTask` | workers/analysis_worker/main.py:323-327 | A reachable state, built step by step, in which two handlers under one worker id leave a task stranded as retryable |
| `ProtocolExamples.DeadLetterForSucceededTask` | workers/analysis_worker/main.py:1063-1094 | A reachable state in which a task has succeeded and has a dead letter |
| `ProtocolEndings.SucceedsExactly` | workers/analysis_worker/task_store.py:112-131 | From a reachable state and a time a task can still succeed if and only if it has, or is unfinished with an attempt left, or its lease has not lapsed and its owner has a live handler that has not committed; otherwise no run with readings from then on does |
| `ProtocolEndings.FailsExactly` | workers/analysis_worker/task_store.py:161-188 | It can still fail for good if and only if it has, or is unfinished with an attempt left, or its lease has not lapsed and its owner has a live handler on the last attempt; otherwise it never does |
| `ProtocolEndings.LapsedLastLeaseNeverEnds` | workers/analysis_worker/task_store.py:55-91 | A task whose last lease has lapsed never succeeds and never fails, whatever the handler that outlived it does |
| `ProtocolEndings.UnfinishedCanBeFinished` | workers/analysis_worker/main.py:1000-1138 | From every reachable state any un-acknowledged message of an unfinished task with an attempt left can settle the task as succeeded and be acknowledged, in the hands of any worker, with any lease, under a forward clock |
| `ProtocolEndings.UnfinishedCanFail` | workers/analysis_worker/main.py:1076-1135 | Such a task can also run through its remaining attempts to a terminal failure, with any worker and lease, under a forward clock |
| `ProtocolEndings.StepBackward` | workers/analysis_worker/task_store.py:55-188 | No step of anyone with a reading at a given time or later makes an ending possible that was not possible before |
| `ProtocolEndings.DeadLetterIsFinalOrStranded` | workers/analysis_worker/main.py:1080-1111 | The task of a dead letter is final or can never be claimed again |
| `ProtocolEndings.DeadLetterFailsExactly` | workers/analysis_worker/main.py:1080-1111 | It can still fail for good if and only if it has, or its lease has not lapsed and its owner has a live handler on the last attempt; otherwise it never will |
| `ProtocolEndings.WriterFailsExactly` | workers/analysis_worker/main.py:1095-1102 | Seen from the handler that wrote it: if and only if it has, or that handler's worker id owns a lease that has not lapsed |
| `ProtocolEndings.SucceedsWithDeadLetter` | workers/analysis_worker/main.py:1063-1094 | From every reachable state a task with one attempt left can end succeeded and dead-lettered, with any worker and lease, under a forward clock |
| `ProtocolClock.ElapsesFrom` | workers/analysis_worker/task_store.py:122-126 | A run under a forward clock is a run whose readings are all at its start or later |
| `ProtocolEndings.VanishesExactly` | workers/analysis_worker/streams.py:90-103 | An entry can be acknowledged without leaving a task or a dead letter if and only if its stage is unknown or its trace id is blank |
| `ProtocolEndings.UnknownStageIsDropped` | workers/analysis_worker/streams.py:90-103 | The run in which an entry with an unknown stage is acknowledged; no row, no dead letter |
| `ProtocolEndings.BlankTraceIsDropped` | workers/analysis_worker/main.py:990-996 | The same for a blank trace id |
| `ProtocolInvariant.StepPreserves` | workers/analysis_worker/main.py:977-1138 | Every step keeps the invariant (lease rows, handlers' knowledge, ledger of results and dead letters, a witness message for every unsettled task) and only evolves rows, streams and publications forward |
| `ProtocolInvariant.RunPreserves` | workers/analysis_worker/main.py:977-1138 | Along any run from a good state every state is good and evolves every earlier one |
| `ProtocolInvariant.WitnessesPreserved` | workers/analysis_worker/main.py:1112-1134 | No effect of a step leaves an unsettled task without a message whose own handler is not about to acknowledge it away |
| `ProtocolRetries.RetryStepPreserves` | workers/analysis_worker/main.py:1331-1356 | Every step keeps claim numbers distinct, requeued messages distinct and within the claims made, and unused claims without a requeue |
| `ProtocolRetries.RequeuesBounded` | workers/analysis_worker/main.py:1336-1356 | Distinct requeue numbers within the claims bound the number of requeued messages |
| `ProtocolRetries.FencingStepPreserves` | workers/analysis_worker/task_store.py:112-188 | With exclusive worker ids every step keeps the owner of a lease its latest claimant, and a retryable row claimable |
| `TaskStore.AnalysisTaskStore.constructor` | workers/analysis_worker/task_store.py:26-28 | A store bound to one worker id over a shared table |
| `TaskStore.AnalysisTaskStore.InsertTask` | workers/analysis_worker/task_store.py:30-53 | Adds a fresh row or changes nothing; rows stay well formed and only evolve |
| `TaskStore.AnalysisTaskStore.ClaimTask` | workers/analysis_worker/task_store.py:55-91 | Wins if and only if attempts remain and the row is queued, retryable or its lease has lapsed; then leases that row under the next attempt and no other |
| `TaskStore.AnalysisTaskStore.GetTask` | workers/analysis_worker/task_store.py:93-110 | The status of the row, if there is one |
| `TaskStore.AnalysisTaskStore.Mark` | workers/analysis_worker/task_store.py:112-188 | Takes effect if and only if this worker id holds an unexpired lease; then ends that lease with the outcome and changes no other row |
| `TaskStore.TableEvolvesTransitive` | workers/analysis_worker/task_store.py:55-188 | Rows that only evolve from one table to the next only evolve over a whole run |
| `Handler.Deployment.ProcessStreamMessage` | workers/analysis_worker/main.py:977-1138 | Every effect is a protocol step. The call acknowledges its message exactly once unless it gives up, and then not at all; it commits results at most once; an acknowledged message is blank, or settled (processed, duplicate, recovered), failed for good with one dead letter, or requeued once |
| `Handler.Deployment.HandleUnclaimed` | workers/analysis_worker/main.py:1013-1051 | A message whose claim found no row is acknowledged by this call if and only if it does not give up, and then its task is settled, after the recovery handoff where one is due; nothing is committed, dead-lettered or requeued |
| `Handler.Deployment.HandOff` | workers/analysis_worker/main.py:1378-1413 | On success the enrichment message is published and the trace marked as queued; an error leaves the handler where it was, or past a publish or a commit that took effect all the same |
| `Handler.Deployment.Work` | workers/analysis_worker/main.py:1053-1138 | The try block ends processed and settled, failed for good, requeued for the next attempt, or without an acknowledgement of its own; it commits at most once |
| `Handler.Deployment.CommitAndHandOff` | workers/analysis_worker/main.py:1056-1069 | Results are committed at most once; a call that commits nothing gives up and has no effect of its own |
| `Handler.Deployment.CommitResults` | workers/analysis_worker/main.py:1057-1063 | With the lease the row succeeds and one commit is made, also when it is reported as an error; without it nothing happens |
| `Handler.Deployment.AfterCommit` | workers/analysis_worker/main.py:1064-1075 | After the commit the message is acknowledged only once the handoff, if one is due, is done |
| `Handler.Deployment.HandleFailure` | workers/analysis_worker/main.py:1076-1135 | The last attempt is dead-lettered at most once and never requeued, any other is requeued at most once and never dead-lettered; the message is acknowledged if and only if the call gets through, and nothing is committed |
| `Handler.Deployment.DeadLetterAndMark` | workers/analysis_worker/main.py:1080-1111 | Acknowledged by this call if and only if the row failed for good, with exactly one dead letter; giving up acknowledges nothing |
| `Handler.Deployment.MarkAndRequeue` | workers/analysis_worker/main.py:1112-1134 | Acknowledged by this call if and only if it put the message for attempt n + 1 in the stream, once; giving up acknowledges nothing |
| `Handler.Deployment.Acknowledge` | workers/analysis_worker/streams.py:105-106 | A message acknowledged as done belongs to a settled task, whatever others did meanwhile; it counts as one acknowledgement |
| `Handler.Deployment.Interfere` | workers/analysis_worker/main.py:1171-1193 | Any steps of others, in any number and order, leave the handler where it is and what it knows of its task true |
| `Handler.OthersKeep` | workers/analysis_worker/main.py:1171-1193 | A step of anyone else leaves this handler alone, only adds messages and only evolves rows |
| `BatchScheduler.RunBatch` | workers/analysis_worker/main.py:1165-1251 | For every batch and clock: terminates, returns the n results in input order, starts and finishes each message once, never before its release time, never more than max(1, max_inflight) at a time |
| `BatchScheduler.Sort` | workers/analysis_worker/main.py:1201-1208 | Each message is ready or delayed, exactly once; what is ready may start |
| `BatchScheduler.StartReady` | workers/analysis_worker/main.py:1226-1228 | Fills the pool from the ready queue up to the limit and keeps the scheduler sound |
| `BatchScheduler.Wait` | workers/analysis_worker/main.py:1231-1235 | Returns with a finished handler, or with the clock at a release time |
| `BatchScheduler.Collect` | workers/analysis_worker/main.py:1236-1238 | Exactly the finished handlers leave the pool, each with its own result |
| `BatchScheduler.WaitAndCollect` | workers/analysis_worker/main.py:1230-1240 | The iteration lowers 3·delayed + 2·ready + running |
| `BatchScheduler.SleepUntilDue` | workers/analysis_worker/main.py:1242-1249 | With an empty pool something is released, so the loop goes on |
| `BatchScheduler.ReleaseDue` | workers/analysis_worker/main.py:1210-1220 | The due messages join the ready queue in order and the others stay |
| `BatchScheduler.NextRelease` | workers/analysis_worker/main.py:1233-1233 | The earliest release time of the delayed messages |
| `BatchScheduler.ReleaseConserves` | workers/analysis_worker/main.py:1210-1220 | Releasing loses and duplicates nothing |
| `BatchScheduler.ReleaseRespectsBackoff` | workers/analysis_worker/main.py:1210-1220 | Only what is due is released |
| `BatchScheduler.ReleaseProgresses` | workers/analysis_worker/main.py:1210-1220 | Something is released once the clock has reached some release time |
| `BatchScheduler.AllFinished` | workers/analysis_worker/main.py:1251-1251 | With empty queues every message has started and finished once, and nothing else has |
| `UsageRollup.FullIsExact` | workers/analysis_worker/offline.py:121-138 | After a full rebuild the hour and day rows are exactly those with facts and hold their sums; rows of other sizes are untouched |
| `UsageRollup.FullIsIdempotent` | workers/analysis_worker/offline.py:121-138 | Rebuilding again changes nothing |
| `UsageRollup.FullConserves` | workers/analysis_worker/offline.py:9-55 | Hour rows and day rows each add up to the facts, for every metric |
| `UsageRollup.DayIsSumOfItsHours` | workers/analysis_worker/offline.py:9-55 | Each day row is the sum of its own hour rows, for every metric |
| `UsageRollup.RecentIsExact` | workers/analysis_worker/offline.py:141-163 | What the windowed rebuild leaves for each key: the in-window sum, nothing, or the old row |
| `UsageRollup.RecentRefinesFull` | workers/analysis_worker/offline.py:58-105 | On every bucket that starts in the window it gives the row of the full rebuild, whatever was there before |
| `UsageRollup.RecentKeepsThePast` | workers/analysis_worker/offline.py:141-163 | Every bucket that ends at or before the cutoff is unchanged |
| `UsageRollup.OneBucketStraddles` | workers/analysis_worker/offline.py:147-149 | For each size only the bucket that contains the cutoff is neither |
| `UsageRollup.RecentIsRightExactly` | workers/analysis_worker/offline.py:58-105 | For every hour or day row: it equals that of the full rebuild if and only if it has in-window facts and none before the cutoff, or no in-window fact and a bucket that starts in the window or an old row that was right |
| `UsageRollup.RecentUndercountsToday` | workers/analysis_worker/offline.py:141-163 | Two requests on one day, one before the cutoff: the windowed rebuild turns a count of two into one |
| `UsageStore.RecentIsRightForJobsExactly` | workers/analysis_worker/offline.py:58-105 | The same if and only if for the facts that any sequence of saved jobs leaves, with no assumption on them |
| `UsageStore.JobFactsCountOne` | workers/analysis_worker/main.py:121-149 | Every fact that saved jobs leave counts exactly one request |
| `UsageStore.LastWriteWins` | workers/analysis_worker/repository.py:435-470 | After any sequence of saves there is one fact per trace, the one written last |
| `UsageStore.SaveWrites` | workers/analysis_worker/repository.py:300-328 | A save writes the first delta of each trace and leaves other traces' facts alone |
| `UsageStore.SavesAreCountedOnce` | workers/analysis_worker/offline.py:121-138 | After any saves, with any repeats, a full rebuild's hour totals, day totals and the sum over one fact per trace agree on every metric |
| `UsageStore.JobIsOneRequest` | workers/analysis_worker/main.py:121-149 | The hour and day deltas of a job come down to one fact with its start time, dimensions, tokens and bytes, one request that either succeeded or failed; other traces are untouched |
| `UsageStore.UsageTables.SaveUsage` | workers/analysis_worker/repository.py:300-328 | The loop with its seen-set writes what the specification of a save says |
| `UsageStore.UsageTables.RollUpSizes` | workers/analysis_worker/offline.py:121-138 | Rolls up hours, then days, and counts the rows written |
| `UsageStore.UsageTables.RebuildFull` | workers/analysis_worker/offline.py:121-138 | Leaves the full rebuild of the current facts |
| `UsageStore.UsageTables.RebuildRecent` | workers/analysis_worker/offline.py:141-163 | Leaves the windowed rebuild at the cutoff given by clock and window, and returns the number of rows written |
| `Sse.SseUsageExtractor.Write` | internal/gateway/stream.go:89-113 | After any writes the buffer is the LF-free tail and the extractor has processed the payloads of all complete lines of what was written successfully |
| `Sse.Drain` | internal/gateway/stream.go:95-111 | The loop leaves the tail and processes the payloads of all complete lines |
| `Sse.WriteChunks` | internal/gateway/stream.go:89-113 | However a stream is cut into writes, the final state is that of parsing all its complete lines at once |
| `Sse.SplitIsLossless` | internal/gateway/stream.go:95-101 | Lines and tail put together again are the bytes; none of them holds an LF |
| `Sse.SplitIsUnique` | internal/gateway/stream.go:95-101 | It is the only such split |
| `Sse.SplitOfConcat` | internal/gateway/stream.go:94-101 | The tail is all that later writes need of the bytes before |
| `Relay.CopyStream` | internal/gateway/stream.go:14-50 | At every return captured bytes are a prefix of relayed bytes, which are a prefix of the source of length `written`; all equal on a clean end with no capture error; a write error is reported exactly when the client did not take some chunk |
| `Relay.RelayLoop` | internal/gateway/stream.go:18-49 | Exactly how many chunks each side took, where the client or the capture broke off, and which error is returned |
| `Relay.Send` | internal/gateway/stream.go:20-31 | A chunk is taken whole, or its accepted part is counted and the error or short write reported |
| `Relay.Forward` | internal/gateway/stream.go:19-42 | One read: the client first, then the capture if the client took it all |
| `Relay.KeepCopy` | internal/gateway/stream.go:32-41 | The capture gets each chunk until its first error or short count |
| `ChatAssembly.OpenAIChatExtractor.ProcessSSE` | internal/gateway/usage_openai_chat.go:29-132 | After any events: last id, model and usage, first role, last finish reason, content in order, each tool as its own deltas say |
| `ChatAssembly.OpenAIChatExtractor.ProcessChoices` | internal/gateway/usage_openai_chat.go:89-98 | Content is the in-order concatenation of all content deltas |
| `ChatAssembly.OpenAIChatExtractor.ProcessToolCalls` | internal/gateway/usage_openai_chat.go:99-130 | The tool map holds exactly the indices seen, each with the in-order concatenation of its own deltas, under any interleaving |
| `ChatAssembly.MergeKeepsTools` | internal/gateway/usage_openai_chat.go:108-129 | One more delta keeps that so |
| `ChatAssembly.OpenAIChatExtractor.AssembleSSE` | internal/gateway/usage_openai_chat.go:169-214 | The response says what the events said, with tool i in slot i; it panics if and only if the indices seen are not 0..n-1 |
| `ChatAssembly.FillSlots` | internal/gateway/usage_openai_chat.go:181-194 | In whatever order the map is iterated, all n slots are filled, or some index is out of range |
| `ChatAssembly.InOrderIsSafe` | internal/gateway/usage_openai_chat.go:181-194 | If each new index is at most the number seen so far, the indices are exactly 0..n-1 |
| `ChatAssembly.SparseIndexPanics` | internal/gateway/usage_openai_chat.go:181-194 | A stream whose only tool call has an index other than 0 ends in a panic of the assembly |
| `ChatPipeline.RelayAndAssemble` | internal/gateway/proxy.go:741-753 | Relay, parser, extractor and assembly together: when the client takes everything, the response is a function of the body alone, for all read sizes; when it breaks off, of the reads before the first it did not accept, and of that one if it was cut short without an error |
| `ChatPipeline.RelayThrough` | internal/gateway/stream.go:14-50 | Parser and extractor take in exactly those reads |
| `ChatPipeline.Pass` | internal/gateway/stream.go:89-113 | One chunk brings the extractor the payloads it completes, unless the client reports an error |
| `ClaudeAssembly.ClaudeExtractor.ProcessSSE` | internal/gateway/usage_claude.go:20-88 | After any events: prompt, completion, their total, cached tokens, id, model, stop reason, and each block's own text |
| `ClaudeAssembly.ClaudeExtractor.UpdateUsage` | internal/gateway/usage_claude.go:53-72 | The counts after one more event, and total = prompt + completion |
| `ClaudeAssembly.ClaudeExtractor.UpdateBlocks` | internal/gateway/usage_claude.go:74-84 | A text start opens a block, a text delta goes to the last block opened |
| `ClaudeAssembly.ClaudeExtractor.AssembleSSE` | internal/gateway/usage_claude.go:120-143 | Nothing if there is neither an id nor a text block; else the response the events describe |
| `ClaudeAssembly.JoinedTexts` | internal/gateway/usage_claude.go:74-84 | The block texts joined are all text deltas after the first text start |
| `RateLimiter.MemoryRateLimiter.constructor` | internal/admin/limits.go:24-30 | A limiter with no counters |
| `RateLimiter.MemoryRateLimiter.Allow` | internal/admin/limits.go:32-49 | Disabled limits always allow; else one decision on the key's counter, other counters untouched |
| `RateLimiter.AtMostLimitPerWindow` | internal/admin/limits.go:32-49 | For every sequence of calls in time order, at most `limit` calls of a key are allowed in each of its windows |
| `RateLimiter.FewerThanTwiceLimitPerInterval` | internal/admin/limits.go:32-49 | Fewer than twice `limit` in any half-open interval as long as the window |
| `RateLimiter.KeysAreIndependent` | internal/admin/limits.go:38-48 | Decisions on a key are as if no other key had been used |
| `RateLimiter.RefusedExactlyWhenFull` | internal/admin/limits.go:39-48 | A call is refused if and only if its window is open and has given `limit` grants; so never at or after its end |
| `WorkRelevance.RulesDecideExactly` | workers/analysis_worker/work_relevance.py:406-444 | Weights, caps and thresholds come down to two questions: is there a non-work or high-risk term, and is the catalog named or are there two weaker pieces of work evidence; this gives the decision for every text |
| `WorkRelevance.FastPathExactly` | workers/analysis_worker/work_relevance.py:128-134 | The fast path is taken if and only if the trace is not expensive, nothing is off topic and an alias of an active entry occurs |
| `WorkRelevance.UnjudgedDecidesExactly` | workers/analysis_worker/work_relevance.py:86-158 | Without a judge call the decision is that of the rules, also on the fast path; no text gives unknown |
| `WorkRelevance.DecidesExactly` | workers/analysis_worker/work_relevance.py:78-232 | The decision for every input: by verdict, by the reason of a failed judge call, or by the two questions; an exception if and only if errors are strict and a consulted judge failed |
| `WorkRelevance.DegradedNeverAlerts` | workers/analysis_worker/work_relevance.py:581-640 | When the judge fails in non-strict mode the assessment records it and never alerts: review for mixed signals, unknown for high cost, no alert for weak signals |
| `WorkRelevance.CatalogMentionIsNeverAlerted` | workers/analysis_worker/work_relevance.py:389-444 | A text that names an active entry is never alerted unless a judge verdict says so |
| `WorkRelevance.EveryPathIsWellFormed` | workers/analysis_worker/work_relevance.py:78-232 | On every path the action belongs to the decision, needs_review and non_work_use hold exactly for their decisions, and all scores, rounded or not, are in [0, 1] |
| `WorkRelevance.RulesNeedNoRounding` | workers/analysis_worker/work_relevance.py:406-418 | Under the rules rounding to three decimals changes no score, for any evidence |
| `WorkRelevance.Judge` | workers/analysis_worker/llm_judge.py:193-214 | A verdict comes out if and only if decision and action are one of the four legal pairs; its confidence is in [0, 1] |
| `WorkRelevance.StrongMatchesExactly` | workers/analysis_worker/work_relevance.py:355-369 | There is a strong match if and only if the name or an alias of an active entry occurs in the text |
| `WorkRelevance.AliasMatchesExactly` | workers/analysis_worker/work_relevance.py:471-485 | Some match is attributed to an alias if and only if an alias of an active entry occurs |
| `WorkRelevance.TermsAreTheValues` | workers/analysis_worker/work_relevance.py:344-352 | The terms are the distinct non-empty normalized values |
| `WorkRelevance.NormalizedTerms` | workers/analysis_worker/work_relevance.py:344-352 | The loop with its seen-set yields those terms in order |
| `WorkRelevance.CatalogMatches` | workers/analysis_worker/work_relevance.py:355-369 | The loop yields the strong and the weak matches of the active entries in order |
| `WorkRelevance.KeywordEvidence` | workers/analysis_worker/work_relevance.py:372-386 | One item for each category with a term in the text, in table order |
| `MessageCounts.MessageRepository.SaveMessages` | workers/analysis_worker/repository.py:166-249 | The loop leaves the tables that the specification of a save gives |
| `MessageCounts.CountsExactly` | workers/analysis_worker/repository.py:166-249 | After any history of saves a count is the number of slots that hold the message, plus one if and only if the save that created it found its slot taken |
| `MessageCounts.RetriesDoNotInflate` | workers/analysis_worker/repository.py:236-249 | When a slot always gets the same message the count is exactly the number of slots |
| `MessageCounts.RetryIsIdempotent` | workers/analysis_worker/repository.py:208-249 | Saving a batch again straight away changes neither table |
| `MessageCounts.ChangedSlotLeavesAnOrphan` | workers/analysis_worker/repository.py:208-249 | Two different messages for one slot leave the second counted once and held nowhere |
| `PendingScan.MaxPendingIdleSeconds` | internal/admin/runtime.go:277-306 | Over any sorted list, page size and failing fetch the loop ends; with nonblank ids it covers the whole list, and fails exactly when a fetch it needs fails |
| `PendingScan.ScanPage` | internal/admin/runtime.go:284-300 | One page brings the maximum up to date for the stretch it covers |
| `PendingScan.SampleOldestPendingAgeSeconds` | workers/analysis_worker/runtime_metrics.py:50-65 | The same answer from the worker's loop; zero without a client |
| `PendingScan.OldestPendingAgeSeconds` | workers/analysis_worker/runtime_metrics.py:25-31 | Whole seconds of the greatest idle time on a page |
| `PendingScan.OldestIsMaximum` | internal/admin/runtime.go:291-296 | The answer is an upper bound of all idle times in whole seconds, and reached |
| `PendingScan.RoundOnceOrEach` | workers/analysis_worker/runtime_metrics.py:25-31 | Rounding the maximum equals the maximum of the rounded times, so both scans agree |
| `PendingScan.FetchesClosedForm` | internal/admin/runtime.go:283-305 | The number of fetches is the list length divided by the page size, plus one |
| `PendingScan.ContinuesAfter` | internal/admin/runtime.go:300-304 | Starting after the last id of a page continues right behind it |
| `Listing.PagesShowEverything` | internal/admin/repository.go:280-298 | As long as all page queries deliver one order, the pages 1..totalPages one after another are the whole result, once and in order |
| `Listing.PagesPartitionExactly` | internal/admin/repository.go:376-386 | When each page query may deliver any order consistent with the sort key: every choice shows each row once if and only if no group of equal keys crosses a page end |
| `Listing.TracePagesShowEverything` | internal/admin/repository.go:287-298 | With trace_id as tie-breaker the trace listing shows every row once and in order, whatever each query does |
| `Listing.AnomalyPagesShowOnceExactly` | internal/admin/repository.go:378-386 | The anomaly listing shows each row once for every choice of orders if and only if no two rows with one created_at stand on either side of a page end |
| `Listing.AnomalyPagesCanRepeat` | internal/admin/repository.go:378-386 | Two anomalies with one created_at on pages of one row: the first can be shown twice and the second never |
| `Listing.OneOrder` | internal/admin/repository.go:297-297 | A sort key that tells all rows apart leaves only one order |
| `Listing.EveryPageIsReal` | internal/admin/repository.go:205-240 | Whatever page and limit are asked for, the page shown has rows unless there are none, and has_prev and has_next say exactly whether rows come before and after |
| `Listing.SearchIsLiteralPrefix` | internal/admin/repository.go:242-260 | The escaped username pattern matches exactly the names that start with it, whatever metacharacters it holds |

## Left out

- HTTP proxying, WebSocket tunnelling, TLS and authentication of the gateway: I/O around the modelled loops.
- PostgreSQL, Redis and object storage themselves: tables are maps, a commit is one atomic step, a stream is a sequence with the set of acknowledged entries.
- JSON decoding, hashing and redaction: an event that does not decode is `None`; message keys are given.
- Columns of `analysis_tasks` that no guard reads (`stream_message_id`, `queued_at`, `started_at`, error texts).
- Deletion of traces and of task rows, and stream trimming: rows and entries are only added.
- The idle time before a pending entry may be reclaimed: the model lets any un-acknowledged entry be delivered again at any time, which allows more runs.
- The stage columns of `traces` are modelled but not claimed to mirror the task status: two of the statements that write them are not guarded by the lease.
- `retry_backoff_seconds`: the scheduler is proved for arbitrary release times.
- Liveness under fairness: what is stated is that each ending can or cannot be reached, not that a deployment with live workers gets there.
- BatchScheduler.RunBatch: assumes that every handler returns and that a wait with a timeout brings the clock to the release time.
- BatchScheduler.Wait: is the wait as the scheduler may rely on it, not a model of the thread pool.
- Time zones in `date_trunc`: hours and days have fixed length, as in UTC.
- Extraction of the user intent, the word lists themselves, `task_category` and the texts of evidence: the decision is proved for every text, catalog and set of keyword tables.
- Ties in `round(x, 3)` go up in the model and to the even digit of the binary value in Python; no result depends on it.
- WorkRelevance.Judge: a confidence that is not a number is covered, a floating-point NaN is not.
- Usage anomaly thresholds, baselines, Isolation Forest, sanitized copies, identity caches, configuration, health and metrics rendering: easy members, or numerics of external libraries.
- Listing.EveryPageIsReal: the count and the rows are taken from one state of the table.
- Listing.PagesPartitionExactly: rows added or removed between two page queries are not modelled; only the order may differ.
- Listing.SearchIsLiteralPrefix: case folding is one function from character to character.
- The extractors for the OpenAI responses and images, Gemini and generic protocols: the same kind of fold as the two modelled.
