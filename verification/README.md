# Verification of the market-data pipeline

Dafny models of the parts of the repository that decide whether a trade or a bar can be lost, duplicated or
misread, with proofs of what they keep over every input and every run. `dafny verify dfyconfig.toml` checks it.

## What is modelled

**Ingest** (`Gaps`, `TopicQueue`, `IngestProtocol`, `IngestSafety`, `IngestProgress`, `IngestRepairs`,
`IngestShutdown`, `IngestRunner`, `BinanceRepair`, `Backoff`, `StreamHealth`, `RateLimit`, `RateLedger`). The ingest runtime is a step system: a step is what one coroutine does between two
suspension points, and a run is any interleaving of the reconnect loop, the pump, the repair tasks, the drain task
and the stop event over one bounded queue and one tracker. Sockets, servers and sinks may answer anything. The
class `IngestRunner.Runner` performs the same steps on a real tracker and queue and is proved to take exactly the
protocol steps, so what holds of every reachable state holds of it. Safety bounds what a run may do;
`IngestProgress` and `IngestShutdown` say what a run still can do, and exactly when it no longer can.

**Publishing** (`KinesisBatching`, `KinesisSink`, `KinesisGuarantees`, `KinesisRetry`, `EndToEnd`). The client is any function from
a request's number and records to an answer. `EndToEnd` composes the runner with the sink.

**Archive backfill** (`Calendar`, `ArchivePlan`, `ArchiveCover`, `Manifest`, `ManifestTexts`, `PlanKeys`, `Resume`,
`ArchiveRows`, `Staging`, `Loader`, `LoaderOutcomes`, `StagingGuarantees`, on the Python text operations of `PyText`). From a date window to the
files to fetch, through parsing and staging, to what a run leaves in the object store.

**SQL and analytics** (`StatementSplitter`, `StatementContents`, `Bars`). The statement lexer, with a specification
that does not mention it, and the measures of one-minute bars.

Code that changes state is a class or a method with a loop, proved against a value-level function of the same
step; the theorems are about those functions over whole histories. Fields marked `ghost` record what happened and
are not in the program.

## Where the code does not keep what is said of it

- "Trades are never silently lost" fails when a pump is cancelled while blocked in `put`: the trade was observed and
  is gone, the rest of its frame goes with it, and if no gap names the trade then, none ever will
  (`IngestSafety.SilenceIsFinal`). `CancellationCanLoseSilently` has four such runs: one at Binance, two at
  Coinbase, where the trades of a frame share one number or have none, and one at a venue whose numbers start over
  with each connection. `NoSilentLossExactlyWhen` and `CancelIsSilentExactlyWhen` give the exact conditions, and
  `Accounting` bounds the observed trades lost by one for each cancelled session.
- Awaiting the repair tasks before drain does not guarantee that drain sees their trades:
  `IngestSafety.DrainCanStrandARepair` is a run in which it does not, and `DrainExitIsSafeExactlyWhen` says exactly
  when that cannot happen.
- It can also wait for ever: a repair answered after drain has returned (or died) is stuck when its trades do not fit
  behind what the queue holds, and `run` waits for it. `IngestShutdown.ShutdownCanHang` is such a run, with a queue
  smaller than the answer, and `IngestProgress.RepairFinishesExactlyWhen` the exact condition. While drain is alive and
  stop is unset, `IngestShutdown.CanShutDown` has a clean shutdown from every reachable state.
- A sink that raises is said to end in a detectable gap. `EndToEnd.RaiseStrandsATrade` is a run in which it does not;
  `RaiseIsReportedExactlyWhen` says exactly which trades of a persistent venue a report ever names, and
  `AcceptedTradesAreSomewhere` where each accepted trade is when the sink has raised.
- `poll` and `_send_all` do not return the number of records delivered (`KinesisGuarantees.PollCanUnderstate`);
  `SentIsDeliveredExactlyWhen` and `PollIsDeliveredExactlyWhen` say exactly when they do.
- A gap of more than 1000 ids is repaired only in part, and nothing asks for the rest
  (`BinanceRepair.OneRequestSufficesExactlyWhen`).
- Resuming reads one page of the tier's DONE keys. Once the tier has more than 999 of them, of this window or any
  other, finished files may be fetched again and a backfill never settles (`Resume.OnePageResumesExactlyWhen`,
  `BackfillFinishesExactlyWhen`); no file is skipped by mistake (`Resume.ResumeIsSafe`).

## Assumptions

- `put_records` answers by position, one result per record, with `FailedRecordCount` the number of error codes
  (`KinesisGuarantees.Positional`). `RetryCoversExactlyWhen` says what breaks without it.
- The repair endpoint answers with the first `limit` consecutive well-formed rows where a result says "honest".
- A venue that is neither connection-scoped nor numbered across symbols gives each trade of a symbol its own number.
- The clock does not go back, and a sleep takes at least the time asked. `acquire` is proved for a sole caller.
- The manifest holds one row for each archive key, as its merge makes it; other windows of a tier only add rows.
- The archive does not change during a run, and SHA-256 yields 64 lower-case hex digits.

## Model

| member | source | states |
|---|---|---|
| `Gaps.SequenceTracker.Observe` | ingest/core/gaps.py:33-50 | the watermark map and the reported gap after one observation, in every branch |
| `Gaps.SequenceTracker.Reset` | ingest/core/gaps.py:52-53 | forgets exactly one key |
| `Gaps.WatermarkIsMax` | ingest/core/gaps.py:33-38 | over every history a key has a watermark exactly when it was numbered, and it is the largest id seen |
| `Gaps.GapEndsWereObserved` | ingest/core/gaps.py:39-41 | both ends of every reported gap were observed, the lower one first |
| `Gaps.RecordMovesWatermark` | ingest/core/gaps.py:38-40 | an observation moves the watermark exactly when it is larger than everything before it |
| `Gaps.Tiling` | ingest/core/gaps.py:33-50 | ids from the first to the largest are split into record-setting ids and gaps: each is one of the two, never both, and nothing outside is either |
| `Gaps.GapsAreOrdered` | ingest/core/gaps.py:39-41 | gaps of one key come in increasing order without overlap |
| `Gaps.GapBelowWatermark` | ingest/core/gaps.py:24-41 | every reported gap ends at or below the watermark and misses at least one id |
| `Gaps.MissingCountBalance` | ingest/core/gaps.py:24-26 | summed missing counts are max - first + 1 less the number of record-setting observations |
| `Gaps.KeysAreIndependent` | ingest/core/gaps.py:31-38 | what a tracker holds and reports for a key is what it would for that key's observations alone |
| `StreamHealth.SequenceGaps` | devlab/health.py:207-233 | count, gaps and skipped venues of the read-back check, for every list of records |
| `StreamHealth.MissingSplitsByKey` | devlab/health.py:89-91 | the total missing is the sum over keys |
| `StreamHealth.InterleavingDoesNotChangeMissing` | devlab/health.py:207-233 | however keys interleave, the total missing is the sum of what each key alone would miss |
| `StreamHealth.ReportIsTheTrackers` | devlab/health.py:207-233 | the gaps reported for each key of a symbol-scoped venue are those of the ingest tracker fed every record; a connection-scoped venue has none |
| `StreamHealth.RecordsAreCounted` | devlab/health.py:222-230 | every record is checked, of the skipped venue, or without a number |
| `TopicQueue.BoundedTopicQueue.Put` | ingest/core/queue.py:47-61 | contents, drop counter and success of a put up to its first suspension, under both policies and with the eviction loop |
| `TopicQueue.BoundedTopicQueue.GetNowait` | ingest/core/queue.py:55-64 | takes the oldest item, or nothing |
| `TopicQueue.QueueConserves` | ingest/core/queue.py:34-64 | over every history and both policies, departures followed by contents are exactly what was accepted, in order; evictions are counted, and BLOCK never evicts |
| `TopicQueue.DropOldestKeepsNewest` | ingest/core/queue.py:51-61 | DROP_OLDEST refuses nothing and always holds the newest items put |
| `TopicQueue.FullExactlyWhen` | ingest/core/queue.py:47-61 | after every history, a put under BLOCK is accepted unless exactly maxsize items are held; DROP_OLDEST always accepts and evicts, the oldest one, exactly then |
| `IngestProtocol.ObservedKeepsWatch` | ingest/runner.py:42-49 | observing a trade keeps the tracker equal to a replay of everything observed since it was last replaced |
| `IngestProtocol.KeepsSocket` | ingest/core/ws.py:75-124 | every step keeps the session bookkeeping: sessions, hook calls, cancellations and losses, and a loop that has ended only if it was asked to stop |
| `IngestProtocol.KeepsStream` | ingest/runner.py:42-50 | every step keeps the multiset balance of observed, enqueued, blocked and cancelled trades |
| `IngestProtocol.KeepsPipe` | ingest/runner.py:70-79 | every step keeps the FIFO balance of accepted, produced, held and queued trades |
| `IngestProtocol.KeepsEpoch` | ingest/runner.py:59-68 | every step keeps a replaced tracker to the current session |
| `IngestProtocol.KeepsScope` | ingest/runner.py:59-68 | every step keeps reported gaps inside one session for a connection-scoped venue |
| `IngestProtocol.KeepsRepair` | ingest/runner.py:46-57 | every step keeps each reported id enqueued, carried by its task, still being fetched, or marked unrepaired |
| `IngestProtocol.KeepsBlocked` | ingest/runner.py:50 | a blocked put holds the trade observed last |
| `IngestProtocol.StepKeepsInv` | ingest/runner.py:42-96 | every enabled step of every coroutine keeps the whole invariant |
| `IngestProtocol.ReachableInv` | ingest/runner.py:42-96 | the invariant holds in every reachable state of every interleaving |
| `IngestSafety.Accounting` | ingest/runner.py:42-50 | every id between first and watermark was enqueued, is in a gap, is in the blocked put, or was lost to a cancellation; at most one loss per cancelled session |
| `IngestSafety.StreamTradesEnqueuedOnce` | ingest/runner.py:42-57 | the stream's part of what was accepted is the completed puts, in order; every received trade was put, is held by the pump, was lost with a cancelled put, or was never read, with multiplicity |
| `IngestSafety.NoSilentLossExactlyWhen` | ingest/core/ws.py:116-120 | in every reachable state, no received trade is missing without a trace if and only if each trade that went with a cancelled pump lies in a gap reported by its own tracker, is still ahead of a lasting watermark, or was enqueued again under a number that names it |
| `IngestSafety.CancelIsSilentExactlyWhen` | ingest/core/ws.py:116-120 | a cancellation leaves no silent loss if and only if there was none and each trade the pump holds, in its put and behind it in the frame, can be traced beforehand; an unblocked pump holds none |
| `IngestSafety.StillAheadIsReported` | ingest/core/gaps.py:38-41 | a number still ahead of the watermark is reported by the next larger observation |
| `IngestSafety.SilenceIsFinal` | ingest/core/gaps.py:33-41 | an observed trade that no report names is named by none later, over every continuation |
| `IngestSafety.ReportedExactlyWhen` | ingest/core/gaps.py:33-41 | at a persistent venue, over every continuation, a report names an observed trade if and only if its number is not below the key's first and never moved the watermark |
| `IngestSafety.RecordsStayUnreported` | ingest/core/gaps.py:33-41 | a number that moved a persistent venue's watermark is never named by a report |
| `IngestSafety.CancellationCanLoseSilently` | ingest/core/ws.py:116-120 | reachable silent losses, after a drain died and a lifetime ran out: a Binance trade, a Coinbase trade sharing the enqueued trade's number, a trade without a number, and a trade under a number that an earlier connection used |
| `IngestSafety.PipelineConserves` | ingest/runner.py:70-79 | accepted trades are those produced, the one in hand and the queue, in FIFO order; the queue stays within its bound |
| `IngestSafety.ReturnSeesEmptyQueue` | ingest/runner.py:71-79 | drain returns only on stop, with an empty queue, everything accepted produced, and a flush as its last call |
| `IngestSafety.OnlyLatePutsRemain` | ingest/runner.py:70-79 | after drain returned, over every continuation, the queue holds exactly the puts completed since and the sink is not called |
| `IngestSafety.DrainExitIsSafeExactlyWhen` | ingest/runner.py:71 | no continuation strands a trade if and only if, when drain returned, no repair task and no live session remained |
| `IngestSafety.DrainCanStrandARepair` | ingest/runner.py:91-96 | a run in which drain returns while a repair is fetched, the repair is awaited, and its trade stays in the queue |
| `IngestSafety.HookRunsOncePerReconnect` | ingest/core/ws.py:104-106 | the hook ran once for each pumped session but the first, over every history of dials |
| `IngestSafety.HookOnlyBeforePump` | ingest/core/ws.py:95-108 | the hook runs only on the step that starts a pumped session |
| `IngestSafety.GapsStayInOneSession` | ingest/runner.py:64-66 | for a connection-scoped venue both ends of a reported gap were observed in the reporting session |
| `IngestSafety.ReconnectsHideNothing` | ingest/runner.py:67-68 | for a venue with persistent ids the reports are those of one unbroken stream of everything observed |
| `IngestSafety.QuiescentStreamIsWhole` | ingest/runner.py:42-57 | at quiescence every id up to the watermark was enqueued, cancelled, or lay in a gap whose repair failed or was incomplete |
| `IngestProgress.ReconnectsExactlyWhen` | ingest/core/ws.py:75-88 | from a reachable state some continuation starts another session if and only if stop is unset, or the loop is dialing or subscribing already |
| `IngestProgress.EveryAttemptIsFollowed` | ingest/core/ws.py:75-88 | over every run that was not asked to stop, an attempt that raised is followed by exactly one sleep and a clean end by none, and either by the next dial |
| `IngestProgress.NoSleepAfterStop` | ingest/core/ws.py:82-84 | once stop is set no continuation begins a sleep |
| `IngestProgress.PumpWaitsExactlyWhenFull` | ingest/runner.py:50 | in every reachable state the put of an observed trade waits if and only if the queue holds maxsize trades |
| `IngestProgress.DrainReturnsExactlyWhen` | ingest/runner.py:71-79 | a turn of drain that did not raise ends in a flush and a return if and only if stop is set and the queue is left empty; its sink calls are one poll, after the trade taken if any |
| `IngestProgress.RepairFinishesExactlyWhen` | ingest/runner.py:52-57 | once drain has returned or died, a repair task can end if and only if all it has left to put fits behind what the queue holds |
| `IngestRepairs.RepairedTradesArePutOnce` | ingest/runner.py:52-57 | over every run, what each repair came back with is what its task put, in order, and then what it still carries; the repaired part of what was accepted is exactly those puts |
| `IngestShutdown.CanShutDown` | ingest/runner.py:88-96 | from every reachable state with drain alive and stop unset, whatever the repairs answer, the runtime can end with every task over, the queue empty and every received trade published that no cancellation had taken before |
| `IngestShutdown.ShutdownCanHang` | ingest/runner.py:91-96 | a run in which drain has returned and no continuation ends a repair task that shutdown waits for |
| `IngestRunner.Runner.HandleTrade` | ingest/runner.py:43-50 | one turn of handle_message's loop is exactly the protocol's observing step |
| `IngestRunner.Runner.HandleMessage` | ingest/runner.py:42-50 | a frame is handled in order up to the first put that waits, as a run of the protocol |
| `IngestRunner.Runner.ResumePut` | ingest/runner.py:50 | a resumed put is the protocol's unblocking step |
| `IngestRunner.Runner.RepairAnswered` | ingest/runner.py:52-57 | an answered or failed repair is the corresponding protocol step and leaves the tracker alone |
| `IngestRunner.Runner.RepairPuts` | ingest/runner.py:54-55 | one put of a repair task, and its removal after the last, is a protocol step |
| `IngestRunner.Runner.HandleReconnect` | ingest/runner.py:59-68 | a new tracker exactly for connection-scoped venues, as the protocol's subscribe step |
| `IngestRunner.Runner.DrainTurn` | ingest/runner.py:71-79 | one get, produce, poll and loop test is the protocol's draining step |
| `BinanceRepair.Repair` | ingest/connectors/binance.py:95-113 | the trades kept from any list of rows, with malformed and already delivered rows dropped |
| `BinanceRepair.RepairKeepsTheGoodRows` | ingest/connectors/binance.py:95-113 | for any answer, the repaired trades are the well-formed rows below the gap's upper end, in order and with multiplicity; an unknown symbol keeps none |
| `BinanceRepair.RepairIsExact` | ingest/connectors/binance.py:82-113 | against a consecutive server, exactly the first min(missing, 1000) ids of the gap, in order, once each |
| `BinanceRepair.OneRequestSufficesExactlyWhen` | ingest/connectors/binance.py:85-89 | one request repairs the gap completely if and only if at most 1000 ids are missing |
| `BinanceRepair.SmoothRunKeeps` | ingest/runner.py:46-57 | in runs with honest replies the unrepaired reports are exactly the answered ones that were too long |
| `BinanceRepair.NothingIsMissing` | ingest/runner.py:42-57 | with no cancelled put, no failed repair and no gap over 1000, at quiescence every id from first to watermark was enqueued |
| `KinesisSink.Sink.Produce` | awsnative/sink.py:73-79 | buffers one record and counts its bytes, and touches nothing else |
| `KinesisSink.Sink.TakeBatch` | awsnative/sink.py:104-114 | the batch and the rest are the two halves of the buffer, cut where the greedy rule cuts |
| `KinesisSink.Sink.SendWithRetry` | awsnative/sink.py:116-148 | requests made, acknowledgements and verdict equal the retry specification for every client, which `KinesisRetry.EveryAttemptIsUsed` characterizes |
| `KinesisSink.Sink.SendAll` | awsnative/sink.py:96-102 | the whole new state and verdict of sending everything, including a raise half way |
| `KinesisSink.Sink.Poll` | awsnative/sink.py:81-86 | sends everything exactly at a threshold, and otherwise nothing |
| `KinesisSink.Sink.Flush` | awsnative/sink.py:88-92 | sends everything and returns the length of the buffer left |
| `KinesisBatching.GrowIsLongest` | awsnative/sink.py:108-113 | the grown prefix fits and no longer prefix does |
| `KinesisBatching.BatchesAreACut` | awsnative/sink.py:96-114 | the batches are consecutive, non-empty, within both caps or a single oversized record, and make up the buffer |
| `KinesisBatching.GreedyStaysAhead` | awsnative/sink.py:104-114 | started no earlier than another cut, the greedy cut needs no more batches |
| `KinesisBatching.BatchingIsOptimal` | awsnative/sink.py:96-114 | no other cut of the buffer into valid batches has fewer |
| `KinesisGuarantees.RetryCoversExactlyWhen` | awsnative/sink.py:130-135 | retried and delivered records cover the request if and only if the answer has a result for every record |
| `KinesisGuarantees.DeliverNarrows` | awsnative/sink.py:116-148 | at most max_attempts requests, each a subsequence of the one before, the first being the batch |
| `KinesisRetry.EveryAttemptIsUsed` | awsnative/sink.py:116-148 | against any client each request resends exactly what the answer before it marked; a raise comes only from the client or after all max_attempts requests, success only from an answer that left nothing to resend |
| `KinesisRetry.ThrottlingIsRiddenOut` | awsnative/sink.py:116-148 | with a client that accepts everything at least once in any max_attempts answers in a row, no history of operations raises |
| `KinesisRetry.PollSendsExactlyWhen` | awsnative/sink.py:81-86 | poll makes a request if and only if the buffer is not empty and one of its thresholds is reached, and otherwise changes nothing |
| `KinesisRetry.FlushAnswersZero` | awsnative/sink.py:88-92 | a flush that does not raise leaves nothing and answers 0 |
| `KinesisGuarantees.DeliverConserves` | awsnative/sink.py:116-148 | the batch is what was acknowledged and what a raise names |
| `KinesisGuarantees.CountIsLastRequest` | awsnative/sink.py:128 | a batch's count is the size of its last request |
| `KinesisGuarantees.CountIsDeliveredExactlyWhen` | awsnative/sink.py:116-143 | a batch's count never exceeds the number delivered, and equals it if and only if no request but the last delivered anything |
| `KinesisGuarantees.SentIsDeliveredExactlyWhen` | awsnative/sink.py:96-102 | sending everything delivers the whole buffer; the count returned equals that if and only if the same holds of every batch |
| `KinesisGuarantees.PollIsDeliveredExactlyWhen` | awsnative/sink.py:81-86 | the same for poll, which delivers the whole buffer or nothing |
| `KinesisGuarantees.PollCanUnderstate` | awsnative/sink.py:81-86 | a positional client under which poll answers 1 and has delivered 2 |
| `KinesisGuarantees.SendAllInOrder` | awsnative/sink.py:96-102 | each batch is fully acknowledged before the next is sent; on a raise earlier batches are done and later ones untouched |
| `KinesisGuarantees.SendAllKeepsBooks` | awsnative/sink.py:96-102 | sending keeps produced = acknowledged + named by raises + buffered, and the byte count |
| `KinesisGuarantees.AckedExactlyOnce` | awsnative/sink.py:73-148 | the same balance over every history of produce, poll and flush; without a raise nothing is stranded |
| `KinesisGuarantees.FlushedMeansAcked` | awsnative/sink.py:88-92 | a history without a raise that ends in flush has everything acknowledged and an empty buffer |
| `KinesisGuarantees.PollEndsBelow` | awsnative/sink.py:81-86 | after a poll that did not raise the buffer is below both thresholds |
| `KinesisGuarantees.OneMoreIsTwoBatches` | awsnative/sink.py:81-86 | one record more than a buffer below the thresholds is at most max_batch records and two batches |
| `KinesisGuarantees.DrainStaysBounded` | ingest/runner.py:70-79 | under a poll after every produce the buffer stays below both thresholds, over every history |
| `EndToEnd.DrainDiesExactlyWhenSinkRaises` | ingest/runner.py:70-79 | over the Kinesis sink, in every interleaving, drain is dead if and only if the sink has raised; it returns only if none of its calls did |
| `EndToEnd.AcceptedTradesAreAcknowledged` | ingest/runner.py:70-79 | over the Kinesis sink, when drain has returned every trade accepted by then is acknowledged exactly as often as it was accepted |
| `EndToEnd.AcceptedTradesAreSomewhere` | ingest/runner.py:70-79 | in every reachable state, raises included, accepted trades are acknowledged, named by a raise, buffered by the sink, in drain's hand or queued, with multiplicity |
| `EndToEnd.RaiseIsReportedExactlyWhen` | awsnative/sink.py:11-16 | at a persistent venue, once drain has died the sink is not called again, and a report in any continuation names an observed trade if and only if its number is not below the key's first and never moved the watermark |
| `EndToEnd.RaiseStrandsATrade` | awsnative/sink.py:11-16 | a run over a client that raises in which the trade is named by the raise, acknowledged by nobody, and named by no report in any continuation |
| `EndToEnd.RunKeepsDiscipline` | ingest/runner.py:71-78 | every run of the runner calls the sink in turns of produce and poll, or an idle poll |
| `EndToEnd.RunnerKeepsSinkBounded` | ingest/runner.py:70-79 | over the Kinesis sink, whenever drain waits the sink is below both thresholds and one trade more is at most two batches |
| `Calendar.DaysBeforeYearClosedForm` | awsnative/backfill/tiers.py:137-138 | the day count behind date arithmetic equals its closed form |
| `Calendar.OrderIsOrdinal` | awsnative/backfill/tiers.py:131-138 | comparing dates is comparing day numbers |
| `Calendar.NextDayOrdinal` | awsnative/backfill/tiers.py:172-179 | adding one day is the next date, across month and year ends |
| `Calendar.CalendarIsAnchored` | awsnative/backfill/tiers.py:131-138 | the day numbers of New Year in 1970, 2015, 2024 and 2040, and that of 2024 being a Monday |
| `ArchivePlan.DaysBetween` | awsnative/backfill/tiers.py:175-179 | the daily files between two dates |
| `ArchivePlan.LagOverflowsExactlyWhen` | awsnative/backfill/tiers.py:138 | adding the publication lag overflows exactly in the last month of the calendar |
| `ArchivePlan.FilesOfMonth` | awsnative/backfill/tiers.py:136-161 | one month's files: monthly when covered and published, which `ArchiveCover.UsableExactlyWhenPermitted` states in day numbers, else daily inside the window |
| `ArchivePlan.MonthsBetween` | awsnative/backfill/tiers.py:166-172 | the month cursor visits every month of the window once and ends |
| `ArchivePlan.FilesForWindow` | awsnative/backfill/tiers.py:110-163 | the sorted plan for every input; it raises exactly for a window with instruments that reaches December 9999 |
| `ArchiveCover.WindowIsTiled` | awsnative/backfill/tiers.py:135-172 | one instrument's files follow one another without gap or overlap from the first day to the last |
| `ArchiveCover.TiledOnce` | awsnative/backfill/tiers.py:135-172 | in such a tiling every day inside is covered by exactly one file and no day outside by any |
| `ArchiveCover.UsableExactlyWhenPermitted` | awsnative/backfill/tiers.py:137-138 | the planner takes the monthly file if and only if first day, last day and last day plus seven lie, as day numbers, inside the window and by today |
| `ArchiveCover.LagIsLeast` | awsnative/backfill/tiers.py:38-40 | seven is the least lag within which a Monday falls whatever day a month ends on |
| `ArchiveCover.TextBeforeIsLexicographic` | awsnative/backfill/tiers.py:163 | the order of instrument ids is decided at the first character that differs, or by one being a prefix |
| `ArchiveCover.PlanCoversExactly` | awsnative/backfill/tiers.py:118-163 | in the sorted plan of distinct instruments each instrument's files are such a tiling of the window |
| `ArchiveCover.PlannedFilesArePublished` | awsnative/backfill/tiers.py:137-139 | each monthly file is inside the window and the Monday after its month is past; no file is foreign |
| `ArchiveCover.PlanIsStrictlyOrdered` | awsnative/backfill/tiers.py:163 | the plan is strictly ordered by instrument, lexicographically, and by the day number of the first day; no two files share both |
| `ArchiveCover.PlanIsMinimal` | awsnative/backfill/tiers.py:136-161 | any files that cover the window, monthly ones only for whole months of the window over seven days ago, are at least as many as the planner's |
| `Manifest.KeysIdentifyFiles` | awsnative/backfill/tiers.py:88-99 | equal archive keys mean equal tier, symbol, granularity and day, whatever the symbol contains |
| `Manifest.PeriodIdentifies` | awsnative/backfill/tiers.py:146-158 | equal period texts of one granularity mean the same date |
| `Manifest.StagingKeysIdentify` | awsnative/backfill/manifest.py:152-161 | equal staging keys mean equal tier, instrument and period, despite dashes in both |
| `ManifestTexts.PeriodReadsBack` | awsnative/backfill/tiers.py:146-157 | a period cut at its dashes reads back as the year, the month and, for a daily file, the day |
| `ManifestTexts.KeyReadsBack` | awsnative/backfill/tiers.py:88-99 | an archive key cut at its slashes is the archive's layout: granularity, dataset, symbol, interval for klines, and the file's name |
| `ManifestTexts.LoaderExpectsThePlannedName` | awsnative/backfill/manifest.py:71-72 | the name the loader holds a checksum to is the planned file's |
| `ManifestTexts.LoaderFetchesThePlannedPath` | awsnative/backfill/manifest.py:62-68 | the loader's URL is the archive's host followed by that path, and the checksum's is the same with its suffix |
| `ManifestTexts.StagingKeyReadsBack` | awsnative/backfill/manifest.py:152-161 | a staging key is its tier's prefix and the instrument with the period |
| `PlanKeys.PlannedKeysAreDistinct` | awsnative/backfill/tiers.py:110-163 | no two planned files are fetched from one object |
| `PlanKeys.PlannedStagingKeysAreDistinct` | awsnative/backfill/manifest.py:152-161 | no two planned files are staged in one object |
| `PlanKeys.PlannedFileOrigin` | awsnative/backfill/tiers.py:134-161 | every planned file carries the tier asked for and both names of one requested pair |
| `Resume.PlanIsRemaining` | awsnative/backfill/manifest.py:164-186 | a plan is the files not yet recorded, item by item and in order |
| `Resume.PlannedExactlyWhenNotRead` | awsnative/backfill/manifest.py:164-186 | a file is planned if and only if its key was not read back |
| `Resume.ResumeIsSafe` | awsnative/backfill/seed.py:110-122 | a DONE file is never planned again once read back; with any part read back every other file still is |
| `Resume.OnePageResumesExactlyWhen` | awsnative/backfill/seed.py:110-122 | whatever order the rows come in nothing is planned, if and only if the whole window is DONE and the DONE rows of the whole tier fit the one page that is read |
| `Resume.MoreDoneLessPlanned` | awsnative/backfill/manifest.py:164-186 | recording more DONE keys never lengthens a plan, and shortens it when one was planned |
| `Resume.RunWithinPage` | awsnative/backfill/seed.py:110-122 | while the tier fits a page, a run that completes a planned file undoes nothing and leaves less to do |
| `Resume.BackfillFinishesExactlyWhen` | awsnative/backfill/seed.py:110-122 | over any series of at least as many such runs as files, planning from the page each run read, the window ends finished for good if and only if the tier's keys DONE at the start, the window's, and those other windows add meanwhile fit one page |
| `ArchiveRows.DetectionRecovers` | awsnative/backfill/epoch.py:58-72 | an instant is read back as itself from milliseconds or microseconds and refused in seconds or nanoseconds |
| `ArchiveRows.PlausibleExactlyWhen` | awsnative/backfill/epoch.py:37-67 | a value has a unit if and only if, in milliseconds or in microseconds, it lies between the starts of 2015 and 2040 as the calendar counts them |
| `ArchiveRows.ScalingIsExact` | awsnative/backfill/epoch.py:70-72 | scaling lands in the microsecond range and keeps order and distinctness |
| `ArchiveRows.UnitNormaliser.Call` | awsnative/backfill/epoch.py:92-101 | the first value fixes the unit, later ones must agree, and a refused value changes nothing |
| `ArchiveRows.ParseAggTrades` | awsnative/backfill/parsers.py:75-98 | the rows or the first error of an aggTrades file, equal to the line-by-line specification |
| `ArchiveRows.ParseKlines` | awsnative/backfill/parsers.py:101-129 | the same for a klines file |
| `ArchiveRows.SkippedWhenBlank` | awsnative/backfill/parsers.py:132-146 | a line is skipped if and only if it is blank; otherwise its column count decides |
| `ArchiveRows.TradesAreReadExactly` | awsnative/backfill/parsers.py:75-98 | accepted with these rows if and only if there is one row per nonblank line, each reading its columns, all in one unit |
| `ArchiveRows.KlinesAreReadExactly` | awsnative/backfill/parsers.py:101-129 | the same for klines, with both time columns held to the one unit |
| `ArchiveRows.AcceptedTimesAreComparable` | awsnative/backfill/epoch.py:92-101 | any two times of an accepted klines file, opening or closing, share a unit, lie in range and compare as the archive's numbers do |
| `ArchiveRows.AcceptedTradeTimesAreComparable` | awsnative/backfill/epoch.py:92-101 | the same for the times of an aggTrades file |
| `Staging.TableReadsBack` | awsnative/backfill/staging.py:121-122 | joined rows are read back by position, field by field |
| `Staging.StagedTradesReadBack` | awsnative/backfill/staging.py:89-118 | staged trades read back are one row per nonblank line, decimals character for character, in the declared order |
| `Staging.StagedKlinesReadBack` | awsnative/backfill/staging.py:67-86 | the same for bars |
| `Loader.VerifyAcceptsExactly` | awsnative/backfill/checksum.py:35-80 | a checksum is accepted if and only if the text names this file and the digest of these bytes |
| `Loader.Loader.Load` | awsnative/backfill/loader.py:69-92 | the store and the manifest row after one item, in every success, missing, refused and crashing case |
| `Loader.Stage` | awsnative/backfill/loader.py:99-105 | the staging text and row count for the item's tier |
| `Loader.Loader.DeletePrefix` | awsnative/backfill/loader.py:147-156 | removes exactly the keys under a prefix and counts them |
| `Loader.Loader.ClearStaging` | awsnative/backfill/loader.py:94-96 | removes exactly the keys under the two staging prefixes and counts them |
| `StagingGuarantees.StageOrNothing` | awsnative/backfill/loader.py:69-96 | after clearing and loading, staging objects exist exactly for DONE items with exactly their text; other keys are untouched |
| `StagingGuarantees.OrderDoesNotMatter` | awsnative/backfill/loader.py:69-92 | any order of the same items leaves the same store |
| `StagingGuarantees.PlannedItemsHaveOwnKeys` | awsnative/backfill/manifest.py:164-186 | a planned backfill meets what stage-or-nothing assumes of its items |
| `StagingGuarantees.DoneExactlyWhenLoadable` | awsnative/backfill/loader.py:78-92 | DONE if and only if both objects are there, the checksum matches, the zip holds one readable member and every line is a row |
| `LoaderOutcomes.StatusExactlyWhen` | awsnative/backfill/loader.py:69-92 | the manifest row names its item; it is SKIPPED_NO_DATA if and only if an object is absent, DONE with the digest if and only if the file is sound, FAILED and empty otherwise; the loader raises only where a fetch or the zip member breaks down |
| `StagingGuarantees.StagedWhole` | awsnative/backfill/loader.py:85-92 | a staging object reads back as row_count rows, one for each nonblank line of the archive file |
| `LoaderOutcomes.StagedUnderItsNames` | awsnative/backfill/loader.py:99-105 | every row staged for a planned file carries the instrument, and a trade also the symbol, of one requested pair |
| `StatementSplitter.SplitStatements` | awsnative/athena.py:46-88 | the two-flag loop computes the lexer's run and keeps the non-blank, stripped pieces, whose whole meaning is `StatementContents.SplitExactlyWhen` |
| `StatementSplitter.ResultsAreStatements` | awsnative/athena.py:46-88 | results are non-empty, trimmed, and free of `;` and `--` outside literals |
| `StatementSplitter.SplitIsIdempotent` | awsnative/athena.py:46-88 | splitting the `;`-join of the results returns them |
| `StatementSplitter.SplitAtSemicolon` | awsnative/athena.py:81-83 | `a;b` splits as `a` then `b` when `a` ends outside literals and comments |
| `StatementSplitter.SplitComposesExactlyWhen` | awsnative/athena.py:62-88 | it does so for every `b` if and only if `a` ends there |
| `StatementSplitter.OnlyCommentsAreLost` | awsnative/athena.py:53-55 | the pieces joined by `;` are the text with its comments cut out and nothing else |
| `StatementContents.OnlySpaceIsStripped` | awsnative/athena.py:88 | the visible characters of the results are those of the unstripped pieces, in order, and there is one result for each piece that is not blank |
| `StatementContents.CutIsUnique` | awsnative/athena.py:46-88 | there is exactly one way to cut the text, without its comments, at the `;` outside literals |
| `StatementContents.SplitExactlyWhen` | awsnative/athena.py:46-88 | a list is the answer if and only if it is the non-blank parts of such a cut, stripped |
| `RateLimit.TokenBucket.DoRefill` | ingest/core/ratelimit.py:30-34 | the refilled balance at the clock's reading |
| `RateLimit.TokenBucket.DoTryAcquire` | ingest/core/ratelimit.py:36-41 | grants exactly when the refilled balance suffices, and then takes the amount and no more |
| `RateLimit.TokenBucket.Acquire` | ingest/core/ratelimit.py:43-47 | a sole caller within capacity is served: at once when the balance suffices, else after one sleep for the deficit, paying the amount exactly once |
| `RateLimit.BalanceStaysInRange` | ingest/core/ratelimit.py:30-41 | the balance stays between zero and capacity over every history |
| `RateLimit.GrantedIsBounded` | ingest/core/ratelimit.py:30-41 | whatever came before, calls between two instants are granted at most capacity + rate * elapsed |
| `RateLimit.RefillsChangeNoDecision` | ingest/core/ratelimit.py:30-47 | a history and its acquisitions alone get the same answers |
| `RateLimit.BeyondCapacityNeverGranted` | ingest/core/ratelimit.py:36-47 | an amount above capacity is never granted |
| `RateLedger.TokensBalance` | ingest/core/ratelimit.py:30-41 | over every history, granted plus left plus lost to the capacity is what there was plus what the clock paid |
| `RateLedger.NothingIsLostExactlyWhen` | ingest/core/ratelimit.py:34 | granted plus left is all that was paid if and only if no call found the bucket paid beyond its capacity |
| `RateLedger.GrantedExactlyWhen` | ingest/core/ratelimit.py:36-41 | after every history an acquisition is granted if and only if what was paid less what was granted and lost covers it, and it then costs the amount |
| `RateLedger.BurstIsGranted` | ingest/core/ratelimit.py:36-41 | acquisitions at one instant that add up to at most the balance are all granted and cost their sum |
| `Bars.SumsCompose` | awsnative/bars.py:86-101 | sums and counts over group bars equal those over all trades |
| `Bars.ExtremaCompose` | awsnative/bars.py:93-94 | extremes over group bars equal those over all trades |
| `Bars.GrainDoesNotMatter` | awsnative/bars.py:105-138 | for every cut into groups, rolling up gives the same measures, or the same refusal, as the one bar of all trades |
| `Bars.MeasuresAreBounded` | awsnative/bars.py:117-138 | low <= vwap <= high and the flow imbalance lies between -1 and 1 |
| `Bars.MeasuresAreTheTrades` | awsnative/bars.py:105-138 | for every grouping a rollup is refused exactly at zero volume; otherwise its vwap, extremes, volume and count are those of the trades, and its flow is bought less sold |
| `Bars.BarRefusedExactlyWhen` | awsnative/bars.py:83-102 | a bar is refused if and only if there is no trade, the columns differ in length, or first and last price have no positive quotient |
| `Backoff.ReconnectDelays.SessionFailed` | ingest/core/ws.py:34-39 | a failure with k failures before it since the last clean end sleeps 2^k seconds lengthened by the jitter and cut at max, which lies between min(2^k, max) and max |
| `Backoff.ReconnectDelays.EndedCleanly` | ingest/core/ws.py:86-88 | a clean end starts the delays over |
| `Backoff.RunLoop` | ingest/core/ws.py:75-88 | `run` over any sessions sleeps exactly as specified and stops after the first session during or after which stop was set |
| `Backoff.KthFailureSleeps` | ingest/core/ws.py:75-88 | whatever came before, the session that fails after k failures in a row sleeps the k-th delay; one that finds stop set does not sleep |
| `Backoff.DelayIsExact` | ingest/core/ws.py:34-39 | a delay is 2^k and the jitter's share of it, or max where that is less |
| `PyText.SplitUndoesJoin` | awsnative/backfill/staging.py:121-122 | splitting undoes joining when no part holds the separator |
| `PyText.IntRoundTrip` | awsnative/backfill/staging.py:75-82 | the text of an integer reads back as that integer and cannot break a CSV line |
| `PyText.StripCuts` | awsnative/backfill/parsers.py:138-140 | strip removes white space at both ends and nothing else |
| `PyText.LinesMakeUpTheText` | awsnative/backfill/loader.py:118 | lines with their breaks are the text again, no line holds a break, and only a non-empty last line may lack one |
| `PyText.CarriageReturnTakesTheLineFeed` | awsnative/backfill/loader.py:118 | a carriage return and the line feed after it end one line |
| `PyText.SpaceSeparatesWords` | awsnative/backfill/checksum.py:37 | white space separates the words of a text and is no part of any |
| `PyText.NumeralsAreRead` | awsnative/backfill/parsers.py:75-129 | a text of digits is read as a number if and only if it is a numeral, and then as the number its digits write |

## Left out

- Fairness: what a run still can do is proved, and when it no longer can; that a scheduler does it is not.
- Cancelling `run` itself from outside and process exit; the steps modelled are those of a running `run`.
- The interleaving model lets a closing socket, a lifetime deadline or a server answer occur at any suspension
  point, so it has more runs than the event loop: what holds of every run holds of the program's. The runs that
  show a failure start drain before the first dial has completed, as `run` does, and need only a sink that raises,
  a session that outlives its lifetime, a slow repair, or a stop.
- Kafka's producer: drain ignores the pending count that its flush returns, so the end-to-end result is for Kinesis.
- Sleeps and jitter between Kinesis retries, and the encoding of a trade, which is an opaque function.
- A trade's own id: a lost Coinbase trade that a repair, or the snapshot of a new session, brings back under another
  number or none still counts as missing.
- Coinbase's repair, which is best effort by design and has no exact range to recover.
- JSON, gzip, zip, UTF-8 decoding, SHA-256 and HTTP are opaque; a staging object is modelled as its text before gzip.
- `float` and `Decimal` are exact reals; the squared log return is an opaque value and nothing is claimed of
  realized volatility.
- `int()` beyond ASCII digits, and Python's limit on the length of integer texts.
- `%Y` is taken to print four digits; for years before 1000 that depends on the platform.
- Negative amounts passed to `try_acquire`; every caller asks for a positive one.
- A response row of a type that raises `TypeError` ends the whole repair, which is the protocol's failed repair.
- The checksum's hexadecimal test also lets through signs, prefixes and underscores; the comparison with the digest
  refuses them with the same error, so only the message differs.
- A `put` to the object store that fails: the model's store always takes the object.
- The `.sql` merges, the lakehouse and enrichment jobs, dashboards, metrics, settings and the command lines.
