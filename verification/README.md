# Verification of the career tracker's stateful core

This project models the parts of the system whose behaviour depends on interleavings, histories or
arithmetic, and proves properties of every run of them. Each stateful component has two layers: a state
machine (`Step`, `Enabled`, `Apply`, `ValidRun`, `Exec`) whose steps are single database writes, queue
submissions or clock ticks, with theorems about all its runs; and, where the system updates objects in
place, a class whose methods are proved to perform exactly those steps.

- **Transactional outbox** (`OutboxModel`, `OutboxSafety`, `OutboxExclusivity`, `OutboxRetries`,
  `OutboxLimits`, `OutboxOutcomes`, `OutboxService`). Batch runs, fast-path publishers, queue workers and requeues interleave
  over one event table. Proved: nothing is marked processed without a job of its own; events are never lost
  or altered; timely batch runs never hold the same event; claims are bounded by retries and reported failures;
  a processing row is in some batch run's hands or was in those of a lost one.
  The assumptions appear as predicates on runs, and what each is needed for is proved too:
  - `HarmlessPayloads` (no payload names another event) is the exact condition for delivery
    (`OutboxSafety.DeliveryHoldsIff`).
  - `Timely` is the exact condition for held events to stay guarded (`OutboxExclusivity.TimelyIff`), and a step
    that exposes one with retries left loses exclusivity from any guarded state (`OutboxExclusivity.ExposedIsShared`).
    Its three parts each have a run that violates it alone (`OutboxLimits.LateFailureIsShared`,
    `OutboxLimits.OverstayedLeaseIsShared`, `OutboxLimits.InFlightRequeueIsShared`). Without retryable failure reports
    leases may be of any age (`OutboxExclusivity.ExclusiveWithoutFailures`).
  - The bound on claims holds in every timely run, whatever workers do: `maxRetries` plus the failures they report
    (`OutboxRetries.RetryBudget`), reached exactly (`OutboxLimits.BudgetIsTight`). That retry counts equal claims needs
    workers that count no retry themselves (`OutboxLimits.BumpsAreNotClaims`), that a dead row has used up its retries
    needs workers without permanent failures (`OutboxLimits.PermanentFailureIsUncounted`), and both need requeues of
    events not in flight (`OutboxLimits.InFlightRequeueMiscounts`).
- **Durable Gmail checkpoints** (`LeaseModel`, `LeaseSafety`, `LeaseProgress`, `LeaseService`, `EmailJobs`,
  `AdvisoryKey`) and the **batch checkpoint** (`LegacyCheckpoint`, `CheckpointCounts`). Version fencing, lease exclusion, what a crash can block,
  per-email accounting, and exactly when the history cursor tells the truth.
- **Canonical facts** (`Canonical`, `CanonicalService`) and **fact history** (`FactHistory`). Precedence with a
  margin is not transitive; the project proves exactly when the order of materialisation is irrelevant, how
  far a slot can drift, and that supersession links form a forest.
- **Statistics** (`Evaluation`, `Wilson`, `Analytics`). Calibration and Brier bounds, the Wilson interval as the
  inverse of a score test, and the grouping loops, in exact reals.
- **Addresses** (`Words`, `Text`, `IPv4`, `IPv6`). Accepted texts characterised by grammars in both directions,
  masks as quotients, and the classification of embedded addresses (RFC 4291).
- **Caches and envelopes** (`Cache`, `Dashboard`, `Cipher`, `Kms`, `TokenCrypto`). Bounded staleness of the
  dashboard over all runs; envelope encryption that is transparent to every cache state.

Where code and comments disagree, the model follows the code:

- The outbox header says expired claims become claimable again (`src/services/event/outbox-dispatcher.service.ts:11-12`);
  the query looks at leases of `failed` rows only, so a `processing` row whose run died stays as it is
  (`OutboxLimits.AbandonedStaysProcessing`).
- Delivery is described as retried by the outbox when the fast path fails; after a worker has marked a row
  `failed`, no retry is counted and no due time is set (`OutboxLimits.WorkersBypassAccounting`).
- The precedence rules promise never to lower confidence and recency together
  (`src/domain/candidate-intelligence.ts:522-524`), which holds (`Canonical.NeverDowngradesBoth`); confidence alone
  can still sink, by a margin of 0.001 per promotion, from one to zero in a thousand (`Canonical.DriftIsTight`,
  `Canonical.SlideIsProper`).
- The batch checkpoint is described as advancing when all emails are processed
  (`src/services/gmail/checkpoint.service.ts:100-102`); its caller completes the batch after every email and sets no
  total, so the second email erases the cursor (`LegacyCheckpoint.DoubleCompletionForgets`).
- Embedded quads are announced without exception (`src/lib/ssrf-guard.ts:84-87`); a quad directly after the gap is
  refused while one after three colons is read (`IPv6.QuadAfterGapFails`, `IPv6.QuadAfterThreeColons`).

## Model

| member | source | states |
|---|---|---|
| OutboxSafety.ProcessedMeansSubmitted | src/services/event/outbox-dispatcher.service.ts:171-274 | in every interleaving without payloads naming other events, a processed event has a submitted job built from it that reports to it (or to nobody, if its payload blanks the id), or its type has no queue |
| OutboxSafety.EventsAreDurable | src/services/event/event-dispatcher.service.ts:84-108 | no step drops an event or a submission, or changes an event's type, owner, cell, payload or correlation id |
| OutboxSafety.DeliveryHolds | src/services/event/event-worker.ts:28-54 | the delivery invariant over rows, fast-path claims, queue and batch runs holds in every state reached without payloads naming other events |
| OutboxSafety.OutboxJobReportsHome | src/services/event/outbox-dispatcher.service.ts:181-187 | a dispatcher's job reports to its own event if and only if the payload's event id, if any, agrees; the fast path's always does |
| OutboxSafety.PathsAgree | src/services/event/event-dispatcher.service.ts:110-160 | both paths submit to the same queue with the same data, user and cell aside |
| OutboxSafety.PayloadCanMisreport | src/services/event/outbox-dispatcher.service.ts:181-187 | for any two routed events, a payload naming the second in the first gets the second marked processed though nobody submitted it |
| OutboxSafety.DeliveryHoldsIff | src/services/event/outbox-dispatcher.service.ts:181-187 | among otherwise harmless events, one event keeps delivery safe in every run if and only if no queue sees its payload name another event |
| OutboxSafety.OutboxEnvelopeIff | src/services/event/outbox-dispatcher.service.ts:181-223 | a dispatcher's job has every envelope key, with the event's value if and only if the payload does not contradict it |
| OutboxSafety.FastPathEnvelopeIff | src/services/event/event-dispatcher.service.ts:110-154 | a fast-path job has the event's id and correlation id always, its owner and cell if and only if the payload supplies them |
| OutboxSafety.TagIsKept | src/services/event/outbox-dispatcher.service.ts:206-223 | the job's type tag is its event's on both paths, whatever the payload says |
| OutboxSafety.ContextIsPreserved | src/services/event/outbox-dispatcher.service.ts:14-19 | in every interleaving, every submitted job keeps each part of its event's context that the payload does not contradict |
| OutboxExclusivity.ClaimsAreExclusive | src/services/event/outbox-dispatcher.service.ts:123-165 | in every timely run, no two batch runs hold the same event, whatever publishers and workers write |
| OutboxExclusivity.StepKeepsGuardsIff | src/services/event/outbox-dispatcher.service.ts:123-165 | from any guarded, exclusive state, a step keeps held events guarded if and only if it is timely |
| OutboxExclusivity.TimelyIff | src/services/event/outbox-dispatcher.service.ts:123-165 | a run keeps held events guarded after every prefix if and only if it is timely |
| OutboxExclusivity.HeldClaimableIsShared | src/services/event/outbox-dispatcher.service.ts:131-160 | in any state, a held event that the claim query accepts can be claimed by any new run, which ends exclusivity |
| OutboxExclusivity.FailedBecomesClaimable | src/services/event/outbox-dispatcher.service.ts:135-142 | a failed row with retries left is claimable at all times once its lease and due time have passed |
| OutboxExclusivity.ExposedIsShared | src/services/event/outbox-dispatcher.service.ts:131-160 | after any run with guarded events, exposing one with retries left leads to two batch runs holding it |
| OutboxExclusivity.ExclusiveWithoutFailures | src/services/event/outbox-dispatcher.service.ts:123-165 | with leases of any age: as long as workers report no retryable failure and nothing in flight is requeued |
| OutboxExclusivity.StatusChanges | src/services/event/event-worker.ts:45-55 | only inserts and requeues make a row pending, only failure reports and failure writes make it failed |
| OutboxExclusivity.LeaseChanges | src/services/event/event-worker.ts:49-55 | only claims, settlements and requeues change a lease |
| OutboxExclusivity.GuardedIsNotClaimable | src/services/event/outbox-dispatcher.service.ts:131-146 | a held event that is not pending, and leased if it failed, cannot be selected |
| OutboxRetries.RetriesAreAccounted | src/services/event/outbox-dispatcher.service.ts:276-305 | while workers report no failure, count no retry and nothing in flight is requeued, every row's retry count, status and due time account for its claims since the last requeue |
| OutboxRetries.RetryBudget | src/services/event/outbox-dispatcher.service.ts:276-305 | in every timely run, whatever workers do, an event is claimed between requeues at most maxRetries times plus once per retryable failure its workers report |
| OutboxRetries.PlainBudget | src/services/event/outbox-dispatcher.service.ts:276-305 | without retryable worker failures, at most maxRetries times, with leases of any age |
| OutboxRetries.StatusPinsRetries | src/services/event/outbox-dispatcher.service.ts:282-305 | while workers fail nothing and count no retry: failed means 0 < retries < maxRetries with a due time; dlq means exactly maxRetries retries and claims |
| OutboxRetries.BackoffIsBounded | src/services/event/outbox-dispatcher.service.ts:286-291 | successive delays never shrink and stay between one second and one minute |
| OutboxRetries.DispatchTerminates | src/services/event/outbox-dispatcher.service.ts:103-117 | without requeues and retryable worker failures, n events cause at most n * maxRetries dispatch attempts, however long the run |
| OutboxRetries.DispatchesAreBounded | src/services/event/outbox-dispatcher.service.ts:103-117 | in every timely run without requeues, at most n * maxRetries plus the number of failure reports |
| OutboxLimits.AbandonedStaysProcessing | src/services/event/outbox-dispatcher.service.ts:131-142 | a processing row nobody holds stays so for ever unless a publisher, worker or requeue touches it |
| OutboxLimits.WorkersBypassAccounting | src/services/event/event-worker.ts:45-55 | for every routed event, a timely run in which a worker leaves its row failed with no retry counted and no due time |
| OutboxLimits.NoBudgetWithFailures | src/services/event/event-worker.ts:45-55 | no bound on claims is independent of failure reports: for every k, a timely run without requeue with k dispatches and no retry counted |
| OutboxLimits.BudgetIsTight | src/services/event/event-worker.ts:45-55 | for every f, a timely run with f failure reports and exactly maxRetries + f claims |
| OutboxLimits.PermanentFailureIsUncounted | src/services/event/event-worker.ts:45-55 | a permanent worker failure leaves a dead row with no retry counted |
| OutboxLimits.BumpsAreNotClaims | src/services/event/event-worker.ts:18-26 | for every k, a run with no dispatch at all and a retry count of k |
| OutboxLimits.OverstayedLeaseIsShared | src/services/event/outbox-dispatcher.service.ts:135-141 | a run that is timely up to the tick in which the lease of a failed event in flight runs out; a second run then claims it |
| OutboxLimits.LateFailureIsShared | src/services/event/event-worker.ts:45-55 | a run that is timely up to a failure report after the lease ran out; a second run then claims the event |
| OutboxLimits.InFlightRequeueIsShared | src/services/event/outbox-dispatcher.service.ts:323-342 | a run without workers that is timely up to a requeue in flight; a second run then claims the event |
| OutboxLimits.InFlightRequeueMiscounts | src/services/event/outbox-dispatcher.service.ts:323-342 | after a requeue in flight the old run still counts a retry, against no claim |
| OutboxOutcomes.ProcessingIsHeldOrDropped | src/services/event/outbox-dispatcher.service.ts:123-165 | over every run, a processing row is in some batch run's hands, or one was lost with it in hand since its last claim |
| OutboxOutcomes.NothingIsStuck | src/services/event/outbox-dispatcher.service.ts:171-305 | in every run that loses no batch, an event nobody holds is pending, processed, failed or dead |
| OutboxOutcomes.OldestIsDispatchedFirst | src/services/event/outbox-dispatcher.service.ts:143-160 | in every run, a batch has its events before it in order of creation, none twice |
| OutboxOutcomes.EachTypeHasItsQueue | src/services/event/outbox-dispatcher.service.ts:188-226 | in every run, whichever path submitted a job and whatever its payload says, its queue and type tag are those of its event's type; unmapped types have no job |
| OutboxOutcomes.SettleFinishes | src/services/event/outbox-dispatcher.service.ts:262-274 | a settled event is processed now and free of its lease; nothing else about it or any other row changes |
| OutboxOutcomes.FailureIsScheduled | src/services/event/outbox-dispatcher.service.ts:282-305 | a failed dispatch is claimable exactly from its backoff on, or never once its retries are used up; nothing else changes |
| OutboxOutcomes.RequeueIsClaimable | src/services/event/outbox-dispatcher.service.ts:323-342 | a requeued event is claimable at any time, with all its retries and its event untouched |
| OutboxOutcomes.ReportsFinish | src/services/event/event-dispatcher.service.ts:97-108 | the fast path's mark and a worker's success write status and time alone, and leave even a lease |
| OutboxOutcomes.ClaimTakes | src/services/event/outbox-dispatcher.service.ts:147-160 | exactly the claimed rows become processing, leased to the owner until a lease from the start, with the error cleared |
| OutboxOutcomes.ClaimsAreDue | src/services/event/outbox-dispatcher.service.ts:131-146 | nothing is claimed before it is due, under a live lease, without retries left or locked by others |
| OutboxOutcomes.OldestIsClaimed | src/services/event/outbox-dispatcher.service.ts:143-145 | no unlocked claimable event is passed over for a younger one |
| OutboxOutcomes.ClaimsFillTheBatch | src/services/event/outbox-dispatcher.service.ts:131-146 | a claim stops short of the batch size only when nothing claimable is left |
| OutboxOutcomes.BackoffDoubles | src/services/event/outbox-dispatcher.service.ts:286-291 | the delay is a second first and doubles until it reaches a minute |
| OutboxService.OutboxDispatcher.SelectClaimable | src/services/event/outbox-dispatcher.service.ts:131-146 | the oldest claimable rows not locked by others, up to the batch size |
| OutboxService.OutboxDispatcher.ClaimBatch | src/services/event/outbox-dispatcher.service.ts:123-165 | selects and claims in one step of the machine, or changes nothing |
| OutboxService.OutboxDispatcher.MarkProcessed | src/services/event/outbox-dispatcher.service.ts:262-274 | the row becomes processed now with its lease cleared, no other changes, and the run moves on by one event |
| OutboxService.OutboxDispatcher.WriteVerdict | src/services/event/outbox-dispatcher.service.ts:282-305 | failed and due after the backoff, or dead, column by column from the retry count read earlier; when the write throws, the batch is lost and its rows stay |
| OutboxService.OutboxDispatcher.DispatchEvent | src/services/event/outbox-dispatcher.service.ts:171-256 | dispatched means processed now with a new submission for this event, to be retried means failed or dead; steps of others may come between |
| OutboxService.OutboxDispatcher.DispatchBatch | src/services/event/outbox-dispatcher.service.ts:103-117 | every claimed event is dispatched or scheduled in order, unless a status write threw and ended the batch |
| OutboxService.OutboxDispatcher.PublishInTransaction | src/services/event/event-dispatcher.service.ts:48-76 | inserts a pending row and submits nothing |
| OutboxService.OutboxDispatcher.PublishFromEvent | src/services/event/event-dispatcher.service.ts:84-108 | its own steps are a submission and then the mark or nothing, with any steps of others in between; published means processed and delivered |
| OutboxService.OutboxDispatcher.WithEventLifecycle | src/services/event/event-worker.ts:6-70 | a job without event id, or of an unknown event, writes nothing; otherwise a bump on later attempts, any steps of others, then processed, failed or, on the last attempt, dlq |
| OutboxService.OutboxDispatcher.RequeueDlqEvent | src/services/event/outbox-dispatcher.service.ts:323-342 | the row becomes pending with no retries, error, due time or lease; a missing row changes nothing |
| LeaseSafety.VersionCountsCommits | src/services/gmail/durable-checkpoint.service.ts:92-117 | over every run the version has risen by exactly the number of versioned writes that took effect |
| LeaseSafety.AdvanceIsFenced | src/services/gmail/durable-checkpoint.service.ts:144-188 | an advance takes effect if and only if no versioned write committed since its read; otherwise it changes nothing |
| LeaseSafety.RecoveryIsNotFenced | src/services/gmail/durable-checkpoint.service.ts:372-392 | whatever stale row is recovered between an advance's read and its write, the advance still takes effect and, with another page, restores the old owner |
| LeaseSafety.LeaseIsExclusive | src/services/gmail/durable-checkpoint.service.ts:289-330 | in every disciplined run at most one worker holds an unexpired lease on a user's checkpoint |
| LeaseSafety.StepKeepsLeasesIff | src/services/gmail/durable-checkpoint.service.ts:138-200 | a step keeps every holder on record if and only if it is disciplined |
| LeaseSafety.LeasesAreRecordedIff | src/services/gmail/durable-checkpoint.service.ts:138-200 | a run keeps every holder on record throughout if and only if all its steps are disciplined |
| LeaseSafety.AtomicAdvanceKeepsLeasesIff | src/services/gmail/durable-checkpoint.service.ts:144-173 | an uninterrupted advance does so if and only if, with another page, the row names its caller as owner and, as the last, nobody else holds a lease |
| LeaseSafety.HolderMayAdvance | src/services/gmail/durable-checkpoint.service.ts:144-173 | an advance under the caller's own unexpired lease is always disciplined |
| LeaseSafety.LateAdvanceBreaksExclusion | src/services/gmail/durable-checkpoint.service.ts:158-173 | a run from the start in which a last advance by a worker that lost its lease lets a third worker in beside the holder |
| LeaseSafety.CrashBlocksAtMostOneLease | src/services/gmail/durable-checkpoint.service.ts:307-319 | whatever others do after a holder crashes, once the lease duration has passed any worker may claim, or another worker holds an unexpired lease |
| LeaseSafety.BlockedForeverIff | src/services/gmail/durable-checkpoint.service.ts:308-319 | an untouched row refuses a worker for ever exactly when it syncs with no expiry under another owner |
| LeaseSafety.EarlyReleaseBlocks | src/services/gmail/durable-checkpoint.service.ts:353-366 | releasing in mid-sync makes such a row |
| LeaseProgress.CursorIsLastAdvanced | src/services/gmail/durable-checkpoint.service.ts:92-200 | over every run, the history cursor is the id of the last advance that took effect, what a later compare-and-set put, or its initial value; no start, refresh, release, recovery or refused call loses it |
| LeaseProgress.ResumeIsLastSaid | src/services/gmail/durable-checkpoint.service.ts:92-200 | over every run, pending history id and page token are what the last start, advance or compare-and-set that took effect said |
| LeaseProgress.InitializeGrants | src/services/gmail/durable-checkpoint.service.ts:84-132 | a granted start syncs under its worker for five minutes, keeps the last error, makes its batch and touches no other row; a refused one changes nothing |
| LeaseProgress.ClaimsIff | src/services/gmail/durable-checkpoint.service.ts:307-319 | others may claim only a missing, settled or stale row; the owner always |
| LeaseProgress.AdvanceCloses | src/services/gmail/durable-checkpoint.service.ts:158-188 | an advance closes its batch with failures exactly if it counted some, and goes on syncing exactly with another page |
| LeaseProgress.RefreshExtends | src/services/gmail/durable-checkpoint.service.ts:336-348 | a refresh by the syncing owner keeps everybody else out for five minutes from now |
| LeaseProgress.OnlyOwnersRefresh | src/services/gmail/durable-checkpoint.service.ts:336-348 | any other refresh changes nothing |
| LeaseProgress.ReleaseFrees | src/services/gmail/durable-checkpoint.service.ts:353-366 | a release by the owner frees the row and keeps all else; by another it changes no row |
| LeaseProgress.RecoveryFrees | src/services/gmail/durable-checkpoint.service.ts:372-392 | a recovery idles stale syncing rows, notes why, keeps their progress and touches no other row |
| LeaseProgress.CompareAndSetPuts | src/services/gmail/durable-checkpoint.service.ts:497-510 | on the expected version, the data under the next one; on any other, nothing |
| LeaseService.DurableCheckpointService.ClaimCheckpoint | src/services/gmail/durable-checkpoint.service.ts:289-330 | grants exactly when the model's claim test does |
| LeaseService.DurableCheckpointService.InitializeSyncOp | src/services/gmail/durable-checkpoint.service.ts:53-132 | claims, creates the batch and writes the row in one step that keeps the history cursor, or fails and changes nothing |
| LeaseService.DurableCheckpointService.ReadForAdvance | src/services/gmail/durable-checkpoint.service.ts:144-156 | what an advance carries to its write, or which row is missing |
| LeaseService.DurableCheckpointService.WriteAdvance | src/services/gmail/durable-checkpoint.service.ts:156-188 | the conditional write of an advance and the closing of its batch |
| LeaseService.DurableCheckpointService.RefreshLease | src/services/gmail/durable-checkpoint.service.ts:336-348 | extends the lease exactly for the owner of a syncing row |
| LeaseService.DurableCheckpointService.ReleaseLease | src/services/gmail/durable-checkpoint.service.ts:353-366 | clears owner and expiry of the worker's row in any status |
| LeaseService.DurableCheckpointService.RecoverStaleLeases | src/services/gmail/durable-checkpoint.service.ts:372-392 | returns every expired syncing row to idle and counts them |
| LeaseService.DurableCheckpointService.CompareAndSetVersion | src/services/gmail/durable-checkpoint.service.ts:497-510 | writes and raises the version exactly when it is the expected one |
| AdvisoryKey.WrapsOnce | src/services/gmail/durable-checkpoint.service.ts:521-524 | wrapping shift and sum at every step equals wrapping once |
| AdvisoryKey.GetAdvisoryKey | src/services/gmail/durable-checkpoint.service.ts:518-527 | the key is the absolute value, modulo 2^31 - 1, of the wrapped base-31 polynomial of the user id |
| EmailJobs.BooksBalance | src/services/gmail/durable-checkpoint.service.ts:427-477 | over any calls: one row per email, attempts sum to the calls, and each counter is its rows plus the repeats |
| EmailJobs.CountersBoundRows | src/services/gmail/durable-checkpoint.service.ts:463-475 | a counter is never below its rows, and equal if and only if no email was counted twice |
| EmailJobs.CountersCountSettledCalls | src/services/gmail/durable-checkpoint.service.ts:463-475 | processed plus failed counts exactly the non-retryable calls |
| EmailJobs.EachCounterApart | src/services/gmail/durable-checkpoint.service.ts:463-475 | over any calls, the processed counter rises by the processed and skipped ones and the failed counter by the failed and permanently failed ones |
| EmailJobs.RowsAreLastReports | src/services/gmail/durable-checkpoint.service.ts:435-461 | over any calls, an email's row holds the status of its last call and the last error given, and exists exactly if it was called |
| EmailJobs.EmailJobTracker.TrackEmailJob | src/services/gmail/durable-checkpoint.service.ts:427-477 | updates rows and counters as the specification does |
| LegacyCheckpoint.CursorIsTruthful | src/services/gmail/checkpoint.service.ts:18-190 | with a user's batches one at a time, each succeeding before it has ended, the cursor is truthful throughout; marks and totals may come late |
| LegacyCheckpoint.CursorIsTruthfulIff | src/services/gmail/checkpoint.service.ts:18-190 | over every run, the cursor is its initial value or the last successful batch's history id after every prefix if and only if every success is awaited |
| LegacyCheckpoint.SequentialIsAwaited | src/services/gmail/checkpoint.service.ts:18-190 | batches one at a time, each succeeding before it has ended, have only awaited successes |
| LegacyCheckpoint.CompletionIsTruthfulIff | src/services/gmail/checkpoint.service.ts:126-136 | after any run, a success moves the cursor to its batch's own history id if and only if that id waits: it is of the last started batch, with no success since |
| LegacyCheckpoint.OverlapMisreports | src/services/gmail/checkpoint.service.ts:33-45 | for any two overlapping batches, completing the first moves the cursor to the history id of the unfinished second |
| LegacyCheckpoint.DoubleCompletionForgets | src/services/queue/workers/application-tracking.worker.ts:99-109 | for every n emails marked and completed one by one: the cursor is the batch's history id after the first and none after any further one |
| CheckpointCounts.CompletionOutcome | src/services/gmail/checkpoint.service.ts:103-164 | after any run, a completion moves the cursor if and only if no email was reported failed and at least the last total succeeded; fails the batch if all were reported and some failed; changes nothing otherwise |
| CheckpointCounts.MovedCursorIsComplete | src/services/gmail/checkpoint.service.ts:117-136 | over every run, a batch that moves a cursor had no failed report and at least as many successful ones as the last total set for it |
| CheckpointCounts.BatchCountsMarks | src/services/gmail/checkpoint.service.ts:88-96 | over every run, a batch's counters are its reports and its total the last one set |
| CheckpointCounts.CursorChangesOnlyBy | src/services/gmail/checkpoint.service.ts:117-136 | a step changes a cursor only by completing a batch of that user with no failures and every email of its total processed |
| CheckpointCounts.StartMakesPending | src/services/gmail/checkpoint.service.ts:33-55 | a start makes its id pending, keeps the cursor, and leaves other users and batches alone |
| CheckpointCounts.ReportsOnlyCount | src/services/gmail/checkpoint.service.ts:88-96 | a report raises its own counter alone and sets the batch processing; a total is only noted |
| CheckpointCounts.FailureKeepsProgress | src/services/gmail/checkpoint.service.ts:169-190 | a failed batch marks itself and the checkpoint, and keeps cursor and pending id |
| LegacyCheckpoint.GmailCheckpointService.Complete | src/services/gmail/checkpoint.service.ts:103-164 | nothing while reports are missing; else, by the counters themselves, the pending id becomes the cursor or batch and checkpoint fail |
| LegacyCheckpoint.GmailCheckpointService.Start | src/services/gmail/checkpoint.service.ts:18-55 | creates the batch and overwrites the pending history id |
| LegacyCheckpoint.GmailCheckpointService.MarkEmailProcessed | src/services/gmail/checkpoint.service.ts:88-96 | raises one counter and sets the batch processing; nothing for an unknown batch |
| LegacyCheckpoint.GmailCheckpointService.SetBatchTotal | src/services/gmail/checkpoint.service.ts:208-213 | sets the total that completion compares with |
| LegacyCheckpoint.GmailCheckpointService.Fail | src/services/gmail/checkpoint.service.ts:169-190 | fails batch and checkpoint without touching the cursor |
| Canonical.ConfluentIffDominated | src/services/candidate-intelligence/canonical-intelligence.service.ts:226-343 | order and replays never matter if and only if some fact beats every fact of different standing |
| Canonical.SeparatedIsConfluent | src/domain/candidate-intelligence.ts:511-537 | confidences equal or more than the margin apart within a class: every order and replay ends in the same standing |
| Canonical.SeparatedHasMaximum | src/services/candidate-intelligence/canonical-intelligence.service.ts:138-150 | separated facts have one that beats all others |
| Canonical.CycleOfWins | src/services/candidate-intelligence/canonical-intelligence.service.ts:138-150 | three machine facts that beat each other in a circle |
| Canonical.DriftIsBounded | src/services/candidate-intelligence/canonical-intelligence.service.ts:260-326 | a corrected slot is never lost to a machine fact, and k promotions cost at most k margins of confidence |
| Canonical.DriftIsTight | src/services/candidate-intelligence/canonical-intelligence.service.ts:143-149 | for every k, k promotions can cost exactly k margins |
| Canonical.SlideIsProper | src/services/fact.service.ts:109-112 | a thousand of its facts have confidences in [0, 1] |
| Canonical.PromotionGains | src/services/candidate-intelligence/canonical-intelligence.service.ts:266-292 | a promotion within a class raises confidence beyond the margin or raises recency at a cost within it |
| Canonical.NeverDowngradesBoth | src/domain/candidate-intelligence.ts:522-524 | an offer lower in confidence and not newer is rejected |
| CanonicalService.CanonicalIntelligenceService.Materialise | src/services/candidate-intelligence/canonical-intelligence.service.ts:170-344 | succeeds if and only if the fact exists, is the caller's, current, undeleted and reviewed or corrected, and the cell is home, else the first failing check is the error; promotes exactly on an empty slot, a correction, a sureness margin or a tie's newer date; every slot keeps a fact of its own user and type |
| CanonicalService.CanonicalIntelligenceService.Retire | src/services/candidate-intelligence/canonical-intelligence.service.ts:350-365 | hides a slot without changing which fact it stands for |
| CanonicalService.CanonicalIntelligenceService.FactsChange | src/services/fact.service.ts:259-388 | facts may be added, superseded, deleted or reviewed without changing which fact a slot stands for |
| CanonicalService.PrecedencesAgree | src/services/fact.service.ts:64-100 | the two precedence functions agree on usable facts, for both winners |
| FactHistory.ForestHolds | src/services/fact.service.ts:259-325 | in every reachable store each link goes to a later fact of the same user and type, one version up, and no fact is linked to twice |
| FactHistory.ChainIsAHistory | src/services/fact.service.ts:346-361 | a history follows links to the end, lists consecutive versions and never repeats |
| FactHistory.MeetingChainsAreOne | src/services/fact-correction.service.ts:175-190 | two histories that meet are one: a start of one lies on the other |
| FactHistory.LinksStayIff | src/services/fact-correction.service.ts:74-81 | a step keeps all links if and only if it does not correct a superseded fact |
| FactHistory.RecorrectionForksHistory | src/services/fact-correction.service.ts:47-81 | a run in which correcting a superseded fact drops its old successor from its history |
| FactHistory.FlagsTellHistory | src/services/fact-correction.service.ts:47-81 | over every run, a fact is deleted exactly if it was soft-deleted, corrected exactly if a user correction made it, and current exactly if neither superseded nor deleted |
| FactHistory.DeletedIsNotFound | src/services/fact.service.ts:380-388 | over every run, a deleted fact is never again found to be superseded, and never copied |
| FactHistory.RecordSupersedes | src/services/fact.service.ts:259-325 | a record supersedes a current fact of its user and type exactly if there is one, and then one whose version no other current one exceeds; nothing else changes |
| FactHistory.CopyFreezes | src/services/snapshot.service.ts:128-151 | a copy is current, keeps user, type and version, loses the correction flag, and leaves every other fact alone |
| FactHistory.FactService.RecordFact | src/services/fact.service.ts:259-325 | supersedes a current fact of the highest version, found by a search over the table |
| FactHistory.FactService.ProposeCorrection | src/services/fact-correction.service.ts:47-81 | one correction step, or nothing when the fact is missing |
| FactHistory.FactService.DeleteFact | src/services/fact.service.ts:380-388 | a soft delete keeps the row and its links; nothing for an unknown fact |
| FactHistory.FactService.CreateSnapshot | src/services/snapshot.service.ts:115-151 | adds a copy of every current fact, changes no other, and keeps the forest |
| FactHistory.FactService.GetFactHistory | src/services/fact.service.ts:346-361 | terminates with exactly the chain of its fact |
| Evaluation.CalibrationBound | src/services/evaluation/prediction-evaluation.service.ts:137-181 | average confidence and accuracy differ by at most the calibration error plus half a bucket |
| Evaluation.CalibrationBoundIsTight | src/services/evaluation/prediction-evaluation.service.ts:137-181 | for every number of buckets, predictions that meet the bound with equality |
| Evaluation.BrierBound | src/services/evaluation/prediction-evaluation.service.ts:95-115 | the Brier score is at least the squared gap of average confidence and accuracy |
| Evaluation.BrierIsZeroIffPerfect | src/services/evaluation/prediction-evaluation.service.ts:95-115 | the Brier score is never negative, and zero exactly when every forecast was certain and right |
| Evaluation.ReportAverages | src/services/evaluation/prediction-evaluation.service.ts:107-115 | each column by its meaning: the totals, and the averages of outcome, confidence and squared error |
| Evaluation.AllOrNoneCorrect | src/services/evaluation/prediction-evaluation.service.ts:92 | the correct count is full exactly when all predictions are correct and zero exactly when none is |
| Evaluation.CapabilitiesShareOut | src/services/evaluation/prediction-evaluation.service.ts:88-98 | every prediction is counted under its own capability, or "unknown", as often as it occurs, and under no other |
| Evaluation.RowsAreOccupied | src/services/evaluation/prediction-evaluation.service.ts:151-181 | the report has one row for each occupied bucket, in order, with its midpoint, accuracy and gap |
| Evaluation.BucketsPartition | src/services/evaluation/prediction-evaluation.service.ts:144-149 | any measure summed bucket by bucket is its sum over the predictions |
| Evaluation.CountsSumToTotal | src/services/evaluation/prediction-evaluation.service.ts:144-164 | bucket counts sum to the evaluated predictions |
| Evaluation.FailsIffNegative | src/services/evaluation/prediction-evaluation.service.ts:144-148 | a prediction misses every bucket exactly when its confidence is negative or there are no buckets |
| Evaluation.GroupByCapability | src/services/evaluation/prediction-evaluation.service.ts:86-98 | one accumulator per capability seen, summing that capability's predictions alone |
| Evaluation.AccuracyReport | src/services/evaluation/prediction-evaluation.service.ts:88-116 | one row per capability with evaluated predictions, from those predictions alone |
| Evaluation.FillBuckets | src/services/evaluation/prediction-evaluation.service.ts:138-149 | each bucket counts exactly its predictions; fails if and only if some prediction has no bucket |
| Evaluation.Calibrate | src/services/evaluation/prediction-evaluation.service.ts:123-182 | the non-empty rows and the expected calibration error, or the failure |
| Wilson.IntervalIsPlausible | src/services/analytics.service.ts:361-370 | a rate is in the interval if and only if total * (p - x)^2 <= z^2 * x(1 - x); the clamps never bind |
| Wilson.RateIsEnclosed | src/services/analytics.service.ts:355-370 | 0 <= lower <= rate <= upper <= 1, also without data |
| Wilson.RateIsShare | src/services/analytics.service.ts:355-370 | the rate is the share of successes; without data, rate and bounds are zero |
| Wilson.BoundsAreMonotone | src/services/analytics.service.ts:361-370 | more successes out of the same total lower neither bound |
| Wilson.MoreDataNarrows | src/services/analytics.service.ts:361-370 | the same proportion in more data gives an interval inside the first |
| Wilson.FailuresMirrorSuccesses | src/services/analytics.service.ts:361-370 | swapping successes and failures reflects the interval's centre and keeps its root |
| Wilson.LowerIsZeroIffNoSuccess | src/services/analytics.service.ts:361-370 | with data, the lower bound is zero if and only if nothing succeeded |
| Wilson.NoIntervalIff | src/services/analytics.service.ts:361-370 | the radicand is negative, and no interval exists, if and only if 4s(s - n) > z^2 n; never with s at most n |
| Wilson.NoIntervalIffNoProportion | src/services/analytics.service.ts:361-370 | for counts: no interval exists if and only if successes are negative or exceed the total |
| Analytics.ResumePerformance | src/services/analytics.service.ts:67-95 | keys in order of first use, each with the exact counts of its applications |
| Analytics.TimingPerformance | src/services/analytics.service.ts:216-250 | always the three buckets, with exact counts |
| Analytics.RowsAreNested | src/services/analytics.service.ts:78-80 | offers <= interviews <= applications in every row of both loops |
| Analytics.RowsPartitionApplications | src/services/analytics.service.ts:71-82 | the rows add up to the applications |
| Analytics.RowsCountStatuses | src/services/analytics.service.ts:372-384 | a row's interviews are its applications at interview, assessment or offer, its offers those at offer |
| Analytics.RowsCountVersions | src/services/analytics.service.ts:71-82 | a resume row counts the applications of its version, and "unlinked" those without one |
| Analytics.TimingBuckets | src/services/analytics.service.ts:224-235 | the bucket of every delay in milliseconds, and of none |
| Analytics.RatesAreOrdered | src/services/analytics.service.ts:84-95 | both rates enclosed in [0, 1], and offer bounds never above interview bounds |
| Analytics.ActionPerformance | src/services/analytics.service.ts:112-130 | per action type: the set of linked applications and the counts with repeats |
| Analytics.ActionRowsAreNestedIff | src/services/analytics.service.ts:124-128 | mentions are nested for every assignment of statuses if and only if no application is mentioned twice |
| Analytics.ActionTableIsNestedIff | src/services/analytics.service.ts:117-144 | the same of the rows the loop builds, for the actions of one type |
| Analytics.MentionsAreLookups | src/services/analytics.service.ts:117-129 | what the loop sees of linked actions is their applications' identifiers with looked-up statuses |
| Analytics.MentionedAreLinked | src/services/analytics.service.ts:117-129 | a row's applications are exactly the existing ones its actions are linked to by a nonempty identifier |
| Analytics.RowsWithoutRepeats | src/services/analytics.service.ts:117-144 | a row of the loop's table without repeated mentions is nested and its intervals exist: both radicands are positive |
| Analytics.RepeatedActionHasNoInterval | src/services/analytics.service.ts:117-144 | two or more actions on one interviewed application: no real root exists for the interval |
| IPv4.AcceptsExactlyPrinted | src/lib/ssrf-guard.ts:44-54 | the parser accepts exactly the canonical dotted quads and inverts their printer both ways |
| IPv4.Parse | src/lib/ssrf-guard.ts:44-54 | the loop's result: the word whose print the text is, or none when there is no such word |
| Words.InRangeIsQuotient | src/lib/ssrf-guard.ts:59-62 | for every prefix 0 to 32, two words are in one range if and only if their quotients by 2^(32 - prefix) agree |
| IPv4.PrivateIff | src/lib/ssrf-guard.ts:64-78 | a quad is private exactly when its first two octets are in the listed ranges |
| IPv6.ExpandsExactlyAddresses | src/lib/ssrf-guard.ts:95-137 | a text expands to groups if and only if the grammar gives it those groups |
| IPv6.Parse | src/lib/ssrf-guard.ts:110-119 | the group parser's loop |
| IPv6.FullRoundTrip | src/lib/ssrf-guard.ts:121-126 | eight group texts expand to their values |
| IPv6.CompressedRoundTrip | src/lib/ssrf-guard.ts:128-136 | with any run of zero groups replaced by the gap, the same groups result |
| IPv6.QuadRoundTrip | src/lib/ssrf-guard.ts:96-105 | the same with a trailing dotted quad |
| IPv6.QuadAfterGapFails | src/lib/ssrf-guard.ts:99-119 | a quad directly after the gap is refused |
| IPv6.QuadAfterThreeColons | src/lib/ssrf-guard.ts:99-136 | with a third colon it is read |
| IPv6.MappedIsPrivateIff | src/lib/ssrf-guard.ts:139-165 | the mapped form of a word, dotted or in any hexadecimal spelling, is private exactly when its quad is |
| IPv6.PrivateGroupsIff | src/lib/ssrf-guard.ts:139-165 | the mask tests as ranges of the first group and octets of the embedded quad |
| IPv6.PrivateAddressIff | src/lib/ssrf-guard.ts:139-165 | a text is private if and only if it is an address whose groups lie in the private ranges |
| IPv6.ExpandedFits | src/lib/ssrf-guard.ts:95-137 | whatever expands, expands to eight 16-bit groups |
| Cache.InMemoryCacheStore.Get | src/lib/cache.ts:16-28 | the unexpired value, removing an expired entry |
| Cache.InMemoryCacheStore.Set | src/lib/cache.ts:30-35 | replaces one entry and reads back at once for a positive lifetime |
| Cache.InMemoryCacheStore.DeletePrefix | src/lib/cache.ts:37-43 | removes exactly the keys with the prefix |
| Cache.ReadingIsInvisible | src/lib/cache.ts:16-28 | lazy removal changes no later reader's answer |
| Cache.ReadingCleansUp | src/lib/cache.ts:16-28 | a key that was read stays only if it is live, and no other key is touched |
| Dashboard.GroupedSummaryIsDirect | src/services/dashboard/dashboard.service.ts:58-94 | from grouped rows in any order, the summary of direct counts |
| Dashboard.SummaryGrows | src/services/dashboard/dashboard.service.ts:64-94 | what one more application of any status does to each number |
| Dashboard.ResponsesAreAnswered | src/services/dashboard/dashboard.service.ts:64-94 | the response rate is the share of applications beyond saved and applied |
| Dashboard.StalenessIsBounded | src/services/dashboard/dashboard.service.ts:52-98 | over every run, an answer is the direct summary at an instant less than 30 s ago and not before the last invalidation |
| Dashboard.StalenessIsTight | src/services/dashboard/dashboard.service.ts:45-56 | a run with an answer one millisecond short of the bound |
| Dashboard.InvalidationIsImmediate | src/services/dashboard/dashboard.service.ts:230-232 | straight after an invalidation the answer is current |
| Dashboard.OthersAreSpared | src/services/dashboard/dashboard.service.ts:230-241 | an invalidation removes that user's summary and no other's, for users without colons |
| Dashboard.SummaryKeysAreDistinct | src/services/dashboard/dashboard.service.ts:234-241 | no other user's summary and no page of another list shares a summary's key |
| Dashboard.DashboardService.GetDashboard | src/services/dashboard/dashboard.service.ts:52-98 | the specified answer and cache from any grouping of the user's applications |
| Dashboard.DashboardService.InvalidateUser | src/services/dashboard/dashboard.service.ts:230-232 | removes the user's prefix, and with it the summary |
| Kms.DecryptUndoesEncrypt | src/infrastructure/crypto/crypto-service.ts:206-257 | decrypting an envelope gives its plaintext, for every version, key and vector |
| Kms.DecryptedIff | src/infrastructure/crypto/crypto-service.ts:227-257 | decryption answers a text exactly when six fields starting with "kms" have a key the service unwraps and the cipher opens them to that text; each error has its own condition |
| Kms.EnvelopeVersion | src/infrastructure/crypto/crypto-service.ts:259-269 | an envelope names its version, and cannot when that is below one |
| Kms.KmsCryptoService.GetDekPlaintext | src/infrastructure/crypto/crypto-service.ts:365-389 | the live cached key or the key service's answer, an error exactly without either, and one cache entry written with its lifetime |
| Kms.KmsCryptoService.Encrypt | src/infrastructure/crypto/crypto-service.ts:206-225 | succeeds exactly when configured with a key at hand, and its result decrypts to the plaintext |
| Kms.KmsCryptoService.Decrypt | src/infrastructure/crypto/crypto-service.ts:227-257 | in every cache state and clock, the result without caches; what it answers is what the cipher opened, and a refusal of the cipher is an error; unreachable service: that result or an error |
| Kms.KmsCryptoService.ReEncryptIfStale | src/infrastructure/crypto/crypto-service.ts:275-289 | null exactly for the active version; otherwise the same plaintext under the active version, or an error where the cipher refuses |
| Kms.RoundTrip | src/infrastructure/crypto/crypto-service.ts:206-289 | whatever calls, expiries and clearings come in between, an envelope decrypts to its plaintext and is not stale |
| TokenCrypto.DecryptUndoesEncrypt | src/utils/encryption.ts:226-279 | a token decrypts to its plaintext if and only if its version is at least one |
| TokenCrypto.EnvelopeParses | src/utils/encryption.ts:163-193 | a versioned envelope parses to what was sealed; one below version 1 does not parse |
| TokenCrypto.LegacyReadsIff | src/utils/encryption.ts:195-211 | a legacy token is read if and only if its first field does not read as "v" and digits |
| TokenCrypto.DecryptedIff | src/utils/encryption.ts:262-279 | for every spelling, versioned or legacy, decryption answers exactly what the cipher makes of the fields under the version's key; a refusal is an error |
| TokenCrypto.UnspelledFails | src/utils/encryption.ts:163-211 | any other text is an error, and reads as version 1 |
| TokenCrypto.LoadKeyIff | src/utils/encryption.ts:74-96 | a version has a key exactly when its configured text is 64 hexadecimal digits, and then those 32 bytes |
| TokenCrypto.LoadKeyFails | src/utils/encryption.ts:74-96 | not configured exactly without a text, malformed exactly for any other text |
| TokenCrypto.VersionsReadTheirOwnKey | src/utils/encryption.ts:98-110 | version 1 reads the first key alone, version 2 the second, every other the third |
| TokenCrypto.VersionOneDependsOnFirstKey | src/utils/encryption.ts:262-279 | tokens of version 1, legacy ones included, decrypt by the first configured key alone |
| TokenCrypto.TokenEncryption.GetKeyByVersion | src/utils/encryption.ts:120-134 | the configured key, cached or not |
| TokenCrypto.TokenEncryption.EncryptToken | src/utils/encryption.ts:226-251 | encrypts with the version in use, which it fixes at first use |
| TokenCrypto.TokenEncryption.DecryptToken | src/utils/encryption.ts:262-279 | the result of freshly loaded keys, whatever is cached; a text only if the cipher opened the fields to it |
| TokenCrypto.TokenEncryption.ReEncryptIfStale | src/utils/encryption.ts:311-322 | null exactly for the configured version; otherwise the same plaintext, of the configured version if and only if the cached version is unset or equal |
| TokenCrypto.TokenEncryption.InvalidateKeyCache | src/utils/encryption.ts:332-342 | forgets one version or all |

## Left out

- OutboxRetries.RetriesAreAccounted: once a worker fails or counts a retry itself, retry counts need not equal claims; `OutboxRetries.RetryBudget` bounds the claims in every timely run.
- OutboxService.OutboxDispatcher.DispatchEvent: assumes claimed rows with mapped column names; the raw query returns `event_type` and `user_id` (`prisma/schema/models/events.prisma:69-74`), so as written the switch takes its default, the status write refuses the missing owner, and the event goes to failed and dlq. The theorems about runs cover those steps too.
- Evaluation.CalibrationBound: exact reals; floating-point rounding of confidences, and of the division that picks a bucket, is not modelled.
- Wilson.IntervalIsPlausible: exact reals with an exact square root as a parameter.
- Canonical.SeparatedIsConfluent: the order of two facts of equal standing may decide which of them is in the slot.
- LeaseSafety.LeaseIsExclusive: assumes disciplined steps, which the code does not check; `LeaseSafety.StepKeepsLeasesIff` says exactly which.
- LeaseSafety.CrashBlocksAtMostOneLease: assumes leases are released late and compare-and-sets that take effect leave them alone; `LeaseSafety.EarlyReleaseBlocks` shows what an early release does.
- EmailJobs.EmailJobTracker.TrackEmailJob: find and create are one step; the table has no unique index on batch and email (`prisma/schema/models/auth.prisma:144-160`), so concurrent calls could make two rows.
- Dashboard.StalenessIsBounded: get-or-compute is one step; a computation overtaken by an invalidation is not modelled.
- Kms.KmsCryptoService.Decrypt: every failure of the cipher is one error; the service's unwrapping is taken as a function of the wrapped key.
- TokenCrypto.TokenEncryption.DecryptToken: the configured keys do not change while the process runs; the configured version may.
- Clocks are one monotone clock per model; replica lag of reads is ignored, including the read in `markFailed`.
- The outbox timer (`start`, `stop`), statistics, row-level security context and aggregate id and type columns.
- The queue's own retries, deduplication by job id and delivery to workers: a worker may report on any submitted job at any time.
- Empty page tokens, which the checkpoint service treats as none, and the empty strings of optional columns.
- Cascading deletion of event, checkpoint and fact rows.
- Sync operation rows, sync mode, worker id and timestamps of checkpoints, `determineResumeStrategy` and `finalizeBatchEmails`.
- The per-email rows of `checkpoint.service.ts`; only its batch counters are modelled.
- `computeDeduplicationKey`: the key is a parameter; its default case hashes with floating-point products.
- `supersedeFact`, which can link facts in a cycle, and the review flags and validity dates of facts.
- Result sorting, bucket labels and notes in the reports; the strategy grouping, which repeats the action loop per tag; the analytics cache, whose invalidation prefix does not match its keys.
- Blocked host names and the URL checks around the address tests.
- Activity and upcoming lists of the dashboard, beyond their keys and lifetimes in the cache.
- Cipher strength, randomness, JWT signing and the selection of a crypto backend.
