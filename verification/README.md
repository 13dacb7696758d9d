# Chetter control plane: model and proofs

Chetter runs coding agents. Any number of server replicas share one SQL database;
runners claim execution attempts under leases, report events, and reapers clean up
after runners that disappear. This project models the guarded row updates that
carry that protocol and proves what every interleaving of them keeps. Beside it
stand the durable callback outbox, the coordination primitives, and a few
sequential algorithms of the same repository.

## How the model is built

- **Control plane.** `Tables` holds the rows (tasks, sessions, prompts, attempts,
  runners, checkpoints), one SET clause per kind of update and one WHERE guard per
  statement. `Transactions` composes them as the service does, with its error paths:
  a transaction commits a new state or rolls back. A `Step` is one transaction or
  one stand-alone statement; a run is any sequence of steps. The class
  `Store.Database` runs the same transactions on mutable tables, row by row, with
  explicit rollback, and each of its methods is proved equal to its transaction.
  - Random ids are parameters; a collision makes the insert, and so the
    transaction, fail. `FOR UPDATE SKIP LOCKED` is a set of rows other transactions
    hold. `now` is the caller's clock and `clock` the database's; nothing relates
    them. Reads that the service makes before a transaction (a runner's isolation
    capability, the session and the runner of a resume) are parameters of the step,
    so they may be stale; `Served` says of a step that they were not.
  - The drained status of an attempt's runner, which the lease reaper reads on a
    connection outside its transaction (internal/service/service.go:524-545), is
    read at the instant of the transaction.
  - A worker of the outbox reads the clock before its statement takes effect: its
    claims and settlements carry both instants.
  - Boolean columns stand for text columns that are not empty.
- **Proofs about it.** `Integrity`, `OneAttempt`, `Rollups` and `OneAttemptRuns`
  (one active attempt per task), `LeaseRace` (what the lease reaper decides),
  `Fencing`, `Succession` (what it queues), `Accounting` (usage), `Sessions`,
  `Endings` (what an event ends), `Collection`, `Cascade`, `Upkeep` (what each
  reaper statement writes), `Requests` and `Lifecycle` (what one transaction
  writes and promises the next), `Relapse` (what goes wrong), `DoubleRun` with
  `SmallTables` (a concrete run that goes wrong), `BlockedRun` (another),
  `Dialects` (MySQL against PostgreSQL).
- **Outbox.** `Deliveries` has the rows, the statements and the class `Outbox`;
  `DeliveryOutcomes` says when a settled row is due again; `DeliveryRuns` and
  `DeliveryLeases` prove whole runs with workers that hold stale
  copies of rows, crash and are taken over.
- **Coordination.** `Notifier`, `TriggerLock`, `Drain`.
- **Algorithms.** `Redact`, `Layout` with `Slugs`, `Limiter`, `Placeholders`, `Progress`,
  `Timeline`; `Strings` and `Decimal` hold what they share.

## What the proofs found

1. *One attempt per task.* A pending or running task has exactly one pending or
   running attempt, in the task's own status, throughout a run exactly when every
   event reports running, done, completed, error or cancelled and no reaper fails a
   task over an active attempt that it leaves (`OneAttemptRuns.RunIsMirroredIff`).
   The reapers may do the latter: FailExpiredLeases and the two FailPending
   statements match *any* old attempt of a task, so they fail a reopened task while
   its new attempt goes on (`Rollups.LeaseReaperStraysIff`,
   `Rollups.PendingReaperStraysIff`). It is enough that no task a reaper failed is
   ever reopened (`OneAttemptRuns.OrderlyRunIsHarmless`). Otherwise one more resume
   gives such a task two running attempts (`Relapse.StrayedTaskRunsTwice`).
   `DoubleRun.TwoRunningAttempts` is a run of sixteen steps from empty tables that
   does so, each with the checks and reads the service makes before it, under the
   default limit of five attempts of the MySQL schema.
   Once the lease of the attempt left behind runs out, every pass of the lease
   reaper rolls back, for all tasks, until something else ends that attempt
   (`LeaseRace.StrayStopsThePass`, `DoubleRun.ReaperStalls`).
2. *The attempt limit.* RecoverTask and ResumeAgentSession do not check it. A task
   reopened beyond its limit makes every claim that selects its attempt fail, and
   the claim query always selects the oldest (`Relapse.OverLimitBlocksTheQueue`,
   `Relapse.RecoveredWithinLimitIff`, `Relapse.ResumedWithinLimitIff`).
   `BlockedRun.TaskOverItsLimit` is such a run from empty tables.
3. *Drained runners.* The comment at internal/service/service.go:580-584 says the
   tasks of a deliberately drained runner remain failed. The code neither reclaims
   nor fails an expired attempt of such a runner while its task has attempts left:
   it stays running (`LeaseRace.EveryExpiredAttemptMeetsItsFate`). If another attempt
   of the task once timed out, the task fails and that attempt still runs on.
4. *Resumed older sessions.* A terminal event ends or parks the latest session of
   its task, not the session of its attempt. The two agree exactly when the attempt
   belongs to the latest session; a resumed older session stays in resuming
   (`Sessions.EventEndsItsSessionIff`).
5. *Callback deliveries.* Without the assumption that a settlement takes effect no
   later than its holder's lease expires, a row with three allowed attempts can use any number
   (`DeliveryLeases.AttemptsAreUnbounded`). A run respects the bound exactly when no
   settlement schedules a retry that the row's own count forbids
   (`DeliveryLeases.RunIsBoundedIff`).
6. *Dialects.* PostgreSQL reaps an overrun attempt up to a second before MySQL
   (`Dialects.OverrunsDifferIff`), and the claim queries agree exactly while every
   queued attempt has its session row (`Dialects.ClaimsAgreeIff`).
7. *Redaction.* A value is scrubbed from every text in every order exactly when it
   has at least four bytes and does not clash with the marker: neither contains it,
   is contained in it, nor overlaps an end of it (`Redact.AlwaysRemovedIff`).
8. *Progress numbers.* formatProgressNumber writes "-,123" for -123: it groups
   correctly exactly when the number is not negative or its digits are not a
   multiple of three (`Progress.WellGroupedIff`).

## Model

| member | source | states |
|---|---|---|
| OneAttemptRuns.StepKeepsMirroredIff | internal/repository/tasks.sql.go:95-111 | a committed step of any kind keeps "one active attempt per active task, mirroring it" exactly when an event reports a known status and a reaper fails no task over an active attempt it leaves; every other step always does |
| OneAttemptRuns.RunIsMirroredIff | internal/service/service.go:547-945 | all states of a run from mirrored tables are mirrored exactly when each of its committed steps is harmless in that sense |
| OneAttemptRuns.OrderlyRunIsHarmless | internal/service/service.go:1463-1589 | a run in which events report known statuses and no task that a reaper failed is reopened has only harmless steps |
| OneAttemptRuns.AtMostOneActiveAttempt | internal/repository/execution_attempts.sql.go:247-272 | over every run of harmless steps a task has at most one pending or running attempt, and it has the task's status |
| OneAttemptRuns.ActiveTaskHasItsAttempt | internal/service/service.go:547-830 | over every such run a pending or running task owns an attempt in that status: no task is stuck |
| Rollups.FailureKeepsMirroredIff | internal/store/store.go:1395-1464 | failing active attempts and then tasks, among them their owners, keeps the invariant exactly when no such task owns an active attempt that was not failed |
| LeaseRace.PassKeepsMirroredIff | internal/service/service.go:547-830 | a committed pass of the lease reaper keeps the invariant exactly when no task with an attempt that once timed out under a lease owns an attempt the pass leaves running, under a live lease or of a drained runner |
| Rollups.FailExpiredKeepsMirroredIff | internal/repository/tasks.sql.go:95-111 | the failing statements keep it exactly when no task that once timed out under a lease owns a running attempt they do not hit |
| Rollups.PinnedKeepsMirroredIff | internal/service/service.go:875-903 | the pinned-runner cascade keeps it exactly when no task once failed for a missing runner owns a pending attempt the cascade leaves |
| Rollups.IsolationKeepsMirroredIff | internal/repository/tasks.sql.go:127-138 | the same for the isolation reaper and missing isolation |
| Rollups.OverrunKeepsMirroredIff | internal/store/store.go:1395-1464 | the overrun reaper keeps it exactly when no task with an attempt that timed out at this very instant owns a running attempt that has not overrun |
| OneAttempt.RecoverKeeps | internal/service/service.go:1500-1589 | a committed recovery keeps the invariant whatever a reaper did before, and leaves no active task with a reaper-failed attempt unless this one had one |
| OneAttempt.ResumeKeeps | internal/service/service.go:1874-1925 | the same for a committed resume |
| OneAttempt.QueuedKeeps | internal/repository/execution_attempts.sql.go:511-515 | queueing a fresh attempt for a task whose attempts are over keeps the invariant |
| LeaseRace.ReapLeasesCommitsIff | internal/service/service.go:572-713 | a reaper pass commits exactly when the task of every attempt it would reclaim is running and has no other such attempt, unless losing the first uses up its attempts |
| LeaseRace.StrayStopsThePass | internal/service/service.go:640-713 | one expired running attempt of a task that is not running, with attempts left and its runner not drained, rolls the pass back for every task |
| LeaseRace.EveryExpiredAttemptMeetsItsFate | internal/service/service.go:547-830 | one committed pass decides every expired attempt of a task in order, whatever the other tasks look like: failed with its task when attempts are used up, else left running when its runner was drained, and then its task fails exactly when it once timed out before, else lost with its task pending again and a successor queued |
| LeaseRace.ExpiredAttemptIsLostIff | internal/service/service.go:529-616 | after a committed pass an expired attempt is lost exactly when its task has had fewer attempts than its limit and its runner is not recorded as draining or stopping; it failed exactly when there are no more, and runs on otherwise |
| LeaseRace.MirroredPassDecidesAll | internal/service/service.go:547-830 | on mirrored tables every pass commits, and so decides every expired attempt |
| Succession.SuccessorKeepsIsolation | internal/service/service.go:640-713 | after a committed pass a retried attempt is lost, its task pending without a failure, its former session and prompt closed, and its successor waits under a new session with the mode, isolation and expiry of the latest one, one number further; a runner without isolation may claim it exactly when that session needed none |
| LeaseRace.RenewalFirst | internal/repository/execution_attempts.sql.go:789-817 | a renewal that commits first: no reaper pass touches the attempt until the renewed lease runs out |
| LeaseRace.ReapFirst | internal/repository/execution_attempts.sql.go:805-816 | a reap that commits first: the old claim can renew exactly when the attempt was left running |
| Fencing.AttemptsEvolve | internal/repository/execution_attempts.sql.go:727-867 | over every run attempts are kept, never return to pending, and once finished change only by losing their transcript |
| Fencing.AssignedAtMostOnce | internal/repository/execution_attempts.sql.go:727-733 | the runner and the claim of an attempt are assigned at most once |
| Fencing.FinishedAttemptIsFenced | internal/repository/execution_attempts.sql.go:857-880 | after an attempt is finished no renewal and no event in its name changes anything, ever |
| Accounting.UsageIsConserved | internal/repository/execution_attempts.sql.go:370-379 | after any run a task's totals are its former totals plus the deltas of exactly the accepted events, over all its attempts |
| Accounting.EventCounts | internal/service/runner_rpc.go:1229-1269 | an accepted event adds its delta to its own task and to no other |
| Accounting.TerminalEventCountsOnce | internal/service/runner_rpc.go:1233-1262 | after an accepted terminal event no event of the attempt is accepted again, a replay included |
| Accounting.ReplayIsAcceptedIff | internal/repository/execution_attempts.sql.go:857-880 | an accepted event sent again is accepted and counted again exactly when it reports running and the lease it renewed is live |
| Sessions.FinalIsAbsorbing | internal/repository/agent_sessions.sql.go:16-20 | over every run a final session does not change |
| Sessions.ExpireOrResume | internal/repository/agent_sessions.sql.go:128-147 | of an expiry and a resume that would each take effect on a parked session, at instants of their own, the first wins: an expired session stays expired and is never resumed, a resumed one is left resuming by that expiry |
| Sessions.CollectedIsNeverResumed | internal/repository/agent_sessions.sql.go:68-118 | a session whose artifacts may be collected is never resumed by any later step |
| Collection.PassClearsExactly | internal/repository/agent_sessions.sql.go:68-118 | one pass of the collector clears exactly the checkpoint paths and the exports of sessions that are over and were last updated more than the ttl ago, and changes nothing else |
| Collection.ClearedIsNeverResumed | internal/repository/agent_sessions.sql.go:68-118 | a session whose checkpoint path a pass cleared is resumed by no later step of any run |
| Sessions.EventEndsItsSessionIff | internal/repository/agent_sessions.sql.go:948-958 | a terminal event ends its own session exactly when that is the latest of the task |
| Endings.TerminalEventEnds | internal/service/runner_rpc.go:1290-1398 | a committed terminal event ends the latest prompt, and the latest session if open: recoverable exactly after a timeout or transport error of a harness session with workspace and harness id, paused exactly after a success of a resumable one with a workspace, and otherwise for good; it stores a checkpoint exactly for a checkpointing success, and changes no other such row |
| Endings.EndedMayResumeIff | internal/service/service.go:1795-1870 | after such an event the session may be resumed exactly when it left something to go on from and the reporting runner was heard of within two minutes; after any other error it is over for good |
| Endings.EventReports | internal/repository/execution_attempts.sql.go:857-880 | a committed event writes exactly its attempt and its task, with status, lease, start, end, category, transcript and usage as reported |
| Endings.OtherEventEndsNothing | internal/service/runner_rpc.go:1269-1279 | an event that is not terminal only notes the harness id of the open latest session |
| Endings.EventCommitsIff | internal/service/runner_rpc.go:1228-1262 | an event commits exactly from the runner and claim that hold the attempt under a live lease, for a task that runs or has the reported status, unless its checkpoint id is taken |
| Cascade.CascadeEndsTheChain | internal/service/service.go:875-903 | one pass ends attempt, task, prompt and session of a pending attempt pinned to a missing runner |
| Cascade.CascadeIsIdempotent | internal/repository/agent_sessions.sql.go:169-208 | a second pass at the same cutoff changes nothing |
| Upkeep.PinnedReapIsExact | internal/service/service.go:875-903 | the cascade fails exactly the resumed attempts whose runner is inactive or silent for a minute, the pending tasks that own such a failure, the pending prompts of tasks failed so and their resuming sessions |
| Upkeep.IsolationReapIsExact | internal/service/service.go:925-942 | the isolation reaper fails exactly the pending attempts of isolated sessions while no capable runner was heard of within a minute, and the pending tasks that own such a failure |
| Upkeep.OverrunReapIsExact | internal/store/store.go:1395-1464 | the overrun reaper fails exactly the attempts that ran two minutes over their timeout, and the running tasks that own one or one that timed out at this instant |
| Upkeep.LeaseFailuresAreExact | internal/repository/tasks.sql.go:95-111 | the failing statements of the lease reaper fail exactly the expired attempts, or with recovery those without attempts left, and the running tasks that own such a timeout |
| Upkeep.ExpiryIsExact | internal/repository/agent_sessions.sql.go:128-147 | a session expires exactly when it is parked, past its expiry, and no prompt or attempt of it is under way |
| Upkeep.PromptsFollowTasks | internal/service/service.go:970-1003 | a running prompt ends as its task did, waits again with a pending task, and otherwise stays |
| Upkeep.SessionsFollowTasks | internal/service/service.go:970-1003 | a running session ends exactly when one of its prompts is over in a task that is: completed with its own task done, else in error |
| Rollups.LeaseReaperStraysIff | internal/repository/tasks.sql.go:95-111 | the lease reaper fails a task over a running attempt that it leaves, under a live lease or of a drained runner, exactly when another of its attempts once timed out under a lease |
| Rollups.PendingReaperStraysIff | internal/repository/tasks.sql.go:127-142 | the pinned and isolation reapers fail a task whose pending attempt they leave exactly when another of its attempts once failed that way |
| Relapse.StrayedTaskRunsTwice | internal/service/service.go:1795-1925 | a task failed over its running attempt gets two running attempts by one resume that passes every check and one claim by the pinned runner |
| DoubleRun.TwoRunningAttempts | internal/repository/tasks.sql.go:95-111 | a concrete run from empty tables, of steps as the service issues them, reaches one task with two running attempts |
| DoubleRun.ReaperStalls | internal/service/service.go:640-713 | the same run without its last two steps leaves tables on which, once that lease has run out, no pass of the lease reaper commits |
| DoubleRun.MoveIsStep | internal/service/service.go:547-1925 | every move of that run is a step as the service issues it, checks before a resume and the runner's isolation included, with exactly the rows written out |
| Lifecycle.ClaimedAcceptsIff | internal/repository/execution_attempts.sql.go:878-880 | after a claim exactly the claiming runner and claim may report, exactly until the lease runs out |
| Lifecycle.CancelCommitsIff | internal/service/api.go:160-197 | a cancellation succeeds exactly on a pending or running task and leaves nothing of it active |
| Lifecycle.ClearQueueEmptiesTheQueue | internal/service/api.go:246-275 | after clearing nothing is pending or claimable, and nothing else was touched |
| Requests.SubmitAdds | internal/service/service.go:1305-1387 | a submission commits exactly with unused ids, adds one task with session, prompt and attempt, and the attempt waits for runners with the isolation it needs |
| Requests.RecoverAdds | internal/service/service.go:1500-1589 | a recovery commits exactly on a task that is over with a transcript; it queues it under a session like the latest, one number further, with a three-day expiry if resumable and the timeout of the newest attempt of the latest prompt |
| Requests.ResumeAdds | internal/service/service.go:1874-1925 | a resume commits exactly on a task that is over and a parked session, and adds its next prompt with an attempt for the given runner alone |
| Requests.ClaimStarts | internal/service/runner_rpc.go:968-1130 | a claim commits exactly within the task's limit of attempts when the prompt's session exists; it gives attempt, task and waiting latest prompt to the runner; the attempt overruns exactly two minutes past its timeout, and expires with its lease |
| Requests.CancelStops | internal/service/api.go:160-197 | a cancellation stops the active attempts of the task and the task, and no other row |
| Requests.ClearQueueStops | internal/service/api.go:246-275 | clearing the queue stops every pending attempt and every pending task, and no other row |
| Requests.ExtensionPostpones | internal/service/api.go:216-233 | an extension lets the active attempts of the task overrun exactly that much later |
| Relapse.OverLimitBlocksTheQueue | internal/repository/execution_attempts.sql.go:270-272 | while the oldest claimable attempt belongs to a task over its limit, no claim that may select it commits |
| Relapse.RecoveredWithinLimitIff | internal/service/service.go:1525-1589 | a recovered task is within its limit exactly when it had an attempt left |
| Relapse.ResumedWithinLimitIff | internal/service/service.go:1874-1925 | the same for a resumed task |
| BlockedRun.TaskOverItsLimit | internal/service/runner_rpc.go:1025-1031 | a concrete run from empty tables, of steps as the service issues them, takes a task over its limit by one recovery; every claim that may then select its attempt changes nothing |
| Dialects.ClaimsAgreeIff | internal/repositorypostgres/execution_attempts.sql.go:253-268 | the two claim queries, of which the model's is the MySQL one, select the same attempts exactly when every queued attempt has its session row |
| Dialects.MissingRunnersAgree | internal/repositorypostgres/execution_attempts.sql.go:176-196 | the two missing-runner updates hit the same rows |
| Dialects.OverrunsDifferIff | internal/store/store.go:1397-1444 | the two overrun tests differ exactly strictly between the limit and the next second |
| Store.SelectLast | internal/repository/agent_sessions.sql.go:504-510 | the loop returns the last row in the sort order, or none |
| Store.Database.UpdateAttempts | internal/repository/execution_attempts.sql.go:16-26 | row by row, the SET clause is applied to exactly the rows hit |
| Store.Database.SubmitTask | internal/service/service.go:1305-1387 | refines the submit transaction |
| Store.Database.ClaimOnce | internal/service/runner_rpc.go:968-1074 | claims the oldest claimable unlocked attempt, or changes nothing and says why not |
| Store.Database.SelectClaimable | internal/repository/execution_attempts.sql.go:247-272 | finds an oldest claimable attempt that is not locked, if any |
| Store.Database.RunnerCommands | internal/service/runner_rpc.go:888-944 | every reported execution is renewed or told to stop, and renewed exactly when it is running under the reported chain, runner and claim |
| Store.Database.RenewLease | internal/repository/execution_attempts.sql.go:789-794 | renews exactly the running attempt held by this runner and claim |
| Store.Database.RecordTaskEvent | internal/service/runner_rpc.go:1228-1399 | refines the event transaction, rolled back when any guard fails |
| Store.Database.FinishPromptAndSession | internal/service/runner_rpc.go:1290-1398 | ends the latest prompt and ends or parks the latest session |
| Store.Database.ListReclaimable | internal/repository/execution_attempts.sql.go:665-678 | lists exactly the expired attempts, each once, by lease |
| Store.Database.Reclaim | internal/service/service.go:572-713 | refines one turn of the reclaim loop |
| Store.Database.ReapExpiredLeases | internal/service/service.go:547-830 | refines the reaper transaction over its listing, all or nothing |
| Store.Database.ReapUnavailablePinnedResumeTasks | internal/service/service.go:875-903 | refines the four statements of the pinned-runner cascade |
| Store.Database.ReapIsolationUnavailableTasks | internal/service/service.go:925-942 | refines the two statements of the isolation reaper |
| Store.Database.ReapStaleTasks | internal/store/store.go:1395-1464 | refines the overrun reaper |
| Store.Database.CancelTask | internal/service/api.go:160-197 | refines the cancel transaction, rolled back unless it hits an attempt and the task |
| Store.Database.ClearQueue | internal/service/api.go:246-275 | refines the clear-queue transaction and counts the cancelled tasks |
| Store.Database.RecoverTask | internal/service/service.go:1500-1589 | refines the recovery transaction |
| Store.Database.ResumeTransaction | internal/service/service.go:1874-1925 | refines the resume transaction, rolled back unless the session is still parked |
| Store.Database.ResumeAgentSession | internal/service/service.go:1795-1925 | the checks before the transaction, then the transaction |
| Store.Database.ReapExpiredSessionArtifacts | internal/service/service.go:1045-1083 | refines the three collecting statements; a ttl of zero disables them |
| Store.Database.ExtendTaskTimeout | internal/service/api.go:216-233 | extends the active attempts of a task, and says whether any was hit |
| Deliveries.Backoff | internal/service/callback_deliveries.go:61-72 | the delay lies between one and thirty seconds |
| Deliveries.BackoffGrows | internal/service/callback_deliveries.go:61-72 | the delay never shrinks with more attempts, and stays equal exactly below the first or above the last step |
| Deliveries.NextAttempt | internal/service/callback_deliveries.go:79-84 | dead letter exactly when attempts are used up, else failed with a retry within thirty seconds |
| DeliveryOutcomes.SettledIsDueIff | internal/service/callback_deliveries.go:578-640 | a settlement touches its row alone, while in flight; after the n-th transient failure the row is due exactly from 1, 5, 15 and then 30 seconds on, and never after the last failure, a permanent one or a success |
| DeliveryOutcomes.DelaysNeverShrink | internal/service/callback_deliveries.go:61-84 | over a run of failures of one row the delays never shrink |
| DeliveryOutcomes.FailingDelivery | internal/service/callback_deliveries.go:41-84 | a delivery that always fails is due at once, one second after its first failure and five after its second, is buried by its third, and starts over when an operator retries it |
| DeliveryOutcomes.EnqueuedIsDueIff | internal/service/callback_deliveries.go:295-443 | a new delivery has three attempts and is due from its enqueueing on, unless it is broken: then it is never due, and may be retried |
| DeliveryOutcomes.RetryResetsExactly | internal/service/callback_deliveries.go:201-244 | an admin retry of a failed or dead-lettered row makes it pending and due at once with no attempts used, its allowance kept, and touches nothing else; any other retry changes nothing |
| Deliveries.Outbox.Enqueue | internal/service/callback_deliveries.go:295-443 | inserts the row for a callback and event unless one exists |
| Deliveries.Outbox.SelectDue | internal/service/callback_deliveries.go:510-545 | a batch is due, unlocked, in order, passes no earlier row over, and is complete below the limit |
| Deliveries.Outbox.ClaimDueCallbackDeliveries | internal/service/callback_deliveries.go:510-565 | moves exactly the batch to in flight and returns the rows as read |
| Deliveries.Outbox.DeliverCreateTask | internal/service/callback_deliveries.go:660-680 | spawns or adopts the deterministic child and settles the row accordingly |
| Deliveries.Outbox.RetryCallbackDelivery | internal/service/callback_deliveries.go:201-244 | resets exactly a failed or dead-lettered row, for an administrator, and makes it due |
| DeliveryRuns.AtMostOneChild | internal/service/callback_deliveries.go:660-689 | over every run at most one child task is created per callback and event |
| DeliveryRuns.CompletedNamesItsChild | internal/repository/callback_deliveries.sql.go:165-176 | a completed create_task row names its own existing child, which no other row names |
| DeliveryRuns.CompletedIsAbsorbing | internal/repository/callback_deliveries.sql.go:198-209 | no step, operator reset included, changes a completed row |
| DeliveryRuns.NothingStranded | internal/service/callback_deliveries.go:518-545 | every reachable row satisfies the column invariant, and one that is not terminal is due exactly from some instant on |
| DeliveryRuns.ClaimMovesItsBatch | internal/service/callback_deliveries.go:546-565 | a claim removes exactly its batch from the due rows, leased for a minute |
| DeliveryRuns.ClaimsAreDisjoint | internal/service/callback_deliveries.go:510-565 | claims at one instant are disjoint |
| DeliveryRuns.DrainedInExactlyThisManyClaims | internal/service/callback_deliveries.go:49-52 | any chain of claims that drains n due rows has exactly n/50 claims, rounded up |
| DeliveryRuns.SomeDrain | internal/service/callback_deliveries.go:518-565 | from any table such a chain exists |
| DeliveryLeases.TimelyHoldersAreExclusive | internal/service/callback_deliveries.go:510-583 | if settlements take effect within their leases, however early their workers read the clock and whoever steps in between, each row has at most one live holder, who knows its attempts |
| DeliveryLeases.TimelyAttemptsAreBounded | internal/service/callback_deliveries.go:614-639 | under the same assumption attempts never exceed the maximum, and a failed row has attempts left |
| DeliveryLeases.SettleKeepsBoundIff | internal/repository/callback_deliveries.sql.go:14-25 | a settlement keeps the bound exactly when it schedules no retry the row's own count forbids |
| DeliveryLeases.RunIsBoundedIff | internal/service/callback_deliveries.go:614-639 | all states of a run respect the attempt bound exactly when no settlement schedules a retry the row's own count forbids |
| DeliveryLeases.AttemptsAreUnbounded | internal/repository/callback_deliveries.sql.go:14-25 | without the assumption a row can use any number of attempts |
| Notifier.NoLostWakeUp | internal/service/claim_notifier.go:20-42 | no poller is blocked on an open channel after a notified submission its poll missed |
| Notifier.ClosedExactlyOnce | internal/service/claim_notifier.go:29-35 | the current channel is open, and every other one was closed exactly once |
| Notifier.ClaimNotifier.Notify | internal/service/claim_notifier.go:29-35 | closes the current channel and installs a fresh open one |
| Notifier.NotifyWakesAll | internal/service/claim_notifier.go:29-35 | in every run a notification lets every waiting poller wake |
| Notifier.SubmissionIsSeen | internal/service/claim_notifier.go:20-42 | from every reachable state a new submission, once notified, lets every waiting poller wake, poll again and see it |
| TriggerLock.OneFirePerInterval | internal/service/coordination.go:69-147 | commits in [a, b] number at most one more than the ticks in (a, b] |
| TriggerLock.CommitsSeparatedByTick | internal/service/coordination.go:119-122 | any two committed markers have a tick between them |
| TriggerLock.RollbackLeavesClaimable | internal/service/coordination.go:136-147 | a rolled-back claim leaves the interval claimable, and a crash is a rollback |
| TriggerLock.WinnerTakesInterval | internal/service/coordination.go:93-122 | nobody else acquires during the transaction, and after its commit nobody before the next tick |
| TriggerLock.FinishIsIdempotent | internal/service/coordination.go:136-147 | repeated finish calls change nothing |
| TriggerLock.Coordinator.AcquireTriggerLock | internal/service/coordination.go:69-147 | refines the acquisition step |
| TriggerLock.AcquiresExactlyWhenDue | internal/service/coordination.go:69-147 | over every run an acquisition succeeds exactly when no transaction of that trigger is open and a tick has come since its last committed marker, or it has none |
| Drain.RequestSurvives | internal/service/coordination.go:183-214 | a drain request stays pending, with its first date, until it is acknowledged or its runner is reaped as dead |
| Drain.WithdrawnStaysGone | internal/service/coordination.go:222-262 | once withdrawn it stays gone until requested again |
| Drain.DrainQueue.ReapStale | internal/service/coordination.go:222-252 | the two deletes remove exactly the requests of unknown and silent runners |
| Drain.ReapKeepsExactly | internal/service/coordination.go:222-252 | a reap keeps exactly the requests of known runners heard of within a day |
| Redact.AlwaysRemovedIff | internal/redact/redact.go:54-65 | a value is always scrubbed, in any order with any other values, exactly when it is long enough and does not clash with the marker |
| Redact.PassesRemove | internal/redact/redact.go:54-65 | after the passes no listed value that does not clash occurs anywhere |
| Redact.PassesCreateNothing | internal/redact/redact.go:58-63 | later replacements never recreate such a value |
| Redact.OrdinaryValuesDoNotClash | internal/redact/redact.go:49-53 | a value without brackets that is no substring of the marker does not clash |
| Redact.Set.Apply | internal/redact/redact.go:54-65 | the loop computes the passes over the listed values |
| Redact.RedactOutput | internal/redact/redact.go:26-65 | no value of a sensitive variable that is long enough and does not clash is left in the output |
| Redact.SensitiveIff | internal/redact/redact.go:30-41 | a variable is sensitive exactly when its name spells secret, token, key or password in whatever case |
| Layout.Itoa | internal/githubrepo/layout.go:80-92 | the digit buffer holds the decimal digits; empty for a negative number |
| Layout.RepoSlug | internal/githubrepo/layout.go:36-62 | computes the slug, step by step as the source strips it |
| Layout.SlugIsRepositoryName | internal/githubrepo/layout.go:36-62 | the slug of a clone address is its repository name, whatever comes before, with or without .git and slashes |
| Slugs.SlugShowsTheName | internal/githubrepo/layout.go:36-78 | the slug of an address is its last name with capitals lowered, spaces as dashes, other characters dropped and no mark at either end, and repo exactly when no letter, digit or underscore is in it |
| Slugs.SlugKeepsPlaces | internal/githubrepo/layout.go:65-78 | a name that drops nothing keeps its length and every character its place |
| Slugs.DirectoryIsNumbered | internal/githubrepo/layout.go:19-33 | a repository lies under repos/ in its slug, or, when that is taken, in its slug, a dash and a decimal number from two on |
| Layout.SlugFixedPoint | internal/githubrepo/layout.go:36-62 | a slug is its own slug exactly when it does not end in .git |
| Layout.SecondarySubdirs | internal/githubrepo/layout.go:19-33 | the loops produce the layout in which each repository takes the first free candidate |
| Layout.LayoutIsCollisionFree | internal/githubrepo/layout.go:19-33 | no two repositories share a directory |
| Layout.SuffixBound | internal/githubrepo/layout.go:24-29 | the suffix at index i never exceeds i + 1 |
| Layout.LayoutIsStable | internal/githubrepo/layout.go:19-33 | the layout of a longer list extends that of a shorter one |
| Layout.LayoutIsSafe | internal/githubrepo/layout.go:65-77 | every directory name is non-empty, safe, and has no dot or dash at an end |
| Limiter.Handler.Allow | internal/inbound/handler.go:333-351 | serves one request on the window table |
| Limiter.ServeKeepsBounded | internal/inbound/handler.go:333-351 | every count stays within the limit and the table within 4097 entries |
| Limiter.RateIsBounded | internal/inbound/handler.go:333-351 | without a reset any window-long interval admits fewer than twice the limit |
| Limiter.BoundIsReached | internal/inbound/handler.go:333-351 | that bound is reached for every positive limit and every window of at least two instants |
| Limiter.NoLimitNoAdmission | internal/inbound/handler.go:346-348 | a limit of zero or less admits nothing, in any run |
| Limiter.ResetForgetsLimits | internal/inbound/handler.go:336-345 | an id at its limit is admitted again inside its window right after a request of another id exactly when that request empties the map |
| Placeholders.SqlQuery | internal/service/placeholders.go:22-30 | repeated first-match replacement is the simultaneous rewrite |
| Placeholders.RewriteLeavesNoMark | internal/service/placeholders.go:22-30 | no question mark is left |
| Placeholders.MarkIsNumbered | internal/service/placeholders.go:10-20 | the k-th mark becomes the k-th placeholder and every other character stays |
| Progress.FormatProgressNumber | internal/service/api.go:619-625 | the loop groups the decimal text in threes from the right |
| Progress.GroupingAddsOnlyCommas | internal/service/api.go:619-625 | removing the commas gives the number back |
| Progress.WellGroupedIff | internal/service/api.go:619-625 | the text is a well-grouped number exactly unless the number is negative with digits a multiple of three |
| Timeline.GetTaskProgress | internal/service/api.go:358-407 | a page is the distilled window of stored events, newest first, with the offset of the next |
| Timeline.DistillPage | internal/service/api.go:376-398 | the loop with its last-seen variables computes the distillation |
| Timeline.PageTellsTheNews | internal/service/api.go:376-401 | a page shows exactly the events that say something new, in order, each with its own time, status, summary and error; an event with an error always has its entry |
| Timeline.ReverseInPlace | internal/service/api.go:399-401 | the in-place swap loop reverses the entries |
| Timeline.DistillSplit | internal/service/api.go:355-357 | distilling a history in two parts, the second with what the first last said, loses and repeats nothing |
| Timeline.PagesCoverHistory | internal/service/api.go:358-407 | following next offsets visits the stored events from the offset on, in order, each once |
| Timeline.RestartAddsAtMostOne | internal/service/api.go:376-398 | a page that forgets what the previous one last said repeats at most one entry |

## Left out

- HTTP, TLS, authentication, OIDC, the SSRF guard and the sending of callbacks: a send is a success, a transient or a terminal outcome.
- SQL parsing, drivers, retries of transactions and isolation levels: each statement or locked transaction is one atomic step.
- Retention pruning of old sessions and deliveries: rows are never deleted; `Dialects.ClaimsAgreeIff` says what a missing session row changes.
- The pending-task admission limit: an admission that is refused rolls the transaction back before any statement.
- Prompts' text, summaries, errors, search text, task events, audit rows, trigger runs and redaction sets: they guard no update of the modelled rows.
- The cross-replica notification counter: it only adds wake-ups to the channel the notifier closes.
- Cron parsing: a schedule is any function to the least tick after an instant.
- SHA-256: the child id of a delivery row is an injective constructor.
- InsertExecutionAttempt, the direct insert of a running attempt, is not a step: no service path uses it.
- Text and JSON values are booleans or opaque names, and token counters are unbounded integers, without the 64-bit wrap.
- Layout.Itoa: the 64-bit range of its argument is a requirement, which its caller meets.
- Timeline.GetTaskProgress: offsets beyond 32 bits, which the query parameter truncates, are not modelled.
- Redaction of text that is not valid UTF-8 and upper-casing of non-ASCII keys are not modelled.
- Dialects.OverrunsDifferIff: states limits that are not negative, as timeouts are.
