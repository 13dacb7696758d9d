/** The invariant of OneAttempt over whole runs, and exactly which steps keep it. */
module OneAttemptRuns {
  import opened Basics
  import opened Tables
  import opened Transactions
  import opened Integrity
  import opened OneAttempt
  import opened Rollups
  import opened LeaseRace

  // ------------------------------------------------------------------ conditions

  /** What keeps the tables mirrored: an event reports a known status, and no reaper
      fails a task over an active attempt that it leaves. */
  ghost predicate Harmless(db: Db, step: Step) {
    match step
    case Report(e, _, _, _) => KnownStatus(EventStatus(e))
    case ReapLeases(auto, _, _, now) => if auto then PassCovered(db, now) else LeasesCovered(db, false, now)
    case ReapPinned(_, clock) => PendingCovered(db, AttemptsMissingRunner(db, clock), RunnerUnavailable)
    case ReapIsolation(_, clock) => PendingCovered(db, AttemptsWithoutIsolation(db, clock), IsolationUnavailable)
    case ReapOverrun(now, clock) => OverrunsCovered(db, now, clock)
    case _ => true
  }

  /** What is enough without looking at attempts: an event reports a known status,
      and a task that a reaper failed is not reopened. */
  ghost predicate Orderly(db: Db, step: Step) {
    && (step.Report? ==> KnownStatus(EventStatus(step.event)))
    && (step.Recover? ==> !FailedByReaper(db, step.task))
    && (step.Resume? ==> !FailedByReaper(db, step.task))
  }

  /** The outcome of a step for the invariant and its strengthening. */
  ghost predicate Decided(db: Db, step: Step, db': Db) {
    && (Mirrored(db') <==> Harmless(db, step))
    && (Mirrored(db') && Unscarred(db) && Orderly(db, step) ==> Unscarred(db'))
  }

  // ------------------------------------------------------------- upkeep of rows

  ghost predicate SameStatuses(db: Db, db': Db) {
    && SameChain(db, db') && db'.tasks == db.tasks
    && forall i :: i in db.attempts ==> db'.attempts[i].status == db.attempts[i].status
  }

  lemma RenewIsQuiet(db: Db, hits: set<AttemptId>, until: Time)
    ensures SameStatuses(db, UpdateAttempts(db, hits, RenewAttempt(until)))
  {
  }

  lemma ExtendIsQuiet(db: Db, hits: set<AttemptId>, seconds: int)
    ensures SameStatuses(db, UpdateAttempts(db, hits, ExtendAttempt(seconds)))
  {
  }

  lemma DropIsQuiet(db: Db, hits: set<AttemptId>)
    ensures SameStatuses(db, UpdateAttempts(db, hits, DropAttemptExport))
  {
  }

  lemma SameStatusesKeeps(db: Db, db': Db)
    requires Mirrored(db) && SameStatuses(db, db')
    ensures Keeps(db, db')
  {
    QuietStep(db, db');
  }

  lemma RenewKeeps(db: Db, i: AttemptId, r: RunnerId, c: ClaimId, now: Time)
    requires Mirrored(db)
    ensures Keeps(db, RenewStmt(db, i, r, c, now))
  {
    RenewIsQuiet(db, RenewableAttempt(db, i, r, c), now + TASK_LEASE);
    SameStatusesKeeps(db, RenewStmt(db, i, r, c, now));
  }

  lemma ExtendKeeps(db: Db, t: TaskId, seconds: int)
    requires Mirrored(db)
    ensures Keeps(db, ExtendStmt(db, t, seconds))
  {
    ExtendIsQuiet(db, ActiveAttemptsOf(db, t), seconds);
    SameStatusesKeeps(db, ExtendStmt(db, t, seconds));
  }

  lemma CollectAttemptsKeeps(db: Db, clock: Time, ttl: int)
    requires Mirrored(db)
    ensures Keeps(db, CollectAttemptsStmt(db, clock, ttl))
  {
    DropIsQuiet(db, CollectableAttempts(db, clock, ttl));
    SameStatusesKeeps(db, CollectAttemptsStmt(db, clock, ttl));
  }

  lemma AttemptUpkeepKeeps(db: Db, step: Step, db': Db)
    requires Mirrored(db) && Enabled(db, step) && Apply(db, step) == Committed(db')
    requires step.Renew? || step.Extend? || step.CollectAttempts?
    ensures Keeps(db, db')
  {
    match step
    case Renew(i, r, c, now) =>
      assert db' == RenewStmt(db, i, r, c, now);
      RenewKeeps(db, i, r, c, now);
    case Extend(t, seconds) =>
      assert db' == ExtendStmt(db, t, seconds);
      ExtendKeeps(db, t, seconds);
    case CollectAttempts(clock, ttl) =>
      assert db' == CollectAttemptsStmt(db, clock, ttl);
      CollectAttemptsKeeps(db, clock, ttl);
  }

  lemma PromptUpkeepKeeps(db: Db, step: Step, db': Db)
    requires Mirrored(db) && Enabled(db, step) && Apply(db, step) == Committed(db')
    requires step.ReapPrompts? || step.RevertPrompts? || step.CollectPrompts?
    ensures Keeps(db, db')
  {
    match step
    case ReapPrompts =>
      assert db' == ReapPromptsStmt(db);
      PromptsKeep(db, RunningPromptsOfReopenable(db), FollowTask(db.tasks));
    case RevertPrompts =>
      assert db' == RevertPromptsStmt(db);
      PromptsKeep(db, RunningPromptsOfPending(db), SetPromptStatus(PromptStatus.Pending));
    case CollectPrompts(clock, ttl) =>
      assert db' == CollectPromptsStmt(db, clock, ttl);
      PromptsKeep(db, CollectablePrompts(db, clock, ttl), DropPromptExport);
  }

  lemma SessionUpkeepKeeps(db: Db, step: Step, db': Db)
    requires Mirrored(db) && Enabled(db, step) && Apply(db, step) == Committed(db')
    requires step.ExpireSessions? || step.ReapSessions?
    ensures Keeps(db, db')
  {
    match step
    case ExpireSessions(now) =>
      assert db' == ExpireSessionsStmt(db, now);
      SessionsKeep(db, ExpirableSessions(db, now), SetSessionStatus(SessionStatus.Expired, now));
    case ReapSessions(now) =>
      assert db' == ReapSessionsStmt(db, now);
      SessionsKeep(db, SessionsOfEnded(db), FollowTaskStatus(db.tasks, now));
  }

  lemma OtherUpkeepKeeps(db: Db, step: Step, db': Db)
    requires Mirrored(db) && Enabled(db, step) && Apply(db, step) == Committed(db')
    requires step.CollectCheckpoints? || step.Heartbeat?
    ensures Keeps(db, db')
  {
    match step
    case CollectCheckpoints(clock, ttl) =>
      assert db' == CollectCheckpointsStmt(db, clock, ttl);
      CollectCheckpointsKeeps(db, clock, ttl);
    case Heartbeat(r, row) =>
      assert db' == db.(runners := db.runners[r := row]);
      OtherTablesKeep(db, db');
  }

  lemma CollectCheckpointsKeeps(db: Db, clock: Time, ttl: int)
    requires Mirrored(db)
    ensures Keeps(db, CollectCheckpointsStmt(db, clock, ttl))
  {
    OtherTablesKeep(db, CollectCheckpointsStmt(db, clock, ttl));
  }

  lemma OtherTablesKeep(db: Db, db': Db)
    requires Mirrored(db) && db' == db.(checkpoints := db'.checkpoints, runners := db'.runners)
    ensures Keeps(db, db')
  {
    assert SameStatuses(db, db');
    SameStatusesKeeps(db, db');
  }

  predicate Upkeep(step: Step) {
    step.Renew? || step.Extend? || step.ExpireSessions? || step.ReapPrompts? || step.RevertPrompts?
    || step.ReapSessions? || step.CollectCheckpoints? || step.CollectPrompts? || step.CollectAttempts? || step.Heartbeat?
  }

  /** The steps that write neither attempt nor task statuses. */
  lemma UpkeepKeeps(db: Db, step: Step, db': Db)
    requires Mirrored(db) && Enabled(db, step) && Upkeep(step) && Apply(db, step) == Committed(db')
    ensures Keeps(db, db')
  {
    if step.Renew? || step.Extend? || step.CollectAttempts? {
      AttemptUpkeepKeeps(db, step, db');
    } else if step.ReapPrompts? || step.RevertPrompts? || step.CollectPrompts? {
      PromptUpkeepKeeps(db, step, db');
    } else if step.ExpireSessions? || step.ReapSessions? {
      SessionUpkeepKeeps(db, step, db');
    } else {
      OtherUpkeepKeeps(db, step, db');
    }
  }

  // --------------------------------------------------------------------- events

  /** An attempt that runs under a task that does not. */
  lemma StrayAttempt(db: Db, t: TaskId, i: AttemptId)
    requires Owns(db, t, i) && db.attempts[i].status.Running? && t in db.tasks && !db.tasks[t].status.Running?
    ensures !Mirrored(db)
  {
    assert Current(db, t, i);
  }

  lemma ReportOfUnknownStatus(db: Db, e: Event, checkpoint: CheckpointId, now: Time, clock: Time)
    requires Accepted(db, e, clock) && !KnownStatus(EventStatus(e))
    ensures var db2 := AfterReport(db, e, now, clock);
      RecordEventTx(db, e, checkpoint, now, clock) ==
        Committed(UpdateSessions(db2, LatestOpenSession(db2, e.task), TouchSession(e.harness, now)))
  {
  }

  lemma UnknownReportIsStray(db: Db, e: Event, now: Time, clock: Time, db2: Db, db3: Db)
    requires Mirrored(db) && Accepted(db, e, clock) && !KnownStatus(EventStatus(e)) && db2 == AfterReport(db, e, now, clock)
    requires db3.tasks == db2.tasks && db3.attempts == db2.attempts && db3.prompts == db2.prompts
    ensures !Mirrored(db3)
  {
    var db1 := UpdateAttempts(db, ReportableAttempt(db, e, clock), ReportAttempt(e, now));
    OwnerMirrors(db, e.task, e.attempt);
    UnknownStatusBreaks(db, e, now, clock, db1, db2);
    ReportKeepsOwners(db, e, now, clock);
    StrayAttempt(db3, e.task, e.attempt);
  }

  lemma UnknownReportBreaks(db: Db, e: Event, checkpoint: CheckpointId, now: Time, clock: Time)
    requires Mirrored(db) && Accepted(db, e, clock) && !KnownStatus(EventStatus(e))
    ensures RecordEventTx(db, e, checkpoint, now, clock).Committed? && !Mirrored(RecordEventTx(db, e, checkpoint, now, clock).db)
  {
    ReportOfUnknownStatus(db, e, checkpoint, now, clock);
    UnknownReportIsStray(db, e, now, clock, AfterReport(db, e, now, clock), RecordEventTx(db, e, checkpoint, now, clock).db);
  }

  lemma ReportKeepsOwners(db: Db, e: Event, now: Time, clock: Time)
    ensures SameChain(db, AfterReport(db, e, now, clock))
    ensures forall t, i :: Owns(AfterReport(db, e, now, clock), t, i) <==> Owns(db, t, i)
  {
    var db1 := UpdateAttempts(db, ReportableAttempt(db, e, clock), ReportAttempt(e, now));
    AttemptsThenTasks(db, ReportableAttempt(db, e, clock), ReportAttempt(e, now), ReportableTaskRow(db1, e.task, EventStatus(e)),
                      ReportTask(EventStatus(e), e.category));
    SameChainFacts(db, AfterReport(db, e, now, clock));
  }

  // ---------------------------------------------------------------------- steps

  predicate Reaps(step: Step) {
    step.ReapLeases? || step.ReapPinned? || step.ReapIsolation? || step.ReapOverrun?
  }

  lemma ReaperDecides(db: Db, step: Step)
    requires Mirrored(db) && Enabled(db, step) && Reaps(step) && Apply(db, step).Committed?
    ensures Decided(db, step, Apply(db, step).db)
  {
    match step
    case ReapLeases(auto, order, drawn, now) =>
      if auto {
        PassKeepsMirroredIff(db, order, drawn, now);
      } else {
        FailExpiredKeepsMirroredIff(db, false, now);
      }
    case ReapPinned(now, clock) => PinnedKeepsMirroredIff(db, now, clock);
    case ReapIsolation(now, clock) => IsolationKeepsMirroredIff(db, now, clock);
    case ReapOverrun(now, clock) => OverrunKeepsMirroredIff(db, now, clock);
  }

  lemma RequestDecides(db: Db, step: Step)
    requires Mirrored(db) && Enabled(db, step) && Apply(db, step).Committed?
    requires step.Submit? || step.Claim? || step.Cancel? || step.ClearQueue? || step.Recover? || step.Resume?
    ensures Decided(db, step, Apply(db, step).db)
  {
    match step
    case Submit(t, ids, mode, isolated, expires, timeout, maxAttempts, now) =>
      SubmitKeeps(db, t, ids, NewSession(t, 1, mode, isolated, expires, now), timeout, maxAttempts, now);
    case Claim(i, r, capable, locked, c, lease, now) =>
      ClaimKeeps(db, db.prompts[db.attempts[i].prompt].task, i, r, c, lease, now);
    case Cancel(t, now) => CancelKeeps(db, t, now);
    case ClearQueue(now) => ClearQueueKeeps(db, now);
    case Recover(t, ids, timeout, now) => RecoverKeeps(db, t, ids, timeout, now);
    case Resume(s, t, r, p, i, timeout, now) => ResumeKeeps(db, s, t, r, p, i, timeout, now);
  }

  lemma ReportDecides(db: Db, step: Step)
    requires Mirrored(db) && Enabled(db, step) && step.Report? && Apply(db, step).Committed?
    ensures Decided(db, step, Apply(db, step).db)
  {
    if KnownStatus(EventStatus(step.event)) {
      EventKeeps(db, step);
    } else {
      UnknownReportBreaks(db, step.event, step.checkpoint, step.now, step.clock);
    }
  }

  lemma StepDecides(db: Db, step: Step)
    requires Mirrored(db) && Enabled(db, step) && Apply(db, step).Committed?
    ensures Decided(db, step, Apply(db, step).db)
  {
    if step.Report? {
      ReportDecides(db, step);
    } else if Reaps(step) {
      ReaperDecides(db, step);
    } else if Upkeep(step) {
      UpkeepKeeps(db, step, Apply(db, step).db);
    } else {
      RequestDecides(db, step);
    }
  }

  /** A committed step keeps one active attempt per active task, mirroring it,
      exactly when it is harmless. Submissions, claims, cancellations, recoveries,
      resumes and upkeep always are. */
  lemma StepKeepsMirroredIff(db: Db, step: Step)
    requires Mirrored(db) && Enabled(db, step) && Apply(db, step).Committed?
    ensures Mirrored(Next(db, step)) <==> Harmless(db, step)
  {
    StepDecides(db, step);
  }

  /** While no active task was failed by a reaper, the reapers are harmless. */
  lemma UnscarredIsHarmless(db: Db, step: Step)
    requires Mirrored(db) && Unscarred(db) && Orderly(db, step)
    ensures Harmless(db, step)
  {
    forall t, n | Current(db, t, n) ensures !FailedByReaper(db, t) {
      OwnerMirrors(db, t, n);
    }
    ScarsOfTimeouts(db);
  }

  lemma ScarsOfTimeouts(db: Db)
    ensures forall t, now :: TimedOutBefore(db, t, now) || TimedOutAt(db, t, now) ==> FailedByReaper(db, t)
    ensures forall t, reason :: FailedBefore(db, t, reason) ==> FailedByReaper(db, t)
  {
  }

  // ----------------------------------------------------------------------- runs

  /** A run in which every step that commits is harmless. */
  ghost predicate HarmlessRun(db: Db, steps: seq<Step>)
    decreases |steps|
  {
    steps == []
    || (Enabled(db, steps[0]) && (Apply(db, steps[0]).Committed? ==> Harmless(db, steps[0])) && HarmlessRun(Next(db, steps[0]), steps[1..]))
  }

  /** A run in which every step that commits is orderly. */
  ghost predicate OrderlyRun(db: Db, steps: seq<Step>)
    decreases |steps|
  {
    steps == []
    || (Enabled(db, steps[0]) && (Apply(db, steps[0]).Committed? ==> Orderly(db, steps[0])) && OrderlyRun(Next(db, steps[0]), steps[1..]))
  }

  /** A run all of whose states are mirrored. */
  ghost predicate MirroredThroughout(db: Db, steps: seq<Step>)
    decreases |steps|
  {
    Mirrored(db) && (steps == [] || (Enabled(db, steps[0]) && MirroredThroughout(Next(db, steps[0]), steps[1..])))
  }

  /** A run stays mirrored exactly when its committed steps are harmless. */
  lemma {:induction false} RunIsMirroredIff(db: Db, steps: seq<Step>)
    requires Mirrored(db)
    ensures MirroredThroughout(db, steps) <==> HarmlessRun(db, steps)
    decreases |steps|
  {
    if steps != [] && Enabled(db, steps[0]) {
      if Apply(db, steps[0]).Committed? {
        StepKeepsMirroredIff(db, steps[0]);
      }
      if Mirrored(Next(db, steps[0])) {
        RunIsMirroredIff(Next(db, steps[0]), steps[1..]);
      }
    }
  }

  /** In an orderly run from unscarred tables no reaper does harm. */
  lemma {:induction false} OrderlyRunIsHarmless(db: Db, steps: seq<Step>)
    requires Mirrored(db) && Unscarred(db) && OrderlyRun(db, steps)
    ensures HarmlessRun(db, steps)
    decreases |steps|
  {
    if steps != [] {
      if Apply(db, steps[0]).Committed? {
        StepDecides(db, steps[0]);
        UnscarredIsHarmless(db, steps[0]);
      }
      OrderlyRunIsHarmless(Next(db, steps[0]), steps[1..]);
    }
  }

  lemma {:induction false} LastIsMirrored(db: Db, steps: seq<Step>, last: Db)
    requires MirroredThroughout(db, steps) && Run(db, steps, last)
    ensures Mirrored(last)
    decreases |steps|
  {
    if steps != [] {
      LastIsMirrored(Next(db, steps[0]), steps[1..], last);
    }
  }

  /** In every interleaving of harmless submissions, claims, renewals, events, reaps,
      cancellations, recoveries and resumes, a task has at most one pending or
      running attempt, and it has the task's status. */
  lemma AtMostOneActiveAttempt(steps: seq<Step>, db: Db, t: TaskId, i: AttemptId, k: AttemptId)
    requires HarmlessRun(Empty, steps) && Run(Empty, steps, db)
    requires Owns(db, t, i) && ActiveAttempt(db.attempts[i])
    ensures t in db.tasks && Mirrors(db.attempts[i].status, db.tasks[t].status)
    ensures Owns(db, t, k) && ActiveAttempt(db.attempts[k]) ==> k == i
  {
    RunIsMirroredIff(Empty, steps);
    LastIsMirrored(Empty, steps, db);
    OwnerMirrors(db, t, i);
    assert Current(db, t, i);
    assert Owns(db, t, k) && ActiveAttempt(db.attempts[k]) ==> Current(db, t, k);
  }

  /** No task is stuck: a pending task has an attempt to claim and a running task
      an attempt whose lease can expire or whose runner can report. */
  lemma ActiveTaskHasItsAttempt(steps: seq<Step>, db: Db, t: TaskId) returns (i: AttemptId)
    requires HarmlessRun(Empty, steps) && Run(Empty, steps, db)
    requires t in db.tasks && (db.tasks[t].status.Pending? || db.tasks[t].status.Running?)
    ensures Owns(db, t, i) && Mirrors(db.attempts[i].status, db.tasks[t].status)
  {
    RunIsMirroredIff(Empty, steps);
    LastIsMirrored(Empty, steps, db);
    assert TaskOk(db, t);
    i :| Current(db, t, i);
  }
}
