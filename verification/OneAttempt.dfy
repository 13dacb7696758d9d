/** A task that is pending or running has exactly one pending or running attempt,
    in the task's own status; any other task has none. */
module OneAttempt {
  import opened Basics
  import opened Tables
  import opened Transactions
  import opened Integrity

  predicate Mirrors(a: AttemptStatus, t: TaskStatus) {
    (a.Pending? && t.Pending?) || (a.Running? && t.Running?)
  }

  /** Attempt i is the active attempt of task t. */
  predicate Current(db: Db, t: TaskId, i: AttemptId) {
    Owns(db, t, i) && ActiveAttempt(db.attempts[i])
  }

  /** An active attempt of task t mirrors it, is the only one, and exists exactly
      when t is active. */
  ghost predicate TaskOk(db: Db, t: TaskId)
    requires t in db.tasks
  {
    && (forall i :: Current(db, t, i) ==> Mirrors(db.attempts[i].status, db.tasks[t].status))
    && (forall i, k :: Current(db, t, i) && Current(db, t, k) ==> i == k)
    && (ActiveTask(db.tasks[t]) ==> exists i :: Current(db, t, i))
  }

  /** The invariant: one active attempt per active task, mirroring it. */
  ghost predicate Mirrored(db: Db) {
    Refs(db) && forall t :: t in db.tasks ==> TaskOk(db, t)
  }

  /** Task t owns an attempt in status error, which only the reapers write. */
  ghost predicate FailedByReaper(db: Db, t: TaskId) {
    exists i :: Owns(db, t, i) && db.attempts[i].status.Error?
  }

  /** No active task owns an attempt that a reaper failed. */
  ghost predicate Unscarred(db: Db) {
    forall t :: t in db.tasks && ActiveTask(db.tasks[t]) ==> !FailedByReaper(db, t)
  }

  /** db' is mirrored, and unscarred if db was. */
  ghost predicate Keeps(db: Db, db': Db) {
    Mirrored(db') && (Unscarred(db) ==> Unscarred(db'))
  }

  /** The event statuses a task and an attempt both have a place for. */
  predicate KnownStatus(status: TaskStatus) {
    !status.Pending? && !status.Named?
  }

  // ------------------------------------------------------------------ one task

  lemma UntouchedTask(db: Db, db': Db, t: TaskId)
    requires t in db.tasks && TaskOk(db, t)
    requires t in db'.tasks && db'.tasks[t].status == db.tasks[t].status
    requires forall i :: Owns(db', t, i) <==> Owns(db, t, i)
    requires forall i :: Owns(db', t, i) ==> i in db.attempts && db'.attempts[i].status == db.attempts[i].status
    ensures TaskOk(db', t) && (FailedByReaper(db', t) ==> FailedByReaper(db, t))
  {
    if ActiveTask(db'.tasks[t]) {
      var i :| Current(db, t, i);
      assert Current(db', t, i);
    }
    forall i | Current(db', t, i) ensures Current(db, t, i) {
    }
    if FailedByReaper(db', t) {
      var i :| Owns(db', t, i) && db'.attempts[i].status.Error?;
      assert Owns(db, t, i);
    }
  }

  ghost predicate Untouched(db: Db, db': Db, t: TaskId)
    requires SameChain(db, db') && t in db.tasks
  {
    && db'.tasks[t].status == db.tasks[t].status
    && forall i :: Owns(db, t, i) ==> db'.attempts[i].status == db.attempts[i].status
  }

  /** The task is over, and so are all its attempts. */
  ghost predicate Ended(db: Db, t: TaskId)
    requires t in db.tasks
  {
    !ActiveTask(db.tasks[t]) && forall i :: Owns(db, t, i) ==> !ActiveAttempt(db.attempts[i])
  }

  /** A step that inserts nothing and for every task either changes nothing or
      ends it together with its attempts. */
  lemma EndingStep(db: Db, db': Db)
    requires Mirrored(db) && SameChain(db, db')
    requires forall t :: t in db.tasks ==> Untouched(db, db', t) || Ended(db', t)
    ensures Keeps(db, db')
  {
    SameChainFacts(db, db');
    forall t | t in db'.tasks
      ensures TaskOk(db', t) && (ActiveTask(db'.tasks[t]) && FailedByReaper(db', t) ==> ActiveTask(db.tasks[t]) && FailedByReaper(db, t))
    {
      if !Ended(db', t) {
        UntouchedTask(db, db', t);
      }
    }
  }

  /** A step that leaves attempt and task statuses alone. */
  lemma QuietStep(db: Db, db': Db)
    requires Mirrored(db) && SameChain(db, db')
    requires forall i :: i in db.attempts ==> db'.attempts[i].status == db.attempts[i].status
    requires forall t :: t in db.tasks ==> db'.tasks[t].status == db.tasks[t].status
    ensures Keeps(db, db')
  {
    EndingStep(db, db');
  }

  /** Every owned attempt of a task that is not active is over. */
  lemma AttemptsOfEndedTask(db: Db, t: TaskId, i: AttemptId)
    requires t in db.tasks && TaskOk(db, t) && Owns(db, t, i) && !ActiveTask(db.tasks[t])
    ensures !ActiveAttempt(db.attempts[i])
  {
    assert Current(db, t, i) ==> Mirrors(db.attempts[i].status, db.tasks[t].status);
  }

  // -------------------------------------------------------------- each step kind

  lemma CancelKeeps(db: Db, task: TaskId, now: Time)
    requires Mirrored(db) && CancelTx(db, task, now).Committed?
    ensures Keeps(db, CancelTx(db, task, now).db)
  {
    var db1 := UpdateAttempts(db, ActiveAttemptsOf(db, task), CancelAttempt(now));
    var db' := UpdateTasks(db1, ActiveTaskRow(db1, task), CancelTask);
    AttemptsThenTasks(db, ActiveAttemptsOf(db, task), CancelAttempt(now), ActiveTaskRow(db1, task), CancelTask);
    forall t | t in db.tasks ensures Untouched(db, db', t) || Ended(db', t) {
      CancelEnds(db, task, now, t, db1, db');
    }
    EndingStep(db, db');
  }

  lemma CancelEnds(db: Db, task: TaskId, now: Time, t: TaskId, db1: Db, db': Db)
    requires t in db.tasks && SameChain(db, db')
    requires db1 == UpdateAttempts(db, ActiveAttemptsOf(db, task), CancelAttempt(now))
    requires db' == UpdateTasks(db1, ActiveTaskRow(db1, task), CancelTask)
    ensures if t == task then Ended(db', t) else Untouched(db, db', t)
  {
    SameChainFacts(db, db');
  }

  lemma ClearQueueKeeps(db: Db, now: Time)
    requires Mirrored(db)
    ensures Keeps(db, ClearQueueTx(db, now))
  {
    var db1 := UpdateAttempts(db, PendingAttempts(db), CancelAttempt(now));
    var db' := UpdateTasks(db1, PendingTasks(db1), CancelTask);
    AttemptsThenTasks(db, PendingAttempts(db), CancelAttempt(now), PendingTasks(db1), CancelTask);
    forall t | t in db.tasks ensures Untouched(db, db', t) || Ended(db', t) {
      ClearQueueEnds(db, now, t, db1, db');
    }
    EndingStep(db, db');
  }

  lemma ClearQueueEnds(db: Db, now: Time, t: TaskId, db1: Db, db': Db)
    requires t in db.tasks && TaskOk(db, t) && SameChain(db, db')
    requires db1 == UpdateAttempts(db, PendingAttempts(db), CancelAttempt(now))
    requires db' == UpdateTasks(db1, PendingTasks(db1), CancelTask)
    ensures if db.tasks[t].status.Pending? then Ended(db', t) else Untouched(db, db', t)
  {
    SameChainFacts(db, db');
    forall i | Owns(db, t, i) && ActiveAttempt(db.attempts[i]) ensures Mirrors(db.attempts[i].status, db.tasks[t].status) {
      assert Current(db, t, i);
    }
  }

  /** The owner of an active attempt has its status. */
  lemma OwnerMirrors(db: Db, t: TaskId, i: AttemptId)
    requires Mirrored(db) && Owns(db, t, i) && ActiveAttempt(db.attempts[i])
    ensures t in db.tasks && Mirrors(db.attempts[i].status, db.tasks[t].status)
  {
    assert Current(db, t, i) && PromptRefs(db, db.attempts[i].prompt);
  }

  lemma PromptsKeep(db: Db, hits: set<PromptId>, clause: SetPrompt)
    requires Mirrored(db)
    ensures Keeps(db, UpdatePrompts(db, hits, clause))
  {
    PromptsKeepChain(db, hits, clause);
    QuietStep(db, UpdatePrompts(db, hits, clause));
  }

  lemma SessionsKeep(db: Db, hits: set<SessionId>, clause: SetSession)
    requires Mirrored(db)
    ensures Keeps(db, UpdateSessions(db, hits, clause))
  {
    SessionsKeepChain(db, hits, clause);
    QuietStep(db, UpdateSessions(db, hits, clause));
  }

  // ------------------------------------------------------------ claim and report

  /** A step that inserts nothing and touches one task. */
  lemma OneTaskStep(db: Db, db': Db, task: TaskId)
    requires Mirrored(db) && SameChain(db, db') && task in db.tasks && TaskOk(db', task)
    requires ActiveTask(db.tasks[task]) && (FailedByReaper(db', task) ==> FailedByReaper(db, task))
    requires forall t :: t in db.tasks && t != task ==> Untouched(db, db', t)
    ensures Keeps(db, db')
  {
    SameChainFacts(db, db');
    forall t | t in db'.tasks && t != task ensures TaskOk(db', t) && (FailedByReaper(db', t) ==> FailedByReaper(db, t)) {
      UntouchedTask(db, db', t);
    }
  }

  lemma ClaimKeeps(db: Db, task: TaskId, i: AttemptId, r: RunnerId, c: ClaimId, lease: Time, now: Time)
    requires Mirrored(db) && Owns(db, task, i) && task in db.tasks
    requires db.attempts[i].status.Pending? && db.tasks[task].status.Pending? && ClaimTx(db, i, r, c, lease, now).Committed?
    ensures Keeps(db, ClaimTx(db, i, r, c, lease, now).db)
  {
    var clause := ClaimAttempt(r, c, now + lease, now);
    var db1 := UpdateAttempts(db, PendingAttempt(db, i), clause);
    var db2 := UpdateTasks(db1, PendingTaskRow(db1, task), RunTask);
    ClaimedRowsKeep(db, i, task, clause, db1, db2);
    PromptsKeep(db2, LatestQueuedPrompt(db2, task), SetPromptStatus(PromptStatus.Running));
  }

  lemma ClaimedRowsKeep(db: Db, i: AttemptId, task: TaskId, clause: SetAttempt, db1: Db, db2: Db)
    requires Mirrored(db) && Owns(db, task, i) && task in db.tasks
    requires db.attempts[i].status.Pending? && db.tasks[task].status.Pending? && clause.ClaimAttempt?
    requires db1 == UpdateAttempts(db, PendingAttempt(db, i), clause)
    requires db2 == UpdateTasks(db1, PendingTaskRow(db1, task), RunTask)
    ensures Keeps(db, db2)
  {
    AttemptsThenTasks(db, PendingAttempt(db, i), clause, PendingTaskRow(db1, task), RunTask);
    ClaimedTask(db, i, task, clause, db1, db2);
    forall t | t in db.tasks && t != task ensures Untouched(db, db2, t) {
      ClaimLeavesOthers(db, i, task, clause, db1, db2, t);
    }
    OneTaskStep(db, db2, task);
  }

  lemma ClaimLeavesOthers(db: Db, i: AttemptId, task: TaskId, clause: SetAttempt, db1: Db, db2: Db, t: TaskId)
    requires Owns(db, task, i) && t in db.tasks && t != task && SameChain(db, db2)
    requires db1 == UpdateAttempts(db, PendingAttempt(db, i), clause)
    requires db2 == UpdateTasks(db1, PendingTaskRow(db1, task), RunTask)
    ensures Untouched(db, db2, t)
  {
  }

  lemma ClaimedTask(db: Db, i: AttemptId, t: TaskId, clause: SetAttempt, db1: Db, db2: Db)
    requires Owns(db, t, i) && t in db.tasks && TaskOk(db, t) && SameChain(db, db2)
    requires db.attempts[i].status.Pending? && db.tasks[t].status.Pending? && clause.ClaimAttempt?
    requires db1 == UpdateAttempts(db, PendingAttempt(db, i), clause)
    requires db2 == UpdateTasks(db1, PendingTaskRow(db1, t), RunTask)
    ensures TaskOk(db2, t) && (FailedByReaper(db2, t) ==> FailedByReaper(db, t))
  {
    SameChainFacts(db, db2);
    assert Current(db, t, i) && Current(db2, t, i);
    forall k | Owns(db2, t, k) ensures db2.attempts[k].status == if k == i then AttemptStatus.Running else db.attempts[k].status {
    }
    forall k | Current(db2, t, k) ensures k == i {
      assert k != i ==> !Current(db, t, k);
    }
    if FailedByReaper(db2, t) {
      var k :| Owns(db2, t, k) && db2.attempts[k].status.Error?;
      assert Owns(db, t, k) && db.attempts[k].status.Error?;
    }
  }

  /** The attempt and task rows an accepted event writes. */
  lemma ReportKeeps(db: Db, e: Event, now: Time, clock: Time)
    requires Mirrored(db) && Accepted(db, e, clock) && KnownStatus(EventStatus(e))
    ensures Keeps(db, AfterReport(db, e, now, clock))
  {
    var hits := ReportableAttempt(db, e, clock);
    var db1 := UpdateAttempts(db, hits, ReportAttempt(e, now));
    var row := ReportableTaskRow(db1, e.task, EventStatus(e));
    var db2 := UpdateTasks(db1, row, ReportTask(EventStatus(e), e.category));
    AttemptsThenTasks(db, hits, ReportAttempt(e, now), row, ReportTask(EventStatus(e), e.category));
    OwnerMirrors(db, e.task, e.attempt);
    forall t | t in db.tasks ensures Untouched(db, db2, t) || Ended(db2, t) {
      ReportedTask(db, e, now, clock, t, db1, db2);
    }
    EndingStep(db, db2);
  }

  lemma ReportedTask(db: Db, e: Event, now: Time, clock: Time, t: TaskId, db1: Db, db2: Db)
    requires t in db.tasks && TaskOk(db, t) && SameChain(db, db2) && KnownStatus(EventStatus(e))
    requires Owns(db, e.task, e.attempt) && db.attempts[e.attempt].status.Running?
    requires e.task in db.tasks && db.tasks[e.task].status.Running?
    requires db1 == UpdateAttempts(db, ReportableAttempt(db, e, clock), ReportAttempt(e, now))
    requires e.attempt in ReportableAttempt(db, e, clock)
    requires db2 == UpdateTasks(db1, ReportableTaskRow(db1, e.task, EventStatus(e)), ReportTask(EventStatus(e), e.category))
    ensures if t == e.task && !EventStatus(e).Running? then Ended(db2, t) else Untouched(db, db2, t)
  {
    SameChainFacts(db, db2);
    assert Current(db, e.task, e.attempt);
    forall k | Owns(db2, t, k) && k != e.attempt ensures db2.attempts[k].status == db.attempts[k].status {
    }
    forall k | Owns(db2, t, k) && k != e.attempt && t == e.task ensures !ActiveAttempt(db2.attempts[k]) {
      assert !Current(db, t, k);
    }
  }

  /** An event with any other status leaves a running attempt whose task is not. */
  lemma UnknownStatusBreaks(db: Db, e: Event, now: Time, clock: Time, db1: Db, db2: Db)
    requires e.attempt in ReportableAttempt(db, e, clock) && !KnownStatus(EventStatus(e))
    requires e.task in db.tasks && db.tasks[e.task].status.Running?
    requires db1 == UpdateAttempts(db, ReportableAttempt(db, e, clock), ReportAttempt(e, now))
    requires db2 == UpdateTasks(db1, ReportableTaskRow(db1, e.task, EventStatus(e)), ReportTask(EventStatus(e), e.category))
    ensures e.attempt in db2.attempts && db2.attempts[e.attempt].status.Running?
    ensures e.task in db2.tasks && db2.tasks[e.task].status == EventStatus(e)
  {
    var row := ReportableTaskRow(db1, e.task, EventStatus(e));
    assert db1.tasks == db.tasks && e.task in row;
    assert db2.attempts == db1.attempts;
  }

  lemma EventKeeps(db: Db, step: Step)
    requires Mirrored(db) && step.Report? && KnownStatus(EventStatus(step.event)) && Enabled(db, step) && Apply(db, step).Committed?
    ensures Keeps(db, Apply(db, step).db)
  {
    var e, now := step.event, step.now;
    ReportKeeps(db, e, now, step.clock);
    var db1 := AfterReport(db, e, now, step.clock);
    SessionsKeep(db1, LatestOpenSession(db1, e.task), TouchSession(e.harness, now));
    var db2 := UpdateSessions(db1, LatestOpenSession(db1, e.task), TouchSession(e.harness, now));
    var ended := EndOf(EventStatus(e));
    if ended.Some? {
      EndKeeps(db2, e, ended.value, step.checkpoint, now);
    }
  }

  lemma EndKeeps(db: Db, e: Event, ended: (PromptStatus, SessionStatus), checkpoint: CheckpointId, now: Time)
    requires Mirrored(db) && EndPromptAndSession(db, e, ended, checkpoint, now).Committed?
    ensures Keeps(db, EndPromptAndSession(db, e, ended, checkpoint, now).db)
  {
    PromptsKeep(db, LatestPromptRow(db, e.task), EndPrompt(ended.0, e.transcript));
    var db1 := UpdatePrompts(db, LatestPromptRow(db, e.task), EndPrompt(ended.0, e.transcript));
    var latest := LatestSession(db1, e.task);
    if latest.Some? {
      var end := SessionEnd(db1.sessions[latest.value].mode, e, ended.1, now);
      var db2 := db1.(checkpoints := db1.checkpoints[checkpoint := Checkpoint(latest.value, true)]);
      QuietStep(db1, db2);
      SessionsKeep(db1, LatestOpenSession(db1, e.task), end);
      SessionsKeep(db2, LatestOpenSession(db2, e.task), end);
    }
  }

  // ---------------------------------------------------------------- new attempts

  /** Task t is pending again, or new, with a fresh pending attempt n; its other
      attempts are over, and no other task changes. */
  ghost predicate Queued(db: Db, db': Db, t: TaskId, n: AttemptId) {
    && t in db'.tasks && db'.tasks.Keys == db.tasks.Keys + {t} && db'.tasks[t].status.Pending?
    && (forall u, k :: Owns(db', u, k) <==> Owns(db, u, k) || (u == t && k == n))
    && Owns(db', t, n) && db'.attempts[n].status.Pending?
    && (forall u :: u in db.tasks && u != t ==> db'.tasks[u].status == db.tasks[u].status)
    && (forall u, k :: Owns(db, u, k) && u != t ==> Owns(db', u, k) && db'.attempts[k].status == db.attempts[k].status)
    && (forall k :: Owns(db, t, k) && k != n ==> Owns(db', t, k) && !ActiveAttempt(db'.attempts[k]))
  }

  /** Queueing an attempt keeps the tables mirrored, and unscarred unless a reaper
      once failed an attempt of its task. */
  lemma QueuedKeeps(db: Db, db': Db, t: TaskId, n: AttemptId)
    requires Refs(db') && Queued(db, db', t, n)
    requires forall u :: u in db.tasks && u != t ==> TaskOk(db, u)
    ensures Mirrored(db') && (Unscarred(db) && !FailedByReaper(db', t) ==> Unscarred(db'))
  {
    assert Current(db', t, n);
    assert TaskOk(db', t) by {
      forall k | Current(db', t, k) ensures k == n {
        assert k != n ==> Owns(db, t, k);
      }
    }
    forall u | u in db'.tasks && u != t ensures TaskOk(db', u) && (FailedByReaper(db', u) ==> FailedByReaper(db, u)) {
      UntouchedTask(db, db', u);
    }
  }

  lemma SubmitKeeps(db: Db, t: TaskId, ids: Ids, session: Session, timeout: int, maxAttempts: int, now: Time)
    requires Mirrored(db) && t !in db.tasks && session.task == t
    requires var db1 := db.(tasks := db.tasks[t := Task(TaskStatus.Pending, None, maxAttempts)]);
      InsertChain(db1, ids, session, timeout, now).Committed?
    ensures var db1 := db.(tasks := db.tasks[t := Task(TaskStatus.Pending, None, maxAttempts)]);
      Keeps(db, InsertChain(db1, ids, session, timeout, now).db)
  {
    var db1 := db.(tasks := db.tasks[t := Task(TaskStatus.Pending, None, maxAttempts)]);
    var db' := InsertChain(db1, ids, session, timeout, now).db;
    forall k ensures !Owns(db, t, k) {
      assert k in db.attempts ==> PromptRefs(db, db.attempts[k].prompt);
    }
    NewTaskRefs(db, t, db1);
    InsertChainFacts(db1, ids, session, timeout, now);
    SubmitQueues(db, t, ids, session, timeout, now, db1, db');
    QueuedKeeps(db, db', t, ids.attempt);
    forall k | Owns(db', t, k) ensures k == ids.attempt {
      assert Owns(db1, t, k) ==> Owns(db, t, k);
    }
  }

  lemma NewTaskRefs(db: Db, t: TaskId, db1: Db)
    requires Refs(db) && db1.attempts == db.attempts && db1.prompts == db.prompts && db1.sessions == db.sessions
    requires db1.tasks.Keys == db.tasks.Keys + {t}
    ensures Refs(db1)
  {
    forall p | p in db1.prompts ensures PromptRefs(db1, p) {
      assert PromptRefs(db, p);
    }
  }

  lemma SubmitQueues(db: Db, t: TaskId, ids: Ids, session: Session, timeout: int, now: Time, db1: Db, db': Db)
    requires t !in db.tasks && session.task == t && forall k :: !Owns(db, t, k)
    requires db1.attempts == db.attempts && db1.prompts == db.prompts && db1.sessions == db.sessions
    requires exists row: Task :: row.status.Pending? && db1.tasks == db.tasks[t := row]
    requires db'.tasks == db1.tasks && ids.attempt !in db.attempts
    requires db'.attempts == db1.attempts[ids.attempt := NewAttempt(ids.prompt, Anyone, timeout, now)]
    requires forall u, i :: Owns(db', u, i) <==> Owns(db1, u, i) || (u == t && i == ids.attempt)
    ensures Queued(db, db', t, ids.attempt)
  {
    assert forall u, i :: Owns(db1, u, i) <==> Owns(db, u, i);
  }

  /** db' is db with task t reopened and a fresh attempt queued under it. */
  ghost predicate Requeued(db: Db, t: TaskId, n: AttemptId, row: Attempt, db': Db) {
    && t in db.tasks && Reopenable(db.tasks[t])
    && db'.tasks.Keys == db.tasks.Keys && db'.tasks[t].status.Pending?
    && (forall u :: u in db.tasks && u != t ==> db'.tasks[u].status == db.tasks[u].status)
    && n !in db.attempts && row.status.Pending? && db'.attempts == db.attempts[n := row]
    && (forall u, i :: Owns(db', u, i) <==> Owns(db, u, i) || (u == t && i == n))
  }

  lemma RequeuedIsQueued(db: Db, t: TaskId, n: AttemptId, row: Attempt, db': Db)
    requires Mirrored(db) && Requeued(db, t, n, row, db')
    ensures Queued(db, db', t, n)
  {
    forall k | Owns(db, t, k) && k != n ensures Owns(db', t, k) && !ActiveAttempt(db'.attempts[k]) {
      AttemptsOfEndedTask(db, t, k);
    }
    forall u, k | Owns(db, u, k) && u != t ensures Owns(db', u, k) && db'.attempts[k].status == db.attempts[k].status {
      assert k != n;
    }
  }

  lemma RequeuedFailures(db: Db, t: TaskId, n: AttemptId, row: Attempt, db': Db)
    requires Requeued(db, t, n, row, db')
    ensures FailedByReaper(db', t) <==> FailedByReaper(db, t)
  {
    if FailedByReaper(db, t) {
      var k :| Owns(db, t, k) && db.attempts[k].status.Error?;
      assert Owns(db', t, k);
    }
    if FailedByReaper(db', t) {
      var k :| Owns(db', t, k) && db'.attempts[k].status.Error?;
      assert Owns(db, t, k);
    }
  }

  lemma RequeuedKeeps(db: Db, t: TaskId, n: AttemptId, row: Attempt, db': Db)
    requires Mirrored(db) && Refs(db') && Requeued(db, t, n, row, db')
    ensures Mirrored(db') && (Unscarred(db) && !FailedByReaper(db, t) ==> Unscarred(db'))
  {
    RequeuedIsQueued(db, t, n, row, db');
    RequeuedFailures(db, t, n, row, db');
    QueuedKeeps(db, db', t, n);
  }

  /** RequeueTaskForPrompt. */
  lemma ReopenFacts(db: Db, t: TaskId, db1: Db)
    requires Refs(db) && t in db.tasks && Reopenable(db.tasks[t])
    requires db1 == UpdateTasks(db, ReopenableTaskRow(db, t), RequeueTask)
    ensures Refs(db1) && db1.tasks.Keys == db.tasks.Keys && db1.tasks[t].status.Pending?
    ensures forall u :: u in db.tasks && u != t ==> db1.tasks[u].status == db.tasks[u].status
    ensures forall u, i :: Owns(db1, u, i) <==> Owns(db, u, i)
  {
    TasksKeepChain(db, ReopenableTaskRow(db, t), RequeueTask);
    SameChainFacts(db, db1);
  }

  /** A recovery keeps the tables mirrored, whatever a reaper did before; it leaves
      them unscarred unless a reaper failed an attempt of the task. */
  lemma RecoverKeeps(db: Db, t: TaskId, ids: Ids, timeout: int, now: Time)
    requires Mirrored(db) && RecoverTx(db, t, ids, timeout, now).Committed?
    ensures var db' := RecoverTx(db, t, ids, timeout, now).db;
      Mirrored(db') && (Unscarred(db) && !FailedByReaper(db, t) ==> Unscarred(db'))
  {
    var db1 := UpdateTasks(db, ReopenableTaskRow(db, t), RequeueTask);
    ReopenFacts(db, t, db1);
    var s, p := LatestSession(db, t).value, LatestPrompt(db, t).value;
    var before := db.sessions[s];
    var expires := if before.mode.NotResumable? then None else Some(now + 72 * 3600);
    var session := NewSession(t, NextSessionNumber(db, t), before.mode, before.isolated, expires, now);
    var last := LastTimeout(db, p, timeout);
    InsertChainFacts(db1, ids, session, last, now);
    RequeuedKeeps(db, t, ids.attempt, NewAttempt(ids.prompt, Anyone, last, now), RecoverTx(db, t, ids, timeout, now).db);
  }

  /** The same for a resumed session. */
  lemma ResumeKeeps(db: Db, s: SessionId, t: TaskId, r: RunnerId, p: PromptId, i: AttemptId, timeout: int, now: Time)
    requires Mirrored(db) && s in db.sessions && db.sessions[s].task == t && ResumeTx(db, s, t, r, p, i, timeout, now).Committed?
    ensures var db' := ResumeTx(db, s, t, r, p, i, timeout, now).db;
      Mirrored(db') && (Unscarred(db) && !FailedByReaper(db, t) ==> Unscarred(db'))
  {
    var db1 := UpdateTasks(db, ReopenableTaskRow(db, t), RequeueTask);
    ReopenFacts(db, t, db1);
    var prompt, row := Prompt(t, s, NextPromptNumber(db, s), PromptStatus.Pending, false), NewAttempt(p, Only(r), timeout, now);
    var db2 := db1.(prompts := db1.prompts[p := prompt], attempts := db1.attempts[i := row]);
    InsertPromptFacts(db1, p, i, prompt, row);
    RequeuedKeeps(db, t, i, row, db2);
    SessionsKeep(db2, ParkedSession(db2, s), SetSessionStatus(SessionStatus.Resuming, now));
  }

  // ------------------------------------------------------------------- reclaim

  lemma AbandonedFacts(db: Db, i: AttemptId, t: TaskId, p: PromptId, s: SessionId, now: Time)
    requires Owns(db, t, i) && db.attempts[i].status.Running? && t in db.tasks && db.tasks[t].status.Running?
    ensures var db4 := GiveUp(db, i, t, p, s, now);
      && SameChain(db, db4)
      && db4.attempts == db.attempts[i := WithAttempt(LoseAttempt(now), db.attempts[i])]
      && db4.tasks == db.tasks[t := WithTask(RequeueTask, db.tasks[t])]
  {
    var db1 := UpdateAttempts(db, RunningAttempt(db, i), LoseAttempt(now));
    var db2 := UpdateTasks(db1, RunningTaskRow(db1, t), RequeueTask);
    var db3 := UpdatePrompts(db2, UnfinishedPrompt(db2, p), SetPromptStatus(PromptStatus.Failed));
    AttemptsThenTasks(db, RunningAttempt(db, i), LoseAttempt(now), RunningTaskRow(db1, t), RequeueTask);
    PromptsKeepChain(db2, UnfinishedPrompt(db2, p), SetPromptStatus(PromptStatus.Failed));
    SessionsKeepChain(db3, OpenSession(db3, s), SetSessionStatus(SessionStatus.Abandoned, now));
    SameChainTransitive(db, db2, db3);
    SameChainTransitive(db, db3, GiveUp(db, i, t, p, s, now));
  }

  /** The rows of a reclaim: attempt i is lost, its task pending, and a fresh
      attempt queued. */
  ghost predicate Reclaimed(db: Db, t: TaskId, i: AttemptId, n: AttemptId, row: Attempt, now: Time, db': Db) {
    && t in db.tasks && db.tasks[t].status.Running? && Owns(db, t, i) && db.attempts[i].status.Running?
    && Refs(db') && db'.runners == db.runners && n !in db.attempts && row.status.Pending?
    && db'.tasks == db.tasks[t := WithTask(RequeueTask, db.tasks[t])]
    && db'.attempts == db.attempts[i := WithAttempt(LoseAttempt(now), db.attempts[i])][n := row]
    && (forall u, k :: Owns(db', u, k) <==> Owns(db, u, k) || (u == t && k == n))
  }

  lemma ReclaimRows(db: Db, i: AttemptId, ids: Ids, now: Time)
    requires Refs(db) && ReclaimOne(db, i, ids, now).Committed? && !Spared(db, i)
    ensures i in db.attempts && db.attempts[i].prompt in db.prompts
      && Reclaimed(db, db.prompts[db.attempts[i].prompt].task, i, ids.attempt,
                   NewAttempt(ids.prompt, Anyone, db.attempts[i].timeout, now), now, ReclaimOne(db, i, ids, now).db)
  {
    var t := db.prompts[db.attempts[i].prompt].task;
    var s, p := LatestSession(db, t).value, LatestPrompt(db, t).value;
    var before, db4 := db.sessions[s], GiveUp(db, i, t, p, s, now);
    assert RunningAttempt(db, i) != {} && RunningTaskRow(db, t) != {};
    AbandonedFacts(db, i, t, p, s, now);
    SameChainFacts(db, db4);
    var session := NewSession(t, NextSessionNumber(db, t), before.mode, before.isolated, before.expires, now);
    InsertChainFacts(db4, ids, session, db.attempts[i].timeout, now);
  }

  lemma ReclaimedIsQueued(db: Db, t: TaskId, i: AttemptId, n: AttemptId, row: Attempt, now: Time, db': Db)
    requires Reclaimed(db, t, i, n, row, now, db') && TaskOk(db, t)
    ensures Queued(db, db', t, n)
  {
    assert Current(db, t, i);
    forall k | Owns(db, t, k) && k != n ensures Owns(db', t, k) && !ActiveAttempt(db'.attempts[k]) {
      assert k != i ==> !Current(db, t, k);
    }
    forall u, k | Owns(db, u, k) && u != t ensures Owns(db', u, k) && db'.attempts[k].status == db.attempts[k].status {
      assert k != i && k != n;
    }
  }

  lemma ReclaimedFailures(db: Db, t: TaskId, i: AttemptId, n: AttemptId, row: Attempt, now: Time, db': Db)
    requires Reclaimed(db, t, i, n, row, now, db')
    ensures FailedByReaper(db', t) ==> FailedByReaper(db, t)
  {
    if FailedByReaper(db', t) {
      var k :| Owns(db', t, k) && db'.attempts[k].status.Error?;
      assert Owns(db, t, k) && db.attempts[k].status.Error?;
    }
  }

  lemma ReclaimKeeps(db: Db, i: AttemptId, ids: Ids, now: Time)
    requires Mirrored(db) && ReclaimOne(db, i, ids, now).Committed?
    ensures Keeps(db, ReclaimOne(db, i, ids, now).db)
  {
    if !Spared(db, i) {
      var t, row := db.prompts[db.attempts[i].prompt].task, NewAttempt(ids.prompt, Anyone, db.attempts[i].timeout, now);
      ReclaimRows(db, i, ids, now);
      ReclaimedKeeps(db, t, i, ids.attempt, row, now, ReclaimOne(db, i, ids, now).db);
    }
  }

  lemma ReclaimedKeeps(db: Db, t: TaskId, i: AttemptId, n: AttemptId, row: Attempt, now: Time, db': Db)
    requires Mirrored(db) && Reclaimed(db, t, i, n, row, now, db')
    ensures Keeps(db, db')
  {
    ReclaimedIsQueued(db, t, i, n, row, now, db');
    ReclaimedFailures(db, t, i, n, row, now, db');
    QueuedKeeps(db, db', t, n);
  }

  lemma {:induction false} ReclaimAllKeeps(db: Db, order: seq<AttemptId>, drawn: seq<Ids>, now: Time)
    requires Mirrored(db) && |order| == |drawn| && ReclaimAll(db, order, drawn, now).Committed?
    ensures Keeps(db, ReclaimAll(db, order, drawn, now).db)
    decreases |order|
  {
    if order != [] {
      ReclaimKeeps(db, order[0], drawn[0], now);
      ReclaimAllKeeps(ReclaimOne(db, order[0], drawn[0], now).db, order[1..], drawn[1..], now);
    }
  }
}
