/** Usage accounting: a task's reported totals are the sum of the deltas of exactly
    the events that were accepted for it. */
module Accounting {
  import opened Basics
  import opened Tables
  import opened Transactions
  import opened Integrity
  import opened Fencing

  type Attempts = map<AttemptId, Attempt>

  // ---------------------------------------------------------------------- sums

  /** SUM over a set of attempts. */
  ghost function Total(rows: Attempts, ids: set<AttemptId>): Usage
    requires ids <= rows.Keys
    decreases ids
  {
    if ids == {} then NoUsage
    else
      var i :| i in ids;
      Plus(rows[i].usage, Total(rows, ids - {i}))
  }

  lemma {:induction false} TotalPick(rows: Attempts, ids: set<AttemptId>, i: AttemptId)
    requires ids <= rows.Keys && i in ids
    ensures Total(rows, ids) == Plus(rows[i].usage, Total(rows, ids - {i}))
    decreases ids
  {
    var k :| k in ids && Total(rows, ids) == Plus(rows[k].usage, Total(rows, ids - {k}));
    if k != i {
      TotalPick(rows, ids - {k}, i);
      TotalPick(rows, ids - {i}, k);
      assert ids - {k} - {i} == ids - {i} - {k};
      PlusSwap(rows[k].usage, rows[i].usage, Total(rows, ids - {k} - {i}));
    }
  }

  lemma PlusLaws(a: Usage, b: Usage, c: Usage)
    ensures Plus(Plus(a, b), c) == Plus(a, Plus(b, c)) && Plus(a, NoUsage) == a
  {
  }

  lemma PlusSwap(a: Usage, b: Usage, c: Usage)
    ensures Plus(a, Plus(b, c)) == Plus(b, Plus(a, c))
  {
  }

  lemma {:induction false} TotalSame(rows: Attempts, rows': Attempts, ids: set<AttemptId>)
    requires ids <= rows.Keys && ids <= rows'.Keys
    requires forall i :: i in ids ==> rows'[i].usage == rows[i].usage
    ensures Total(rows', ids) == Total(rows, ids)
    decreases ids
  {
    if ids != {} {
      var i :| i in ids;
      TotalPick(rows, ids, i);
      TotalPick(rows', ids, i);
      TotalSame(rows, rows', ids - {i});
    }
  }

  /** Attempts without usage do not count. */
  lemma {:induction false} TotalExtend(rows: Attempts, ids: set<AttemptId>, more: set<AttemptId>)
    requires ids <= more <= rows.Keys
    requires forall i :: i in more && i !in ids ==> rows[i].usage == NoUsage
    ensures Total(rows, more) == Total(rows, ids)
    decreases more
  {
    if more != ids {
      var i :| i in more && i !in ids;
      TotalPick(rows, more, i);
      TotalExtend(rows, ids, more - {i});
    }
  }

  /** GetExecutionAttemptUsageByTask. */
  ghost function TaskUsage(db: Db, t: TaskId): Usage {
    Total(db.attempts, AttemptsOf(db, t))
  }

  // -------------------------------------------------------------------- frames

  /** Rows keep their parents, and rows are added without usage. */
  ghost predicate Grows(db: Db, db': Db) {
    && Refs(db')
    && (forall i :: i in db.attempts ==> i in db'.attempts && db'.attempts[i].prompt == db.attempts[i].prompt)
    && (forall p :: p in db.prompts ==> p in db'.prompts && db'.prompts[p].task == db.prompts[p].task)
    && (forall i :: i in db'.attempts && i !in db.attempts ==> db'.attempts[i].usage == NoUsage)
  }

  /** And no usage changes. */
  ghost predicate Frame(db: Db, db': Db) {
    Grows(db, db') && forall i :: i in db.attempts ==> db'.attempts[i].usage == db.attempts[i].usage
  }

  lemma FrameTransitive(a: Db, b: Db, c: Db)
    requires Frame(a, b) && Frame(b, c)
    ensures Frame(a, c)
  {
  }

  lemma GrowsKeepsOwners(db: Db, db': Db, t: TaskId)
    requires Refs(db) && Grows(db, db')
    ensures AttemptsOf(db, t) <= AttemptsOf(db', t)
    ensures forall i :: i in AttemptsOf(db', t) && i in db.attempts ==> i in AttemptsOf(db, t)
  {
  }

  lemma FrameKeepsUsage(db: Db, db': Db, t: TaskId)
    requires Refs(db) && Frame(db, db')
    ensures TaskUsage(db', t) == TaskUsage(db, t)
  {
    GrowsKeepsOwners(db, db', t);
    TotalSame(db.attempts, db'.attempts, AttemptsOf(db, t));
    TotalExtend(db'.attempts, AttemptsOf(db, t), AttemptsOf(db', t));
  }

  lemma SameChainFrames(db: Db, db': Db)
    requires Refs(db) && SameChain(db, db')
    requires forall i :: i in db.attempts ==> db'.attempts[i].usage == db.attempts[i].usage
    ensures Frame(db, db')
  {
    SameChainFacts(db, db');
  }

  lemma AttemptsFrame(db: Db, hits: set<AttemptId>, clause: SetAttempt)
    requires Refs(db) && !clause.ReportAttempt?
    ensures Frame(db, UpdateAttempts(db, hits, clause))
  {
    AttemptsKeepChain(db, hits, clause);
    SameChainFrames(db, UpdateAttempts(db, hits, clause));
  }

  lemma TasksFrame(db: Db, hits: set<TaskId>, clause: SetTask)
    requires Refs(db)
    ensures Frame(db, UpdateTasks(db, hits, clause))
  {
    TasksKeepChain(db, hits, clause);
    SameChainFrames(db, UpdateTasks(db, hits, clause));
  }

  lemma PromptsFrame(db: Db, hits: set<PromptId>, clause: SetPrompt)
    requires Refs(db)
    ensures Frame(db, UpdatePrompts(db, hits, clause))
  {
    PromptsKeepChain(db, hits, clause);
    SameChainFrames(db, UpdatePrompts(db, hits, clause));
  }

  lemma SessionsFrame(db: Db, hits: set<SessionId>, clause: SetSession)
    requires Refs(db)
    ensures Frame(db, UpdateSessions(db, hits, clause))
  {
    SessionsKeepChain(db, hits, clause);
    SameChainFrames(db, UpdateSessions(db, hits, clause));
  }

  lemma InsertFrames(db: Db, ids: Ids, session: Session, timeout: int, now: Time)
    requires Refs(db) && session.task in db.tasks && InsertChain(db, ids, session, timeout, now).Committed?
    ensures Frame(db, InsertChain(db, ids, session, timeout, now).db)
  {
    InsertChainFacts(db, ids, session, timeout, now);
  }

  // ---------------------------------------------------------------- transactions

  lemma SubmitFrames(db: Db, t: TaskId, ids: Ids, session: Session, timeout: int, maxAttempts: int, now: Time)
    requires Refs(db) && t !in db.tasks && session.task == t
    requires var db1 := db.(tasks := db.tasks[t := Task(TaskStatus.Pending, None, maxAttempts)]);
      InsertChain(db1, ids, session, timeout, now).Committed?
    ensures var db1 := db.(tasks := db.tasks[t := Task(TaskStatus.Pending, None, maxAttempts)]);
      Frame(db, InsertChain(db1, ids, session, timeout, now).db)
  {
    var db1 := db.(tasks := db.tasks[t := Task(TaskStatus.Pending, None, maxAttempts)]);
    NewTaskKeepsRefs(db, t, db1);
    InsertFrames(db1, ids, session, timeout, now);
    FrameTransitive(db, db1, InsertChain(db1, ids, session, timeout, now).db);
  }

  lemma NewTaskKeepsRefs(db: Db, t: TaskId, db1: Db)
    requires Refs(db) && db1.attempts == db.attempts && db1.prompts == db.prompts && db1.sessions == db.sessions
    requires db1.tasks.Keys == db.tasks.Keys + {t}
    ensures Frame(db, db1)
  {
    forall p | p in db1.prompts ensures PromptRefs(db1, p) {
      assert PromptRefs(db, p);
    }
  }

  lemma RecoverFrames(db: Db, t: TaskId, ids: Ids, timeout: int, now: Time)
    requires Refs(db) && RecoverTx(db, t, ids, timeout, now).Committed?
    ensures Frame(db, RecoverTx(db, t, ids, timeout, now).db)
  {
    var db1 := UpdateTasks(db, ReopenableTaskRow(db, t), RequeueTask);
    TasksFrame(db, ReopenableTaskRow(db, t), RequeueTask);
    var s, p := LatestSession(db, t).value, LatestPrompt(db, t).value;
    var before := db.sessions[s];
    var expires := if before.mode.NotResumable? then None else Some(now + 72 * 3600);
    var session := NewSession(t, NextSessionNumber(db, t), before.mode, before.isolated, expires, now);
    InsertFrames(db1, ids, session, LastTimeout(db, p, timeout), now);
    FrameTransitive(db, db1, RecoverTx(db, t, ids, timeout, now).db);
  }

  lemma ResumeFrames(db: Db, s: SessionId, t: TaskId, r: RunnerId, p: PromptId, i: AttemptId, timeout: int, now: Time)
    requires Refs(db) && s in db.sessions && db.sessions[s].task == t && ResumeTx(db, s, t, r, p, i, timeout, now).Committed?
    ensures Frame(db, ResumeTx(db, s, t, r, p, i, timeout, now).db)
  {
    var db1 := UpdateTasks(db, ReopenableTaskRow(db, t), RequeueTask);
    TasksFrame(db, ReopenableTaskRow(db, t), RequeueTask);
    var prompt, row := Prompt(t, s, NextPromptNumber(db, s), PromptStatus.Pending, false), NewAttempt(p, Only(r), timeout, now);
    var db2 := db1.(prompts := db1.prompts[p := prompt], attempts := db1.attempts[i := row]);
    InsertPromptFacts(db1, p, i, prompt, row);
    FrameTransitive(db, db1, db2);
    SessionsFrame(db2, ParkedSession(db2, s), SetSessionStatus(SessionStatus.Resuming, now));
    FrameTransitive(db, db2, ResumeTx(db, s, t, r, p, i, timeout, now).db);
  }

  lemma GiveUpFrames(db: Db, i: AttemptId, t: TaskId, p: PromptId, s: SessionId, now: Time)
    requires Refs(db)
    ensures Frame(db, GiveUp(db, i, t, p, s, now)) && GiveUp(db, i, t, p, s, now).tasks.Keys == db.tasks.Keys
  {
    var db1 := UpdateAttempts(db, RunningAttempt(db, i), LoseAttempt(now));
    var db2 := UpdateTasks(db1, RunningTaskRow(db1, t), RequeueTask);
    var db3 := UpdatePrompts(db2, UnfinishedPrompt(db2, p), SetPromptStatus(PromptStatus.Failed));
    AttemptsFrame(db, RunningAttempt(db, i), LoseAttempt(now));
    TasksFrame(db1, RunningTaskRow(db1, t), RequeueTask);
    FrameTransitive(db, db1, db2);
    PromptsFrame(db2, UnfinishedPrompt(db2, p), SetPromptStatus(PromptStatus.Failed));
    FrameTransitive(db, db2, db3);
    SessionsFrame(db3, OpenSession(db3, s), SetSessionStatus(SessionStatus.Abandoned, now));
    FrameTransitive(db, db3, GiveUp(db, i, t, p, s, now));
  }

  lemma ReclaimFrames(db: Db, i: AttemptId, ids: Ids, now: Time)
    requires Refs(db) && ReclaimOne(db, i, ids, now).Committed?
    ensures Frame(db, ReclaimOne(db, i, ids, now).db)
  {
    if !Spared(db, i) {
      var t := db.prompts[db.attempts[i].prompt].task;
      var s, p := LatestSession(db, t).value, LatestPrompt(db, t).value;
      var before, db4 := db.sessions[s], GiveUp(db, i, t, p, s, now);
      GiveUpFrames(db, i, t, p, s, now);
      assert PromptRefs(db, db.attempts[i].prompt);
      var session := NewSession(t, NextSessionNumber(db, t), before.mode, before.isolated, before.expires, now);
      InsertFrames(db4, ids, session, db.attempts[i].timeout, now);
      FrameTransitive(db, db4, ReclaimOne(db, i, ids, now).db);
    }
  }

  lemma {:induction false} ReclaimAllFrames(db: Db, order: seq<AttemptId>, drawn: seq<Ids>, now: Time)
    requires Refs(db) && |order| == |drawn| && ReclaimAll(db, order, drawn, now).Committed?
    ensures Frame(db, ReclaimAll(db, order, drawn, now).db)
    decreases |order|
  {
    if order != [] {
      var db1 := ReclaimOne(db, order[0], drawn[0], now).db;
      ReclaimFrames(db, order[0], drawn[0], now);
      ReclaimAllFrames(db1, order[1..], drawn[1..], now);
      FrameTransitive(db, db1, ReclaimAll(db, order, drawn, now).db);
    }
  }

  /** A reaper fails attempts and then tasks. */
  lemma FailuresFrame(db: Db, hits: set<AttemptId>, reason: Category, now: Time, row: set<TaskId>, clause: SetTask)
    requires Refs(db)
    ensures Frame(db, UpdateTasks(UpdateAttempts(db, hits, FailAttempt(reason, now)), row, clause))
  {
    var db1 := UpdateAttempts(db, hits, FailAttempt(reason, now));
    AttemptsFrame(db, hits, FailAttempt(reason, now));
    TasksFrame(db1, row, clause);
    FrameTransitive(db, db1, UpdateTasks(db1, row, clause));
  }

  lemma CancelsFrame(db: Db, hits: set<AttemptId>, now: Time, row: set<TaskId>)
    requires Refs(db)
    ensures Frame(db, UpdateTasks(UpdateAttempts(db, hits, CancelAttempt(now)), row, CancelTask))
  {
    var db1 := UpdateAttempts(db, hits, CancelAttempt(now));
    AttemptsFrame(db, hits, CancelAttempt(now));
    TasksFrame(db1, row, CancelTask);
    FrameTransitive(db, db1, UpdateTasks(db1, row, CancelTask));
  }

  lemma ReapLeasesFrames(db: Db, auto: bool, order: seq<AttemptId>, drawn: seq<Ids>, now: Time)
    requires Refs(db) && |order| == |drawn| && ReapLeasesTx(db, auto, order, drawn, now).Committed?
    ensures Frame(db, ReapLeasesTx(db, auto, order, drawn, now).db)
  {
    var db1 := if auto then ReclaimAll(db, order, drawn, now).db else db;
    if auto {
      ReclaimAllFrames(db, order, drawn, now);
    } else {
      SameChainFrames(db, db);
    }
    var hits := if auto then ExhaustedAttempts(db1, now) else ExpiredAttempts(db1, now);
    FailuresFrame(db1, hits, Timeout, now, TasksWithExpiredLease(UpdateAttempts(db1, hits, FailAttempt(Timeout, now)), now), FailTask(Timeout));
    FrameTransitive(db, db1, FailExpired(db1, auto, now));
  }

  lemma PinnedFrames(db: Db, now: Time, clock: Time)
    requires Refs(db)
    ensures Frame(db, ReapPinnedTx(db, now, clock))
  {
    var hits := AttemptsMissingRunner(db, clock);
    var db1 := UpdateAttempts(db, hits, FailAttempt(RunnerUnavailable, now));
    var row := PendingTasksFailedFor(db1, RunnerUnavailable);
    var db2 := UpdateTasks(db1, row, FailTask(RunnerUnavailable));
    FailuresFrame(db, hits, RunnerUnavailable, now, row, FailTask(RunnerUnavailable));
    PromptsFrame(db2, PromptsOfUnavailable(db2), SetPromptStatus(PromptStatus.Failed));
    var db3 := UpdatePrompts(db2, PromptsOfUnavailable(db2), SetPromptStatus(PromptStatus.Failed));
    FrameTransitive(db, db2, db3);
    SessionsFrame(db3, SessionsOfUnavailable(db3), SetSessionStatus(SessionStatus.Error, now));
    FrameTransitive(db, db3, ReapPinnedTx(db, now, clock));
  }

  lemma ReapersFrame(db: Db, now: Time, clock: Time)
    requires Refs(db)
    ensures Frame(db, ReapIsolationTx(db, now, clock)) && Frame(db, ReapOverrunTx(db, now, clock)) && Frame(db, ClearQueueTx(db, now))
  {
    var isolation, overrun, pending := AttemptsWithoutIsolation(db, clock), OverrunAttempts(db, clock), PendingAttempts(db);
    var db1 := UpdateAttempts(db, isolation, FailAttempt(IsolationUnavailable, now));
    FailuresFrame(db, isolation, IsolationUnavailable, now, PendingTasksFailedFor(db1, IsolationUnavailable), FailTask(IsolationUnavailable));
    FailuresFrame(db, overrun, Timeout, now, TasksOfOverrun(UpdateAttempts(db, overrun, FailAttempt(Timeout, now)), now), FailTask(Timeout));
    CancelsFrame(db, pending, now, PendingTasks(UpdateAttempts(db, pending, CancelAttempt(now))));
  }

  lemma ClaimFrames(db: Db, i: AttemptId, r: RunnerId, c: ClaimId, lease: Time, now: Time)
    requires Refs(db) && i in db.attempts && db.attempts[i].prompt in db.prompts && db.prompts[db.attempts[i].prompt].task in db.tasks
    requires ClaimTx(db, i, r, c, lease, now).Committed?
    ensures Frame(db, ClaimTx(db, i, r, c, lease, now).db)
  {
    var t := db.prompts[db.attempts[i].prompt].task;
    var clause := ClaimAttempt(r, c, now + lease, now);
    var db1 := UpdateAttempts(db, PendingAttempt(db, i), clause);
    var db2 := UpdateTasks(db1, PendingTaskRow(db1, t), RunTask);
    AttemptsFrame(db, PendingAttempt(db, i), clause);
    TasksFrame(db1, PendingTaskRow(db1, t), RunTask);
    FrameTransitive(db, db1, db2);
    PromptsFrame(db2, LatestQueuedPrompt(db2, t), SetPromptStatus(PromptStatus.Running));
    FrameTransitive(db, db2, ClaimTx(db, i, r, c, lease, now).db);
  }

  // --------------------------------------------------------------------- events

  /** The rows after the attempt's own: none of them carries usage. */
  lemma AfterReportFrames(db: Db, e: Event, ended: (PromptStatus, SessionStatus), checkpoint: CheckpointId, now: Time)
    requires Refs(db) && EndPromptAndSession(db, e, ended, checkpoint, now).Committed?
    ensures Frame(db, EndPromptAndSession(db, e, ended, checkpoint, now).db)
  {
    var db1 := UpdatePrompts(db, LatestPromptRow(db, e.task), EndPrompt(ended.0, e.transcript));
    PromptsFrame(db, LatestPromptRow(db, e.task), EndPrompt(ended.0, e.transcript));
    var latest := LatestSession(db1, e.task);
    if latest.Some? {
      var end := SessionEnd(db1.sessions[latest.value].mode, e, ended.1, now);
      var db2 := if end.ParkSession? && end.checkpointed then db1.(checkpoints := db1.checkpoints[checkpoint := Checkpoint(latest.value, true)]) else db1;
      SameChainFrames(db1, db2);
      FrameTransitive(db, db1, db2);
      SessionsFrame(db2, LatestOpenSession(db2, e.task), end);
      FrameTransitive(db, db2, EndPromptAndSession(db, e, ended, checkpoint, now).db);
    }
  }

  function Gain(usage: Usage, counts: bool, delta: Usage): Usage {
    if counts then Plus(usage, delta) else usage
  }

  /** The attempt's own row takes the delta. */
  lemma ReportGrows(db: Db, e: Event, now: Time, clock: Time)
    requires Refs(db) && Accepted(db, e, clock)
    ensures Grows(db, AfterReport(db, e, now, clock))
    ensures e.attempt in db.attempts
    ensures forall i :: i in db.attempts ==>
      AfterReport(db, e, now, clock).attempts[i].usage == Gain(db.attempts[i].usage, i == e.attempt, e.usage)
  {
    var db1 := UpdateAttempts(db, ReportableAttempt(db, e, clock), ReportAttempt(e, now));
    AttemptsThenTasks(db, ReportableAttempt(db, e, clock), ReportAttempt(e, now), ReportableTaskRow(db1, e.task, EventStatus(e)),
                      ReportTask(EventStatus(e), e.category));
    SameChainFacts(db, AfterReport(db, e, now, clock));
    assert e.attempt in ReportableAttempt(db, e, clock);
  }

  /** One row gains a delta. */
  lemma RowGains(rows: Attempts, rows': Attempts, ids: set<AttemptId>, i: AttemptId, delta: Usage)
    requires ids <= rows.Keys && ids <= rows'.Keys && i in ids
    requires rows'[i].usage == Plus(rows[i].usage, delta)
    requires forall k :: k in ids && k != i ==> rows'[k].usage == rows[k].usage
    ensures Total(rows', ids) == Plus(Total(rows, ids), delta)
  {
    TotalPick(rows, ids, i);
    TotalPick(rows', ids, i);
    TotalSame(rows, rows', ids - {i});
  }

  lemma TotalGains(db: Db, db': Db, t: TaskId, i: AttemptId, delta: Usage)
    requires Refs(db) && Grows(db, db') && i in db.attempts
    requires forall k :: k in db.attempts ==> db'.attempts[k].usage == Gain(db.attempts[k].usage, k == i, delta)
    ensures TaskUsage(db', t) == Gain(TaskUsage(db, t), Owns(db, t, i), delta)
  {
    GrowsKeepsOwners(db, db', t);
    var ids := AttemptsOf(db, t);
    TotalExtend(db'.attempts, ids, AttemptsOf(db', t));
    if i in ids {
      RowGains(db.attempts, db'.attempts, ids, i, delta);
    } else {
      TotalSame(db.attempts, db'.attempts, ids);
    }
  }

  /** An accepted event adds its delta to its own task and to no other. */
  lemma EventCounts(db: Db, e: Event, checkpoint: CheckpointId, now: Time, clock: Time, t: TaskId)
    requires Refs(db) && RecordEventTx(db, e, checkpoint, now, clock).Committed?
    ensures var db' := RecordEventTx(db, e, checkpoint, now, clock).db;
      Refs(db') && TaskUsage(db', t) == Gain(TaskUsage(db, t), e.task == t, e.usage)
  {
    var db1 := AfterReport(db, e, now, clock);
    ReportGrows(db, e, now, clock);
    TotalGains(db, db1, t, e.attempt, e.usage);
    assert Owns(db, e.task, e.attempt);
    var db2 := UpdateSessions(db1, LatestOpenSession(db1, e.task), TouchSession(e.harness, now));
    SessionsFrame(db1, LatestOpenSession(db1, e.task), TouchSession(e.harness, now));
    FrameKeepsUsage(db1, db2, t);
    var ended := EndOf(EventStatus(e));
    if ended.Some? {
      AfterReportFrames(db2, e, ended.value, checkpoint, now);
      FrameKeepsUsage(db2, RecordEventTx(db, e, checkpoint, now, clock).db, t);
    }
  }

  // ----------------------------------------------------------------------- runs

  lemma StatementsFrame(db: Db, i: AttemptId, t: TaskId, r: RunnerId, c: ClaimId, seconds: int, ttl: int, now: Time)
    requires Refs(db)
    ensures Frame(db, RenewStmt(db, i, r, c, now)) && Frame(db, ExtendStmt(db, t, seconds)) && Frame(db, CollectAttemptsStmt(db, now, ttl))
  {
    AttemptsFrame(db, RenewableAttempt(db, i, r, c), RenewAttempt(now + TASK_LEASE));
    AttemptsFrame(db, ActiveAttemptsOf(db, t), ExtendAttempt(seconds));
    AttemptsFrame(db, CollectableAttempts(db, now, ttl), DropAttemptExport);
  }

  lemma AttemptUpkeepFrames(db: Db, step: Step)
    requires Refs(db) && Enabled(db, step) && (step.Renew? || step.Extend? || step.CollectAttempts?)
    ensures Frame(db, Apply(db, step).db)
  {
    match step
    case Renew(i, r, c, now) => StatementsFrame(db, i, 0, r, c, 0, 0, now);
    case Extend(t, seconds) => StatementsFrame(db, 0, t, 0, 0, seconds, 0, 0);
    case CollectAttempts(clock, ttl) => StatementsFrame(db, 0, 0, 0, 0, 0, ttl, clock);
  }

  lemma PromptUpkeepFrames(db: Db, step: Step)
    requires Refs(db) && Enabled(db, step) && (step.ReapPrompts? || step.RevertPrompts? || step.CollectPrompts?)
    ensures Frame(db, Apply(db, step).db)
  {
    match step
    case ReapPrompts => PromptsFrame(db, RunningPromptsOfReopenable(db), FollowTask(db.tasks));
    case RevertPrompts => PromptsFrame(db, RunningPromptsOfPending(db), SetPromptStatus(PromptStatus.Pending));
    case CollectPrompts(clock, ttl) => PromptsFrame(db, CollectablePrompts(db, clock, ttl), DropPromptExport);
  }

  lemma OtherUpkeepFrames(db: Db, step: Step)
    requires Refs(db) && Enabled(db, step)
    requires step.ExpireSessions? || step.ReapSessions? || step.CollectCheckpoints? || step.Heartbeat?
    ensures Frame(db, Apply(db, step).db)
  {
    match step
    case ExpireSessions(now) => SessionsFrame(db, ExpirableSessions(db, now), SetSessionStatus(SessionStatus.Expired, now));
    case ReapSessions(now) => SessionsFrame(db, SessionsOfEnded(db), FollowTaskStatus(db.tasks, now));
    case CollectCheckpoints(clock, ttl) => SameChainFrames(db, CollectCheckpointsStmt(db, clock, ttl));
    case Heartbeat(r, row) => SameChainFrames(db, db.(runners := db.runners[r := row]));
  }

  lemma ReaperStepFrames(db: Db, step: Step)
    requires Refs(db) && Enabled(db, step) && Apply(db, step).Committed?
    requires step.ReapLeases? || step.ReapPinned? || step.ReapIsolation? || step.ReapOverrun? || step.ClearQueue? || step.Cancel?
    ensures Frame(db, Apply(db, step).db)
  {
    match step
    case ReapLeases(auto, order, drawn, now) => ReapLeasesFrames(db, auto, order, drawn, now);
    case ReapPinned(now, clock) => PinnedFrames(db, now, clock);
    case ReapIsolation(now, clock) => ReapersFrame(db, now, clock);
    case ReapOverrun(now, clock) => ReapersFrame(db, now, clock);
    case ClearQueue(now) => ReapersFrame(db, now, 0);
    case Cancel(t, now) =>
      CancelsFrame(db, ActiveAttemptsOf(db, t), now, ActiveTaskRow(UpdateAttempts(db, ActiveAttemptsOf(db, t), CancelAttempt(now)), t));
  }

  lemma QueueStepFrames(db: Db, step: Step)
    requires Refs(db) && Enabled(db, step) && Apply(db, step).Committed?
    requires step.Submit? || step.Claim? || step.Recover? || step.Resume?
    ensures Frame(db, Apply(db, step).db)
  {
    match step
    case Submit(t, ids, mode, isolated, expires, timeout, maxAttempts, now) =>
      SubmitFrames(db, t, ids, NewSession(t, 1, mode, isolated, expires, now), timeout, maxAttempts, now);
    case Claim(i, r, capable, locked, c, lease, now) => ClaimFrames(db, i, r, c, lease, now);
    case Recover(t, ids, timeout, now) => RecoverFrames(db, t, ids, timeout, now);
    case Resume(s, t, r, p, i, timeout, now) => ResumeFrames(db, s, t, r, p, i, timeout, now);
  }

  /** What a step adds to the usage of task t: the delta of an accepted event. */
  ghost function Delta(db: Db, step: Step, t: TaskId): Usage
    requires Enabled(db, step)
  {
    if step.Report? && step.event.task == t && Apply(db, step).Committed? then step.event.usage else NoUsage
  }

  lemma QuietStepCounts(db: Db, step: Step, t: TaskId)
    requires Refs(db) && Enabled(db, step) && Apply(db, step).Committed? && !step.Report?
    ensures Refs(Apply(db, step).db) && TaskUsage(Apply(db, step).db, t) == TaskUsage(db, t) && Delta(db, step, t) == NoUsage
  {
    StepFrames(db, step);
    FrameKeepsUsage(db, Apply(db, step).db, t);
  }

  lemma EventStepCounts(db: Db, step: Step, t: TaskId)
    requires Refs(db) && Enabled(db, step) && Apply(db, step).Committed? && step.Report?
    ensures Refs(Apply(db, step).db) && TaskUsage(Apply(db, step).db, t) == Plus(TaskUsage(db, t), Delta(db, step, t))
  {
    EventCounts(db, step.event, step.checkpoint, step.now, step.clock, t);
    PlusLaws(TaskUsage(db, t), NoUsage, NoUsage);
  }

  lemma StepCounts(db: Db, step: Step, t: TaskId)
    requires Refs(db) && Enabled(db, step)
    ensures Refs(Next(db, step)) && TaskUsage(Next(db, step), t) == Plus(TaskUsage(db, t), Delta(db, step, t))
  {
    PlusLaws(TaskUsage(db, t), NoUsage, NoUsage);
    var outcome := Apply(db, step);
    if outcome.Committed? {
      if step.Report? {
        EventStepCounts(db, step, t);
      } else {
        QuietStepCounts(db, step, t);
      }
    } else {
      assert Delta(db, step, t) == NoUsage;
    }
  }

  lemma StepFrames(db: Db, step: Step)
    requires Refs(db) && Enabled(db, step) && Apply(db, step).Committed? && !step.Report?
    ensures Frame(db, Apply(db, step).db)
  {
    if step.Submit? || step.Claim? || step.Recover? || step.Resume? {
      QueueStepFrames(db, step);
    } else if step.ReapLeases? || step.ReapPinned? || step.ReapIsolation? || step.ReapOverrun? || step.ClearQueue? || step.Cancel? {
      ReaperStepFrames(db, step);
    } else if step.ExpireSessions? || step.ReapSessions? || step.CollectCheckpoints? || step.Heartbeat? {
      OtherUpkeepFrames(db, step);
    } else if step.ReapPrompts? || step.RevertPrompts? || step.CollectPrompts? {
      PromptUpkeepFrames(db, step);
    } else {
      AttemptUpkeepFrames(db, step);
    }
  }

  /** The deltas of the events accepted for task t along a run. */
  ghost function Deltas(db: Db, steps: seq<Step>, last: Db, t: TaskId): Usage
    requires Run(db, steps, last)
    decreases |steps|
  {
    if steps == [] then NoUsage
    else Plus(Delta(db, steps[0], t), Deltas(Next(db, steps[0]), steps[1..], last, t))
  }

  /** After any run the totals reported for a task are what they were plus the
      deltas of exactly the events accepted for it, over all its attempts, lost
      ones included; an event that the fences reject adds nothing. */
  lemma {:induction false} UsageIsConserved(db: Db, steps: seq<Step>, last: Db, t: TaskId)
    requires Refs(db) && Run(db, steps, last)
    ensures Refs(last) && TaskUsage(last, t) == Plus(TaskUsage(db, t), Deltas(db, steps, last, t))
    decreases |steps|
  {
    if steps == [] {
      PlusLaws(TaskUsage(db, t), NoUsage, NoUsage);
    } else {
      var db1, step, rest := Next(db, steps[0]), steps[0], steps[1..];
      StepCounts(db, step, t);
      UsageIsConserved(db1, rest, last, t);
      PlusLaws(TaskUsage(db, t), Delta(db, step, t), Deltas(db1, rest, last, t));
    }
  }

  /** An accepted terminal event counts once: at no later time is another event of
      the same attempt accepted, the same one replayed included. */
  lemma TerminalEventCountsOnce(db: Db, step: Step, after: seq<Step>, last: Db, again: Step)
    requires step.Report? && Enabled(db, step) && Apply(db, step).Committed? && EndOf(EventStatus(step.event)).Some?
    requires Run(Next(db, step), after, last) && again.Report? && again.event.attempt == step.event.attempt && Enabled(last, again)
    ensures Next(last, again) == last && Delta(last, again, again.event.task) == NoUsage
  {
    var db1 := Next(db, step);
    TerminalEventFinishes(db, step.event, step.checkpoint, step.now, step.clock);
    FinishedAttemptIsFenced(db1, after, last, step.event.attempt, again.event, again.checkpoint, again.now, again.clock);
  }

  lemma TerminalEventFinishes(db: Db, e: Event, checkpoint: CheckpointId, now: Time, clock: Time)
    requires RecordEventTx(db, e, checkpoint, now, clock).Committed? && EndOf(EventStatus(e)).Some?
    ensures var db' := RecordEventTx(db, e, checkpoint, now, clock).db;
      e.attempt in db'.attempts && Finished(db'.attempts[e.attempt])
  {
    ReportRows(db, e, checkpoint, now, clock);
    assert e.attempt in ReportableAttempt(db, e, clock);
    TerminalReportFinishes(e, now, db.attempts[e.attempt]);
  }

  lemma TerminalReportFinishes(e: Event, now: Time, a: Attempt)
    requires EndOf(EventStatus(e)).Some?
    ensures Finished(WithAttempt(ReportAttempt(e, now), a))
  {
  }

  /** An accepted event that is sent again right away is accepted, and so counted,
      again exactly when it reports running and the lease it renewed is live: nothing
      but that lease fences a duplicate. */
  lemma ReplayIsAcceptedIff(db: Db, e: Event, checkpoint: CheckpointId, now: Time, clock: Time, later: Time)
    requires RecordEventTx(db, e, checkpoint, now, clock).Committed?
    ensures Accepted(RecordEventTx(db, e, checkpoint, now, clock).db, e, later) <==>
            EventStatus(e).Running? && later < now + TASK_LEASE
  {
    var db' := RecordEventTx(db, e, checkpoint, now, clock).db;
    ReportRows(db, e, checkpoint, now, clock);
    assert e.attempt in ReportableAttempt(db, e, clock);
    assert db'.attempts[e.attempt] == WithAttempt(ReportAttempt(e, now), db.attempts[e.attempt]);
    if EventStatus(e).Running? {
      var db1 := AfterReport(db, e, now, clock);
      RunningReport(db, e, checkpoint, now, clock, db1, db');
      assert e.attempt in ReportableAttempt(db', e, later) <==> later < now + TASK_LEASE;
    } else {
      assert e.attempt !in ReportableAttempt(db', e, later);
    }
  }

  /** After a running event the chain and the task are as the event found them. */
  lemma RunningReport(db: Db, e: Event, checkpoint: CheckpointId, now: Time, clock: Time, db1: Db, db': Db)
    requires Accepted(db, e, clock) && EventStatus(e).Running? && db1 == AfterReport(db, e, now, clock)
    requires RecordEventTx(db, e, checkpoint, now, clock) == Committed(db')
    ensures OwnedAsReported(db', e) && ReportableTaskRow(db', e.task, EventStatus(e)) == {e.task}
  {
    assert db' == UpdateSessions(db1, LatestOpenSession(db1, e.task), TouchSession(e.harness, now));
    assert e.task in ReportableTaskRow(db, e.task, EventStatus(e));
    assert db1.tasks[e.task].status.Running?;
  }
}
