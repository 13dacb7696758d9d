/** The transactions that compose the guarded statements: internal/service/{service,
    api,runner_rpc}.go and internal/store/store.go. now is the caller's clock and
    clock the database's. */
module Transactions {
  import opened Basics
  import opened Tables

  datatype Outcome = Committed(db: Db) | RolledBack

  /** The ids drawn for a new session, its prompt and its attempt; a collision
      makes the insert fail. */
  datatype Ids = Ids(session: SessionId, prompt: PromptId, attempt: AttemptId)

  function NewAttempt(p: PromptId, required: Required, timeout: int, now: Time): Attempt {
    Attempt(p, AttemptStatus.Pending, required, None, None, None, None, None, None, timeout, now, NoUsage, false)
  }

  function NewSession(t: TaskId, number: int, mode: Mode, isolated: bool, expires: Option<Time>, now: Time): Session {
    Session(t, number, SessionStatus.Running, mode, isolated, None, expires, now, false, false, false)
  }

  /** InsertAgentSession, InsertUserPrompt and InsertPendingExecutionAttempt. */
  function InsertChain(db: Db, ids: Ids, session: Session, timeout: int, now: Time): Outcome {
    if ids.session in db.sessions || ids.prompt in db.prompts || ids.attempt in db.attempts then RolledBack
    else Committed(db.(
      sessions := db.sessions[ids.session := session],
      prompts := db.prompts[ids.prompt := Prompt(session.task, ids.session, 1, PromptStatus.Pending, false)],
      attempts := db.attempts[ids.attempt := NewAttempt(ids.prompt, Anyone, timeout, now)]))
  }

  /** GetNextAgentSessionSequence. */
  ghost function NextSessionNumber(db: Db, t: TaskId): int {
    match LatestSession(db, t)
    case None => 1
    case Some(s) => db.sessions[s].number + 1
  }

  function PromptRanksIn(db: Db, s: SessionId): map<nat, Rank> {
    map p | p in db.prompts && db.prompts[p].session == s :: (db.prompts[p].number, 0, p)
  }

  /** GetNextUserPromptSequence. */
  ghost function NextPromptNumber(db: Db, s: SessionId): int {
    match Last(PromptRanksIn(db, s))
    case None => 1
    case Some(p) => db.prompts[p].number + 1
  }

  // -------------------------------------------------------------------- submit

  /** SubmitTask and RerunTask. */
  function SubmitTx(db: Db, t: TaskId, ids: Ids, mode: Mode, isolated: bool, expires: Option<Time>,
                    timeout: int, maxAttempts: int, now: Time): Outcome
  {
    if t in db.tasks then RolledBack
    else InsertChain(db.(tasks := db.tasks[t := Task(TaskStatus.Pending, None, maxAttempts)]),
                     ids, NewSession(t, 1, mode, isolated, expires, now), timeout, now)
  }

  // --------------------------------------------------------------------- claim

  /** claimOnce for the attempt its locking select returned. */
  ghost function ClaimTx(db: Db, i: AttemptId, r: RunnerId, c: ClaimId, lease: Time, now: Time): Outcome
    requires i in db.attempts && db.attempts[i].prompt in db.prompts
    requires db.prompts[db.attempts[i].prompt].task in db.tasks
  {
    var p := db.prompts[db.attempts[i].prompt];
    if |AttemptsOf(db, p.task)| > db.tasks[p.task].maxAttempts then RolledBack
    else if p.session !in db.sessions then RolledBack
    else
      var db1 := UpdateAttempts(db, PendingAttempt(db, i), ClaimAttempt(r, c, now + lease, now));
      var db2 := UpdateTasks(db1, PendingTaskRow(db1, p.task), RunTask);
      Committed(UpdatePrompts(db2, LatestQueuedPrompt(db2, p.task), SetPromptStatus(PromptStatus.Running)))
  }

  // -------------------------------------------------------------- runner events

  /** sessionTerminalStatuses. */
  function EndOf(status: TaskStatus): (end: Option<(PromptStatus, SessionStatus)>)
    ensures end.Some? ==> end.value.1.Completed? || end.value.1.Error?
  {
    match status
    case Done => Some((PromptStatus.Completed, SessionStatus.Completed))
    case Completed => Some((PromptStatus.Completed, SessionStatus.Completed))
    case Error => Some((PromptStatus.Failed, SessionStatus.Error))
    case Cancelled => Some((PromptStatus.Cancelled, SessionStatus.Error))
    case _ => None
  }

  /** isRecoverablePromptError. */
  predicate RecoverableError(category: Option<Category>) {
    category == Some(Timeout) || category == Some(TransportError)
  }

  /** How the latest session of a task ends with its prompt: parked for a later
      resume, or finished. */
  function SessionEnd(mode: Mode, e: Event, ended: SessionStatus, now: Time): SetSession {
    if e.workspace && ended.Error? && RecoverableError(e.category) && mode.HarnessSession? && e.harness
    then ParkSession(SessionStatus.Recoverable, e.runner, false, e.harness, now)
    else if e.workspace && ended.Completed? && !mode.NotResumable?
    then ParkSession(SessionStatus.Paused, e.runner, mode.GvisorCheckpoint? && e.checkpoint, e.harness, now)
    else EndSession(ended, e.harness, now)
  }

  ghost function EndPromptAndSession(db: Db, e: Event, ended: (PromptStatus, SessionStatus), checkpoint: CheckpointId, now: Time): Outcome {
    var db1 := UpdatePrompts(db, LatestPromptRow(db, e.task), EndPrompt(ended.0, e.transcript));
    match LatestSession(db1, e.task)
    case None => Committed(db1)
    case Some(s) =>
      var end := SessionEnd(db1.sessions[s].mode, e, ended.1, now);
      var stores := end.ParkSession? && end.checkpointed;
      if stores && checkpoint in db1.checkpoints then RolledBack
      else
        var db2 := if stores then db1.(checkpoints := db1.checkpoints[checkpoint := Checkpoint(s, true)]) else db1;
        Committed(UpdateSessions(db2, LatestOpenSession(db2, e.task), end))
  }

  /** GetExecutionAttemptContext names the chain the event names. */
  predicate OwnedAsReported(db: Db, e: Event) {
    Owns(db, e.task, e.attempt) && db.attempts[e.attempt].prompt == e.prompt && db.prompts[e.prompt].session == e.session
  }

  predicate Accepted(db: Db, e: Event, clock: Time) {
    OwnedAsReported(db, e) && ReportableAttempt(db, e, clock) != {} && ReportableTaskRow(db, e.task, EventStatus(e)) != {}
  }

  /** The attempt and the task as an accepted event leaves them. */
  function AfterReport(db: Db, e: Event, now: Time, clock: Time): Db {
    var db1 := UpdateAttempts(db, ReportableAttempt(db, e, clock), ReportAttempt(e, now));
    UpdateTasks(db1, ReportableTaskRow(db1, e.task, EventStatus(e)), ReportTask(EventStatus(e), e.category))
  }

  /** recordTaskEvent. */
  ghost function RecordEventTx(db: Db, e: Event, checkpoint: CheckpointId, now: Time, clock: Time): Outcome {
    if !Accepted(db, e, clock) then RolledBack
    else
      var db1 := AfterReport(db, e, now, clock);
      var db2 := UpdateSessions(db1, LatestOpenSession(db1, e.task), TouchSession(e.harness, now));
      match EndOf(EventStatus(e))
      case None => Committed(db2)
      case Some(ended) => EndPromptAndSession(db2, e, ended, checkpoint, now)
  }

  // ------------------------------------------------------------- lease reclaim

  /** runnerIsDeliberatelyDrained. */
  predicate DeliberatelyDrained(db: Db, r: Option<RunnerId>) {
    r.Some? && r.value in db.runners && (db.runners[r.value].status.Draining? || db.runners[r.value].status.Stopping?)
  }

  /** The rows of ListReclaimableExecutionAttemptsForUpdate. */
  function Candidates(db: Db, now: Time): set<AttemptId> {
    set i | i in ExpiredAttempts(db, now) && db.attempts[i].prompt in db.prompts && db.prompts[db.attempts[i].prompt].task in db.tasks
  }

  /** A result of the listing: the candidates in the order of their leases. */
  ghost predicate IsListing(db: Db, now: Time, order: seq<AttemptId>) {
    && (forall k, l :: 0 <= k < l < |order| ==> order[k] != order[l])
    && (forall i :: i in Candidates(db, now) <==> i in order)
    && (forall k, l :: 0 <= k < l < |order| ==>
          order[k] in db.attempts && order[l] in db.attempts && LeaseOf(db, order[k]) <= LeaseOf(db, order[l]))
  }

  function LeaseOf(db: Db, i: AttemptId): Time
    requires i in db.attempts
  {
    if db.attempts[i].lease.Some? then db.attempts[i].lease.value else 0
  }

  predicate Spared(db: Db, i: AttemptId)
    requires i in db.attempts
  {
    Exhausted(db, i) || DeliberatelyDrained(db, db.attempts[i].runner)
  }

  /** The tables of a reclaim before its inserts: attempt i lost, task t pending,
      a prompt and a session abandoned. */
  function GiveUp(db: Db, i: AttemptId, t: TaskId, p: PromptId, s: SessionId, now: Time): Db {
    var db1 := UpdateAttempts(db, RunningAttempt(db, i), LoseAttempt(now));
    var db2 := UpdateTasks(db1, RunningTaskRow(db1, t), RequeueTask);
    var db3 := UpdatePrompts(db2, UnfinishedPrompt(db2, p), SetPromptStatus(PromptStatus.Failed));
    UpdateSessions(db3, OpenSession(db3, s), SetSessionStatus(SessionStatus.Abandoned, now))
  }

  /** One candidate: left alone, or lost and replaced by a fresh session. */
  ghost function ReclaimOne(db: Db, i: AttemptId, ids: Ids, now: Time): Outcome {
    if i !in db.attempts || db.attempts[i].prompt !in db.prompts then RolledBack
    else
      var t := db.prompts[db.attempts[i].prompt].task;
      if Spared(db, i) then Committed(db)
      else
        match (LatestSession(db, t), LatestPrompt(db, t))
        case (Some(s), Some(p)) =>
          if RunningAttempt(db, i) == {} || RunningTaskRow(db, t) == {} then RolledBack
          else
            var before := db.sessions[s];
            InsertChain(GiveUp(db, i, t, p, s, now), ids, NewSession(t, NextSessionNumber(db, t), before.mode, before.isolated, before.expires, now),
                        db.attempts[i].timeout, now)
        case _ => RolledBack
  }

  ghost function ReclaimAll(db: Db, order: seq<AttemptId>, drawn: seq<Ids>, now: Time): Outcome
    requires |order| == |drawn|
    decreases |order|
  {
    if order == [] then Committed(db)
    else
      match ReclaimOne(db, order[0], drawn[0], now)
      case RolledBack => RolledBack
      case Committed(db') => ReclaimAll(db', order[1..], drawn[1..], now)
  }

  /** The statements after the loop: expired attempts fail, then their tasks. */
  function FailExpired(db: Db, auto: bool, now: Time): Db {
    var hits := if auto then ExhaustedAttempts(db, now) else ExpiredAttempts(db, now);
    var db1 := UpdateAttempts(db, hits, FailAttempt(Timeout, now));
    UpdateTasks(db1, TasksWithExpiredLease(db1, now), FailTask(Timeout))
  }

  /** reapExpiredLeases. */
  ghost function ReapLeasesTx(db: Db, auto: bool, order: seq<AttemptId>, drawn: seq<Ids>, now: Time): Outcome
    requires |order| == |drawn|
  {
    match if auto then ReclaimAll(db, order, drawn, now) else Committed(db)
    case RolledBack => RolledBack
    case Committed(db') => Committed(FailExpired(db', auto, now))
  }

  // ------------------------------------------------------------- other reapers

  /** reapUnavailablePinnedResumeTasks. */
  function ReapPinnedTx(db: Db, now: Time, clock: Time): Db {
    var db1 := UpdateAttempts(db, AttemptsMissingRunner(db, clock), FailAttempt(RunnerUnavailable, now));
    var db2 := UpdateTasks(db1, PendingTasksFailedFor(db1, RunnerUnavailable), FailTask(RunnerUnavailable));
    var db3 := UpdatePrompts(db2, PromptsOfUnavailable(db2), SetPromptStatus(PromptStatus.Failed));
    UpdateSessions(db3, SessionsOfUnavailable(db3), SetSessionStatus(SessionStatus.Error, now))
  }

  /** reapIsolationUnavailableTasks. */
  function ReapIsolationTx(db: Db, now: Time, clock: Time): Db {
    var db1 := UpdateAttempts(db, AttemptsWithoutIsolation(db, clock), FailAttempt(IsolationUnavailable, now));
    UpdateTasks(db1, PendingTasksFailedFor(db1, IsolationUnavailable), FailTask(IsolationUnavailable))
  }

  /** ReapStaleTasks. */
  function ReapOverrunTx(db: Db, now: Time, clock: Time): Db {
    var db1 := UpdateAttempts(db, OverrunAttempts(db, clock), FailAttempt(Timeout, now));
    UpdateTasks(db1, TasksOfOverrun(db1, now), FailTask(Timeout))
  }

  // ---------------------------------------------------------- operator requests

  /** CancelTask. */
  function CancelTx(db: Db, t: TaskId, now: Time): Outcome {
    var db1 := UpdateAttempts(db, ActiveAttemptsOf(db, t), CancelAttempt(now));
    if ActiveAttemptsOf(db, t) == {} || ActiveTaskRow(db1, t) == {} then RolledBack
    else Committed(UpdateTasks(db1, ActiveTaskRow(db1, t), CancelTask))
  }

  /** ClearQueue. */
  function ClearQueueTx(db: Db, now: Time): Db {
    var db1 := UpdateAttempts(db, PendingAttempts(db), CancelAttempt(now));
    UpdateTasks(db1, PendingTasks(db1), CancelTask)
  }

  function AttemptRanks(db: Db, p: PromptId): map<nat, Rank> {
    map i | i in db.attempts && db.attempts[i].prompt == p :: (db.attempts[i].created, 0, i)
  }

  /** The timeout of the last attempt of a prompt, or the default. */
  ghost function LastTimeout(db: Db, p: PromptId, fallback: int): int {
    match Last(AttemptRanks(db, p))
    case None => fallback
    case Some(i) => db.attempts[i].timeout
  }

  /** RecoverTask. */
  ghost function RecoverTx(db: Db, t: TaskId, ids: Ids, defaultTimeout: int, now: Time): Outcome {
    match (LatestSession(db, t), LatestPrompt(db, t))
    case (Some(s), Some(p)) =>
      if !db.prompts[p].transcript || ReopenableTaskRow(db, t) == {} then RolledBack
      else
        var before := db.sessions[s];
        var expires := if before.mode.NotResumable? then None else Some(now + 72 * 3600);
        InsertChain(UpdateTasks(db, ReopenableTaskRow(db, t), RequeueTask), ids,
                    NewSession(t, NextSessionNumber(db, t), before.mode, before.isolated, expires, now),
                    LastTimeout(db, p, defaultTimeout), now)
    case _ => RolledBack
  }

  /** The checks ResumeAgentSession makes before its transaction. */
  predicate MayResume(db: Db, s: SessionId, clock: Time) {
    s in db.sessions
    && var session := db.sessions[s];
       Parked(session) && !session.mode.NotResumable? && session.pinned.Some? && session.workspace
       && (if session.mode.GvisorCheckpoint?
           then session.checkpoint && exists k :: k in db.checkpoints && db.checkpoints[k].session == s
           else session.harness)
       && Alive(db, session.pinned.value, clock, RESUME_PRESENCE)
  }

  /** ResumeAgentSession's transaction, for the task and runner it read before. */
  ghost function ResumeTx(db: Db, s: SessionId, t: TaskId, r: RunnerId, p: PromptId, i: AttemptId, timeout: int, now: Time): Outcome {
    if ReopenableTaskRow(db, t) == {} || p in db.prompts || i in db.attempts || ParkedSession(db, s) == {} then RolledBack
    else
      var db1 := UpdateTasks(db, ReopenableTaskRow(db, t), RequeueTask);
      var db2 := db1.(
        prompts := db1.prompts[p := Prompt(t, s, NextPromptNumber(db, s), PromptStatus.Pending, false)],
        attempts := db1.attempts[i := NewAttempt(p, Only(r), timeout, now)]);
      Committed(UpdateSessions(db2, ParkedSession(db2, s), SetSessionStatus(SessionStatus.Resuming, now)))
  }

  // --------------------------------------------------------- single statements

  function RenewStmt(db: Db, i: AttemptId, r: RunnerId, c: ClaimId, now: Time): Db {
    UpdateAttempts(db, RenewableAttempt(db, i, r, c), RenewAttempt(now + TASK_LEASE))
  }

  function ExtendStmt(db: Db, t: TaskId, seconds: int): Db {
    UpdateAttempts(db, ActiveAttemptsOf(db, t), ExtendAttempt(seconds))
  }

  function ExpireSessionsStmt(db: Db, now: Time): Db {
    UpdateSessions(db, ExpirableSessions(db, now), SetSessionStatus(SessionStatus.Expired, now))
  }

  function ReapPromptsStmt(db: Db): Db {
    UpdatePrompts(db, RunningPromptsOfReopenable(db), FollowTask(db.tasks))
  }

  function RevertPromptsStmt(db: Db): Db {
    UpdatePrompts(db, RunningPromptsOfPending(db), SetPromptStatus(PromptStatus.Pending))
  }

  function ReapSessionsStmt(db: Db, now: Time): Db {
    UpdateSessions(db, SessionsOfEnded(db), FollowTaskStatus(db.tasks, now))
  }

  function CollectablePrompts(db: Db, clock: Time, ttl: int): set<PromptId> {
    set p | p in db.prompts && db.prompts[p].session in CollectableSessions(db, clock, ttl)
  }

  function CollectableAttempts(db: Db, clock: Time, ttl: int): set<AttemptId> {
    set i | i in db.attempts && db.attempts[i].prompt in CollectablePrompts(db, clock, ttl)
  }

  /** ClearExpiredSessionCheckpoints. */
  function CollectCheckpointsStmt(db: Db, clock: Time, ttl: int): Db {
    db.(checkpoints := map k | k in db.checkpoints ::
          if db.checkpoints[k].session in CollectableSessions(db, clock, ttl)
          then db.checkpoints[k].(path := false) else db.checkpoints[k])
  }

  /** ClearExpiredUserPromptExports. */
  function CollectPromptsStmt(db: Db, clock: Time, ttl: int): Db {
    UpdatePrompts(db, CollectablePrompts(db, clock, ttl), DropPromptExport)
  }

  /** ClearExpiredExecutionAttemptExports. */
  function CollectAttemptsStmt(db: Db, clock: Time, ttl: int): Db {
    UpdateAttempts(db, CollectableAttempts(db, clock, ttl), DropAttemptExport)
  }

  // ---------------------------------------------------------------------- steps

  datatype Step =
    | Submit(task: TaskId, ids: Ids, mode: Mode, isolated: bool, expires: Option<Time>, timeout: int, maxAttempts: int, now: Time)
    | Claim(attempt: AttemptId, runner: RunnerId, capable: bool, locked: set<AttemptId>, claim: ClaimId, lease: Time, now: Time)
    | Renew(attempt: AttemptId, runner: RunnerId, claim: ClaimId, now: Time)
    | Report(event: Event, checkpoint: CheckpointId, now: Time, clock: Time)
    | ReapLeases(auto: bool, order: seq<AttemptId>, drawn: seq<Ids>, now: Time)
    | ReapPinned(now: Time, clock: Time)
    | ReapIsolation(now: Time, clock: Time)
    | ReapOverrun(now: Time, clock: Time)
    | Cancel(task: TaskId, now: Time)
    | ClearQueue(now: Time)
    | Extend(task: TaskId, seconds: int)
    | Recover(task: TaskId, ids: Ids, timeout: int, now: Time)
    | Resume(session: SessionId, task: TaskId, runner: RunnerId, prompt: PromptId, attempt: AttemptId, timeout: int, now: Time)
    | ExpireSessions(now: Time)
    | ReapPrompts
    | RevertPrompts
    | ReapSessions(now: Time)
    | CollectCheckpoints(clock: Time, ttl: int)
    | CollectPrompts(clock: Time, ttl: int)
    | CollectAttempts(clock: Time, ttl: int)
    | Heartbeat(runner: RunnerId, row: Runner)

  /** The categories normalizeErrorCategory and classifyTaskErrorCategory yield. */
  predicate Reportable(category: Option<Category>) {
    category.Some? ==> !category.value.RunnerUnavailable? && !category.value.IsolationUnavailable?
  }

  /** What a step's own reads established. */
  ghost predicate Enabled(db: Db, step: Step) {
    match step
    case Claim(i, r, capable, locked, c, lease, now) => IsNext(db, r, capable, locked, i)
    case Report(e, _, _, _) => Reportable(e.category)
    case ReapLeases(auto, order, drawn, now) => IsListing(db, now, order) && |drawn| == |order|
    case Resume(s, t, r, p, i, _, _) => s in db.sessions && db.sessions[s].task == t
    case _ => true
  }

  /** A step as the service issues it when the rows it read before the transaction
      have not changed since: SubmitTask makes a resumable session isolated and lets
      it expire, a claim carries its runner's isolation and a bounded lease, and a
      resume passed the checks for its session's pinned runner. */
  predicate Served(db: Db, step: Step) {
    match step
    case Submit(_, _, mode, isolated, expires, _, _, now) =>
      !mode.GvisorCheckpoint? && if mode.HarnessSession? then isolated && expires.Some? && now < expires.value else expires.None?
    case Claim(_, r, capable, _, _, lease, _) => r in db.runners && capable == db.runners[r].isolated && 0 < lease <= 3600
    case Resume(s, t, r, _, _, _, now) =>
      MayResume(db, s, now) && db.sessions[s].task == t && db.sessions[s].pinned == Some(r)
    case _ => true
  }

  ghost function Apply(db: Db, step: Step): Outcome
    requires Enabled(db, step)
  {
    match step
    case Submit(t, ids, mode, isolated, expires, timeout, maxAttempts, now) =>
      SubmitTx(db, t, ids, mode, isolated, expires, timeout, maxAttempts, now)
    case Claim(i, r, capable, locked, c, lease, now) => ClaimTx(db, i, r, c, lease, now)
    case Renew(i, r, c, now) => Committed(RenewStmt(db, i, r, c, now))
    case Report(e, checkpoint, now, clock) => RecordEventTx(db, e, checkpoint, now, clock)
    case ReapLeases(auto, order, drawn, now) => ReapLeasesTx(db, auto, order, drawn, now)
    case ReapPinned(now, clock) => Committed(ReapPinnedTx(db, now, clock))
    case ReapIsolation(now, clock) => Committed(ReapIsolationTx(db, now, clock))
    case ReapOverrun(now, clock) => Committed(ReapOverrunTx(db, now, clock))
    case Cancel(t, now) => CancelTx(db, t, now)
    case ClearQueue(now) => Committed(ClearQueueTx(db, now))
    case Extend(t, seconds) => Committed(ExtendStmt(db, t, seconds))
    case Recover(t, ids, timeout, now) => RecoverTx(db, t, ids, timeout, now)
    case Resume(s, t, r, p, i, timeout, now) => ResumeTx(db, s, t, r, p, i, timeout, now)
    case ExpireSessions(now) => Committed(ExpireSessionsStmt(db, now))
    case ReapPrompts => Committed(ReapPromptsStmt(db))
    case RevertPrompts => Committed(RevertPromptsStmt(db))
    case ReapSessions(now) => Committed(ReapSessionsStmt(db, now))
    case CollectCheckpoints(clock, ttl) => Committed(CollectCheckpointsStmt(db, clock, ttl))
    case CollectPrompts(clock, ttl) => Committed(CollectPromptsStmt(db, clock, ttl))
    case CollectAttempts(clock, ttl) => Committed(CollectAttemptsStmt(db, clock, ttl))
    case Heartbeat(r, row) => Committed(db.(runners := db.runners[r := row]))
  }

  /** The database after a step: a rolled-back transaction changes nothing. */
  ghost function Next(db: Db, step: Step): Db
    requires Enabled(db, step)
  {
    var outcome := Apply(db, step);
    if outcome.Committed? then outcome.db else db
  }

  ghost predicate Leads(db: Db, step: Step, db': Db) {
    Enabled(db, step) && Next(db, step) == db'
  }

  ghost predicate Run(db: Db, steps: seq<Step>, last: Db)
    decreases |steps|
  {
    if steps == [] then db == last
    else Enabled(db, steps[0]) && Run(Next(db, steps[0]), steps[1..], last)
  }

  const Empty := Db(map[], map[], map[], map[], map[], map[])
}
