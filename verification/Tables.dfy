/** The control plane's tables and the SET clauses and WHERE guards of the
    statements that change them: internal/repository/{execution_attempts,tasks,
    agent_sessions}.sql.go and the stale reaper of internal/store/store.go. */
module Tables {
  import opened Basics

  type TaskId = nat
  type SessionId = nat
  type PromptId = nat
  type AttemptId = nat
  type CheckpointId = nat
  type RunnerId = nat
  type ClaimId = nat

  datatype TaskStatus = Pending | Running | Done | Completed | Error | Cancelled | Named(name: nat)

  datatype AttemptStatus = Pending | Running | Succeeded | Failed | Cancelled | Error | Lost

  datatype PromptStatus = Pending | Claimed | Running | Completed | Failed | Cancelled

  datatype SessionStatus =
    | Running | Resuming | Paused | Recoverable | AwaitingReview
    | Completed | Failed | Cancelled | TimedOut | Expired | Abandoned | Error

  datatype RunnerStatus = Active | Draining | Stopping | Drained | Silent

  /** error_category; Reported are the remaining ones a runner may send. */
  datatype Category = Timeout | TransportError | RunnerUnavailable | IsolationUnavailable | ByOperator | Reported(name: nat)

  datatype Mode = NotResumable | HarnessSession | GvisorCheckpoint

  /** required_runner_id: NULL, the empty string, or a runner. */
  datatype Required = Anyone | Blank | Only(runner: RunnerId)

  datatype Usage = Usage(input: int, output: int, cacheRead: int, cacheWrite: int, reasoning: int, cost: int)

  const NoUsage := Usage(0, 0, 0, 0, 0, 0)

  function Plus(a: Usage, b: Usage): Usage {
    Usage(a.input + b.input, a.output + b.output, a.cacheRead + b.cacheRead,
          a.cacheWrite + b.cacheWrite, a.reasoning + b.reasoning, a.cost + b.cost)
  }

  datatype Task = Task(status: TaskStatus, category: Option<Category>, maxAttempts: int)

  /** Booleans stand for text columns that are not empty. */
  datatype Session = Session(
    task: TaskId, number: int, status: SessionStatus, mode: Mode, isolated: bool,
    pinned: Option<RunnerId>, expires: Option<Time>, updated: Time,
    workspace: bool, checkpoint: bool, harness: bool)

  datatype Prompt = Prompt(task: TaskId, session: SessionId, number: int, status: PromptStatus, transcript: bool)

  datatype Attempt = Attempt(
    prompt: PromptId, status: AttemptStatus, required: Required,
    runner: Option<RunnerId>, claim: Option<ClaimId>, lease: Option<Time>,
    started: Option<Time>, ended: Option<Time>, category: Option<Category>,
    timeout: int, created: Time, usage: Usage, transcript: bool)

  datatype Runner = Runner(status: RunnerStatus, seen: Time, isolated: bool)

  datatype Checkpoint = Checkpoint(session: SessionId, path: bool)

  datatype Db = Db(
    tasks: map<TaskId, Task>,
    sessions: map<SessionId, Session>,
    prompts: map<PromptId, Prompt>,
    attempts: map<AttemptId, Attempt>,
    runners: map<RunnerId, Runner>,
    checkpoints: map<CheckpointId, Checkpoint>)

  const RUNNER_PRESENCE := 60
  const RESUME_PRESENCE := 120
  const TASK_LEASE := 120
  const REAPER_GRACE := 120

  // ----------------------------------------------------------------- ownership

  /** attempt JOIN user_prompts: the attempt i belongs to task t. */
  predicate Owns(db: Db, t: TaskId, i: AttemptId) {
    i in db.attempts && db.attempts[i].prompt in db.prompts && db.prompts[db.attempts[i].prompt].task == t
  }

  predicate ActiveAttempt(a: Attempt) {
    a.status.Pending? || a.status.Running?
  }

  predicate ActiveTask(t: Task) {
    t.status.Pending? || t.status.Running?
  }

  /** The task statuses a new prompt may be queued under. */
  predicate Reopenable(t: Task) {
    t.status.Done? || t.status.Error? || t.status.Cancelled?
  }

  predicate Open(s: Session) {
    s.status.Running? || s.status.Resuming?
  }

  predicate Parked(s: Session) {
    s.status.Paused? || s.status.Recoverable? || s.status.AwaitingReview?
  }

  /** The session statuses the artifact collector treats as final. */
  predicate Final(s: Session) {
    !Open(s) && !Parked(s)
  }

  function AttemptsOf(db: Db, t: TaskId): set<AttemptId> {
    set i | i in db.attempts && Owns(db, t, i)
  }

  // ------------------------------------------------------------- latest records

  /** The sort key of ORDER BY session.sequence DESC, prompt.sequence DESC. Ties,
      which the unique keys exclude, go to the greater id. */
  type Rank = (int, int, nat)

  predicate Below(a: Rank, b: Rank) {
    a.0 < b.0 || (a.0 == b.0 && (a.1 < b.1 || (a.1 == b.1 && a.2 <= b.2)))
  }

  function SessionRank(db: Db, s: SessionId): Rank
    requires s in db.sessions
  {
    (db.sessions[s].number, 0, s)
  }

  function PromptRank(db: Db, p: PromptId): Rank
    requires p in db.prompts && db.prompts[p].session in db.sessions
  {
    (db.sessions[db.prompts[p].session].number, db.prompts[p].number, p)
  }

  function SessionRanks(db: Db, t: TaskId): map<nat, Rank> {
    map s | s in db.sessions && db.sessions[s].task == t :: SessionRank(db, s)
  }

  /** user_prompts JOIN agent_sessions of a task. */
  function PromptRanks(db: Db, t: TaskId): map<nat, Rank> {
    map p | p in db.prompts && db.prompts[p].task == t && db.prompts[p].session in db.sessions :: PromptRank(db, p)
  }

  predicate IsLast(ranks: map<nat, Rank>, k: nat) {
    k in ranks && forall j :: j in ranks ==> Below(ranks[j], ranks[k])
  }

  lemma {:induction false} SomeIsLast(ranks: map<nat, Rank>) returns (k: nat)
    requires ranks != map[]
    ensures IsLast(ranks, k)
    decreases |ranks|
  {
    k :| k in ranks;
    var rest := ranks - {k};
    assert forall m :: m in ranks ==> m == k || (m in rest && rest[m] == ranks[m]);
    if rest != map[] {
      var j := SomeIsLast(rest);
      if Below(ranks[k], ranks[j]) {
        k := j;
      }
    }
  }

  ghost function Last(ranks: map<nat, Rank>): (last: Option<nat>)
    ensures last.Some? ==> IsLast(ranks, last.value)
    ensures last.None? ==> ranks == map[]
  {
    if ranks == map[] then None
    else
      assert exists k :: IsLast(ranks, k) by {
        var k := SomeIsLast(ranks);
      }
      var k :| IsLast(ranks, k);
      Some(k)
  }

  ghost function LatestSession(db: Db, t: TaskId): (s: Option<SessionId>)
    ensures s.Some? ==> s.value in db.sessions && db.sessions[s.value].task == t
  {
    Last(SessionRanks(db, t))
  }

  ghost function LatestPrompt(db: Db, t: TaskId): (p: Option<PromptId>)
    ensures p.Some? ==> p.value in db.prompts && db.prompts[p.value].task == t
  {
    Last(PromptRanks(db, t))
  }

  // ---------------------------------------------------------------- SET clauses

  /** A runner's report on an execution attempt; status None is the empty string. */
  datatype Event = Event(
    attempt: AttemptId, task: TaskId, session: SessionId, prompt: PromptId,
    runner: RunnerId, claim: ClaimId, status: Option<TaskStatus>, category: Option<Category>,
    started: Option<Time>, ended: Option<Time>, usage: Usage,
    transcript: bool, workspace: bool, harness: bool, checkpoint: bool)

  function EventStatus(e: Event): TaskStatus {
    if e.status.Some? then e.status.value else TaskStatus.Running
  }

  /** executionAttemptStatus. */
  function AttemptStatusFor(status: TaskStatus): AttemptStatus {
    match status
    case Done => AttemptStatus.Succeeded
    case Completed => AttemptStatus.Succeeded
    case Error => AttemptStatus.Failed
    case Cancelled => AttemptStatus.Cancelled
    case _ => AttemptStatus.Running
  }

  datatype SetAttempt =
    | CancelAttempt(now: Time)
    | ExtendAttempt(seconds: int)
    | FailAttempt(reason: Category, now: Time)
    | ClaimAttempt(holder: RunnerId, under: ClaimId, until: Time, now: Time)
    | LoseAttempt(now: Time)
    | RenewAttempt(until: Time)
    | ReportAttempt(event: Event, now: Time)
    | DropAttemptExport

  function WithAttempt(clause: SetAttempt, a: Attempt): Attempt {
    match clause
    case CancelAttempt(now) =>
      a.(status := AttemptStatus.Cancelled, category := Some(ByOperator), lease := None, ended := Coalesce(a.ended, Some(now)))
    case ExtendAttempt(seconds) => a.(timeout := a.timeout + seconds)
    case FailAttempt(reason, now) => a.(status := AttemptStatus.Error, category := Some(reason), ended := Some(now))
    case ClaimAttempt(holder, under, until, now) =>
      a.(status := AttemptStatus.Running, runner := Some(holder), claim := Some(under), lease := Some(until), started := Some(now))
    case LoseAttempt(now) => a.(status := AttemptStatus.Lost, ended := Some(now))
    case RenewAttempt(until) => a.(lease := Some(until))
    case ReportAttempt(e, now) =>
      var status := AttemptStatusFor(EventStatus(e));
      var ended := if !status.Running? && e.ended.None? then Some(now) else e.ended;
      a.(status := status, category := Coalesce(e.category, a.category), transcript := e.transcript || a.transcript,
         lease := if EventStatus(e).Running? then Some(now + TASK_LEASE) else None,
         started := Coalesce(e.started, a.started), ended := Coalesce(ended, a.ended), usage := Plus(a.usage, e.usage))
    case DropAttemptExport => a.(transcript := false)
  }

  datatype SetTask = RunTask | CancelTask | FailTask(reason: Category) | RequeueTask
    | ReportTask(status: TaskStatus, reported: Option<Category>)

  function WithTask(clause: SetTask, t: Task): Task {
    match clause
    case RunTask => t.(status := TaskStatus.Running)
    case CancelTask => t.(status := TaskStatus.Cancelled, category := Some(ByOperator))
    case FailTask(reason) => t.(status := TaskStatus.Error, category := Some(reason))
    case RequeueTask => t.(status := TaskStatus.Pending, category := None)
    case ReportTask(status, reported) => t.(status := status, category := Coalesce(reported, t.category))
  }

  datatype SetPrompt = SetPromptStatus(status: PromptStatus) | EndPrompt(ended: PromptStatus, exported: bool)
    | FollowTask(tasks: map<TaskId, Task>) | DropPromptExport

  function WithPrompt(clause: SetPrompt, p: Prompt): Prompt {
    match clause
    case SetPromptStatus(status) => p.(status := status)
    case EndPrompt(ended, exported) => p.(status := ended, transcript := exported || p.transcript)
    case FollowTask(tasks) =>
      p.(status := if p.task in tasks && tasks[p.task].status.Done? then PromptStatus.Completed
                   else if p.task in tasks && tasks[p.task].status.Cancelled? then PromptStatus.Cancelled
                   else PromptStatus.Failed)
    case DropPromptExport => p.(transcript := false)
  }

  datatype SetSession =
    | SetSessionStatus(status: SessionStatus, now: Time)
    | EndSession(ended: SessionStatus, reported: bool, now: Time)
    | TouchSession(reported: bool, now: Time)
    | ParkSession(parked: SessionStatus, holder: RunnerId, checkpointed: bool, reported: bool, now: Time)
    | FollowTaskStatus(tasks: map<TaskId, Task>, now: Time)

  function WithSession(clause: SetSession, s: Session): Session {
    match clause
    case SetSessionStatus(status, now) => s.(status := status, updated := now)
    case EndSession(ended, reported, now) => s.(status := ended, harness := reported || s.harness, updated := now)
    case TouchSession(reported, now) => s.(harness := reported || s.harness, updated := now)
    case ParkSession(parked, holder, checkpointed, reported, now) =>
      s.(status := parked, pinned := Some(holder), checkpoint := checkpointed || s.checkpoint, workspace := true,
         harness := reported || s.harness, updated := now)
    case FollowTaskStatus(tasks, now) =>
      s.(status := if s.task in tasks && tasks[s.task].status.Done? then SessionStatus.Completed else SessionStatus.Error,
         updated := now)
  }

  // ------------------------------------------------------------------- updates

  function UpdateAttempts(db: Db, hits: set<AttemptId>, clause: SetAttempt): Db {
    db.(attempts := map i | i in db.attempts :: if i in hits then WithAttempt(clause, db.attempts[i]) else db.attempts[i])
  }

  function UpdateTasks(db: Db, hits: set<TaskId>, clause: SetTask): Db {
    db.(tasks := map t | t in db.tasks :: if t in hits then WithTask(clause, db.tasks[t]) else db.tasks[t])
  }

  function UpdatePrompts(db: Db, hits: set<PromptId>, clause: SetPrompt): Db {
    db.(prompts := map p | p in db.prompts :: if p in hits then WithPrompt(clause, db.prompts[p]) else db.prompts[p])
  }

  function UpdateSessions(db: Db, hits: set<SessionId>, clause: SetSession): Db {
    db.(sessions := map s | s in db.sessions :: if s in hits then WithSession(clause, db.sessions[s]) else db.sessions[s])
  }

  // --------------------------------------------------------------- WHERE guards

  /** CancelExecutionAttemptsByTask, ExtendActiveExecutionAttemptTimeout. */
  function ActiveAttemptsOf(db: Db, t: TaskId): set<AttemptId> {
    set i | i in db.attempts && Owns(db, t, i) && ActiveAttempt(db.attempts[i])
  }

  /** CancelPendingExecutionAttempts. */
  function PendingAttempts(db: Db): set<AttemptId> {
    set i | i in db.attempts && db.attempts[i].status.Pending?
  }

  /** CancelTask. */
  function ActiveTaskRow(db: Db, t: TaskId): set<TaskId> {
    set k | k in db.tasks && k == t && ActiveTask(db.tasks[k])
  }

  /** ClearPendingTasks. */
  function PendingTasks(db: Db): set<TaskId> {
    set t | t in db.tasks && db.tasks[t].status.Pending?
  }

  predicate LeaseExpired(a: Attempt, now: Time) {
    a.status.Running? && a.lease.Some? && a.lease.value < now
  }

  /** ListReclaimableExecutionAttemptsForUpdate, FailAllExpiredExecutionAttempts. */
  function ExpiredAttempts(db: Db, now: Time): set<AttemptId> {
    set i | i in db.attempts && LeaseExpired(db.attempts[i], now)
  }

  /** counts.attempt_count >= task.max_attempts for the task of attempt i. */
  predicate Exhausted(db: Db, i: AttemptId) {
    i in db.attempts && db.attempts[i].prompt in db.prompts
    && var t := db.prompts[db.attempts[i].prompt].task;
       t in db.tasks && |AttemptsOf(db, t)| >= db.tasks[t].maxAttempts
  }

  /** FailExpiredExecutionAttempts. */
  function ExhaustedAttempts(db: Db, now: Time): set<AttemptId> {
    set i | i in db.attempts && LeaseExpired(db.attempts[i], now) && Exhausted(db, i)
  }

  predicate FailedByTimeout(a: Attempt) {
    a.status.Error? && a.category == Some(Timeout)
  }

  /** FailExpiredLeases: running tasks that own any attempt that timed out under
      a lease, however old. */
  function TasksWithExpiredLease(db: Db, now: Time): set<TaskId> {
    set t | t in db.tasks && db.tasks[t].status.Running?
            && exists i :: i in db.attempts && Owns(db, t, i) && FailedByTimeout(db.attempts[i])
                 && db.attempts[i].lease.Some? && db.attempts[i].lease.value < now
  }

  /** The runner row lets a pinned prompt start (IsRunnerAlive). */
  predicate Alive(db: Db, r: RunnerId, clock: Time, presence: int) {
    r in db.runners && db.runners[r].status.Active? && clock - presence < db.runners[r].seen
  }

  /** FailPendingExecutionAttemptsForMissingRunner. */
  predicate MissingRunner(db: Db, i: AttemptId, clock: Time) {
    i in db.attempts && db.attempts[i].prompt in db.prompts
    && var s := db.prompts[db.attempts[i].prompt].session;
       s in db.sessions && db.sessions[s].status.Resuming?
       && db.attempts[i].status.Pending? && db.attempts[i].required.Only?
       && !Alive(db, db.attempts[i].required.runner, clock, RUNNER_PRESENCE)
  }

  function AttemptsMissingRunner(db: Db, clock: Time): set<AttemptId> {
    set i | i in db.attempts && MissingRunner(db, i, clock)
  }

  /** FailPendingResumeTasksForMissingRunner and FailPendingIsolationTasks: pending
      tasks that own any attempt failed for the reason. */
  function PendingTasksFailedFor(db: Db, reason: Category): set<TaskId> {
    set t | t in db.tasks && db.tasks[t].status.Pending?
            && exists i :: i in db.attempts && Owns(db, t, i) && db.attempts[i].status.Error?
                 && db.attempts[i].category == Some(reason)
  }

  predicate Unavailable(db: Db, t: TaskId) {
    t in db.tasks && db.tasks[t].status.Error? && db.tasks[t].category == Some(RunnerUnavailable)
  }

  /** FailPendingUserPromptsForUnavailableRunner. */
  function PromptsOfUnavailable(db: Db): set<PromptId> {
    set p | p in db.prompts && db.prompts[p].status.Pending? && Unavailable(db, db.prompts[p].task)
  }

  /** MarkResumingSessionsFailedForUnavailableRunner. */
  function SessionsOfUnavailable(db: Db): set<SessionId> {
    set s | s in db.sessions && db.sessions[s].status.Resuming?
            && exists p :: p in db.prompts && db.prompts[p].session == s && db.prompts[p].status.Failed?
                 && Unavailable(db, db.prompts[p].task)
  }

  predicate IsolationCapable(db: Db, clock: Time) {
    exists r :: r in db.runners && db.runners[r].isolated && clock - RUNNER_PRESENCE < db.runners[r].seen
      && (db.runners[r].status.Active? || db.runners[r].status.Draining? || db.runners[r].status.Stopping?)
  }

  predicate NeedsIsolation(db: Db, i: AttemptId) {
    i in db.attempts && db.attempts[i].prompt in db.prompts
    && var s := db.prompts[db.attempts[i].prompt].session;
       s in db.sessions && db.sessions[s].isolated
  }

  /** FailPendingIsolationAttemptsWithoutCapableRunner. */
  function AttemptsWithoutIsolation(db: Db, clock: Time): set<AttemptId> {
    set i | i in db.attempts && db.attempts[i].status.Pending? && NeedsIsolation(db, i) && !IsolationCapable(db, clock)
  }

  /** ReapStaleTasks, first statement: running past the timeout and the grace. */
  predicate Overrun(a: Attempt, clock: Time) {
    a.status.Running? && a.started.Some? && clock - a.started.value > a.timeout + REAPER_GRACE
  }

  function OverrunAttempts(db: Db, clock: Time): set<AttemptId> {
    set i | i in db.attempts && Overrun(db.attempts[i], clock)
  }

  /** ReapStaleTasks, second statement: fenced by the end this pass wrote. */
  function TasksOfOverrun(db: Db, now: Time): set<TaskId> {
    set t | t in db.tasks && db.tasks[t].status.Running?
            && exists i :: i in db.attempts && Owns(db, t, i) && FailedByTimeout(db.attempts[i]) && db.attempts[i].ended == Some(now)
  }

  /** RequeueTaskForPrompt. */
  function ReopenableTaskRow(db: Db, t: TaskId): set<TaskId> {
    set k | k in db.tasks && k == t && Reopenable(db.tasks[k])
  }

  /** RequeueTaskAfterExecutionAttemptLost. */
  function RunningTaskRow(db: Db, t: TaskId): set<TaskId> {
    set k | k in db.tasks && k == t && db.tasks[k].status.Running?
  }

  /** MarkTaskRunning. */
  function PendingTaskRow(db: Db, t: TaskId): set<TaskId> {
    set k | k in db.tasks && k == t && db.tasks[k].status.Pending?
  }

  /** UpdateTaskAggregateFromRunnerEvent. */
  function ReportableTaskRow(db: Db, t: TaskId, status: TaskStatus): set<TaskId> {
    set k | k in db.tasks && k == t && (db.tasks[k].status.Running? || db.tasks[k].status == status)
  }

  /** RenewExecutionAttemptLease: the gate is id, runner, claim and status. */
  predicate HeldBy(db: Db, i: AttemptId, r: RunnerId, c: ClaimId) {
    i in db.attempts && db.attempts[i].runner == Some(r) && db.attempts[i].claim == Some(c) && db.attempts[i].status.Running?
  }

  function RenewableAttempt(db: Db, i: AttemptId, r: RunnerId, c: ClaimId): set<AttemptId> {
    set k | k in db.attempts && k == i && HeldBy(db, i, r, c)
  }

  /** UpdateExecutionAttemptFromRunnerEvent: the lease must also be live. */
  function ReportableAttempt(db: Db, e: Event, clock: Time): set<AttemptId> {
    set k | k in db.attempts && k == e.attempt && HeldBy(db, k, e.runner, e.claim)
            && db.attempts[k].lease.Some? && clock < db.attempts[k].lease.value
  }

  /** A row by its id, when its status passes the guard. */
  function RunningAttempt(db: Db, i: AttemptId): set<AttemptId> {
    set k | k in db.attempts && k == i && db.attempts[k].status.Running?
  }

  function PendingAttempt(db: Db, i: AttemptId): set<AttemptId> {
    set k | k in db.attempts && k == i && db.attempts[k].status.Pending?
  }

  /** AbandonUserPrompt. */
  function UnfinishedPrompt(db: Db, p: PromptId): set<PromptId> {
    set k | k in db.prompts && k == p && InFlight(db.prompts[k])
  }

  predicate InFlight(p: Prompt) {
    p.status.Pending? || p.status.Claimed? || p.status.Running?
  }

  /** MarkUserPromptRunningByTask. */
  ghost function LatestQueuedPrompt(db: Db, t: TaskId): set<PromptId> {
    set p | p in db.prompts && LatestPrompt(db, t) == Some(p) && (db.prompts[p].status.Pending? || db.prompts[p].status.Claimed?)
  }

  /** MarkUserPromptTerminalByTask, which has no status guard. */
  ghost function LatestPromptRow(db: Db, t: TaskId): set<PromptId> {
    set p | p in db.prompts && LatestPrompt(db, t) == Some(p)
  }

  /** ReapStaleUserPrompts. */
  function RunningPromptsOfReopenable(db: Db): set<PromptId> {
    set p | p in db.prompts && db.prompts[p].status.Running? && db.prompts[p].task in db.tasks
            && Reopenable(db.tasks[db.prompts[p].task])
  }

  /** RevertOrphanedRunningUserPrompts. */
  function RunningPromptsOfPending(db: Db): set<PromptId> {
    set p | p in db.prompts && db.prompts[p].status.Running? && db.prompts[p].task in db.tasks
            && db.tasks[db.prompts[p].task].status.Pending?
  }

  /** AbandonAgentSession. */
  function OpenSession(db: Db, s: SessionId): set<SessionId> {
    set k | k in db.sessions && k == s && Open(db.sessions[k])
  }

  /** MarkAgentSessionTerminalByTask, PauseAgentSessionByTaskID and
      UpdateAgentSessionFromRunnerEvent. */
  ghost function LatestOpenSession(db: Db, t: TaskId): set<SessionId> {
    set s | s in db.sessions && LatestSession(db, t) == Some(s) && Open(db.sessions[s])
  }

  /** MarkAgentSessionResuming. */
  function ParkedSession(db: Db, s: SessionId): set<SessionId> {
    set k | k in db.sessions && k == s && Parked(db.sessions[k])
  }

  /** A prompt or attempt of the session is still in flight. */
  predicate Busy(db: Db, s: SessionId) {
    || (exists p :: p in db.prompts && db.prompts[p].session == s && InFlight(db.prompts[p]))
    || (exists i :: i in db.attempts && db.attempts[i].prompt in db.prompts
          && db.prompts[db.attempts[i].prompt].session == s && ActiveAttempt(db.attempts[i]))
  }

  predicate PastTtl(s: Session, now: Time) {
    s.expires.Some? && s.expires.value < now
  }

  /** ExpirePausedSessions. */
  function ExpirableSessions(db: Db, now: Time): set<SessionId> {
    set s | s in db.sessions && Parked(db.sessions[s]) && PastTtl(db.sessions[s], now) && !Busy(db, s)
  }

  /** ReapStaleSessionsForTerminalRuns. */
  function SessionsOfEnded(db: Db): set<SessionId> {
    set s | s in db.sessions && db.sessions[s].status.Running?
            && exists p :: p in db.prompts && db.prompts[p].session == s && Over(db.prompts[p])
                 && db.prompts[p].task in db.tasks && Reopenable(db.tasks[db.prompts[p].task])
  }

  predicate Over(p: Prompt) {
    p.status.Failed? || p.status.Completed? || p.status.Cancelled?
  }

  /** The sessions whose artifacts the collector clears. */
  function CollectableSessions(db: Db, clock: Time, ttl: int): set<SessionId> {
    set s | s in db.sessions && Final(db.sessions[s]) && db.sessions[s].updated < clock - ttl
  }

  // ------------------------------------------------------------- claim selection

  /** GetClaimableExecutionAttemptForUpdate. */
  predicate Claimable(db: Db, i: AttemptId, r: RunnerId, capable: bool) {
    i in db.attempts && db.attempts[i].prompt in db.prompts
    && var t := db.prompts[db.attempts[i].prompt].task;
       t in db.tasks && db.tasks[t].status.Pending?
       && db.attempts[i].status.Pending?
       && (db.attempts[i].required.Only? ==> db.attempts[i].required.runner == r)
       && (NeedsIsolation(db, i) ==> capable)
  }

  function ClaimableAttempts(db: Db, r: RunnerId, capable: bool, locked: set<AttemptId>): set<AttemptId> {
    set i | i in db.attempts && i !in locked && Claimable(db, i, r, capable)
  }

  /** ORDER BY created_at ASC LIMIT 1 over the rows no other transaction locks. */
  predicate IsNext(db: Db, r: RunnerId, capable: bool, locked: set<AttemptId>, i: AttemptId) {
    var all := ClaimableAttempts(db, r, capable, locked);
    i in all && forall k :: k in all ==> db.attempts[i].created <= db.attempts[k].created
  }
}
