/** The tables as stored rows, and the transactions of the control plane as the
    service runs them: statement by statement, rolled back on error. */
module Store {
  import opened Basics
  import opened Tables
  import opened Transactions
  import Sql = Tables

  lemma LastIsUnique(ranks: map<nat, Rank>, j: nat, k: nat)
    requires IsLast(ranks, j) && IsLast(ranks, k)
    requires forall m :: m in ranks ==> ranks[m].2 == m
    ensures j == k
  {
    assert Below(ranks[j], ranks[k]) && Below(ranks[k], ranks[j]);
  }

  /** ORDER BY ... DESC LIMIT 1. */
  method SelectLast(ranks: map<nat, Rank>) returns (last: Option<nat>)
    requires forall m :: m in ranks ==> ranks[m].2 == m
    ensures last == Last(ranks)
  {
    last := None;
    var todo := ranks.Keys;
    while todo != {}
      invariant todo <= ranks.Keys
      invariant last.None? <==> todo == ranks.Keys
      invariant last.Some? ==> last.value in ranks.Keys - todo
      invariant last.Some? ==> forall m :: m in ranks.Keys - todo ==> Below(ranks[m], ranks[last.value])
      decreases todo
    {
      var k :| k in todo;
      if last.None? || Below(ranks[last.value], ranks[k]) {
        last := Some(k);
      }
      todo := todo - {k};
    }
    if last.Some? {
      assert Last(ranks).Some?;
      LastIsUnique(ranks, last.value, Last(ranks).value);
    }
  }

  class Database {
    var tasks: map<TaskId, Task>
    var sessions: map<SessionId, Session>
    var prompts: map<PromptId, Prompt>
    var attempts: map<AttemptId, Attempt>
    var runners: map<RunnerId, Runner>
    var checkpoints: map<CheckpointId, Checkpoint>

    constructor ()
      ensures State() == Empty
    {
      tasks, sessions, prompts, attempts, runners, checkpoints := map[], map[], map[], map[], map[], map[];
    }

    function State(): Db
      reads this
    {
      Db(tasks, sessions, prompts, attempts, runners, checkpoints)
    }

    /** ROLLBACK to the state a transaction began with. */
    method Rollback(before: Db)
      modifies this
      ensures State() == before
    {
      tasks, sessions, prompts := before.tasks, before.sessions, before.prompts;
      attempts, runners, checkpoints := before.attempts, before.runners, before.checkpoints;
    }

    // ----------------------------------------------------------------- UPDATE

    method UpdateAttempts(hits: set<AttemptId>, clause: SetAttempt)
      requires hits <= attempts.Keys
      modifies this`attempts
      ensures State() == Sql.UpdateAttempts(old(State()), hits, clause)
    {
      var todo := hits;
      while todo != {}
        invariant todo <= hits && attempts.Keys == old(attempts).Keys
        invariant forall i :: i in attempts ==>
          attempts[i] == if i in hits - todo then WithAttempt(clause, old(attempts)[i]) else old(attempts)[i]
      {
        var i :| i in todo;
        attempts := attempts[i := WithAttempt(clause, attempts[i])];
        todo := todo - {i};
      }
      assert attempts == Sql.UpdateAttempts(old(State()), hits, clause).attempts;
    }

    method UpdateTasks(hits: set<TaskId>, clause: SetTask)
      requires hits <= tasks.Keys
      modifies this`tasks
      ensures State() == Sql.UpdateTasks(old(State()), hits, clause)
    {
      var todo := hits;
      while todo != {}
        invariant todo <= hits && tasks.Keys == old(tasks).Keys
        invariant forall t :: t in tasks ==>
          tasks[t] == if t in hits - todo then WithTask(clause, old(tasks)[t]) else old(tasks)[t]
      {
        var t :| t in todo;
        tasks := tasks[t := WithTask(clause, tasks[t])];
        todo := todo - {t};
      }
      assert tasks == Sql.UpdateTasks(old(State()), hits, clause).tasks;
    }

    method UpdatePrompts(hits: set<PromptId>, clause: SetPrompt)
      requires hits <= prompts.Keys
      modifies this`prompts
      ensures State() == Sql.UpdatePrompts(old(State()), hits, clause)
    {
      var todo := hits;
      while todo != {}
        invariant todo <= hits && prompts.Keys == old(prompts).Keys
        invariant forall p :: p in prompts ==>
          prompts[p] == if p in hits - todo then WithPrompt(clause, old(prompts)[p]) else old(prompts)[p]
      {
        var p :| p in todo;
        prompts := prompts[p := WithPrompt(clause, prompts[p])];
        todo := todo - {p};
      }
      assert prompts == Sql.UpdatePrompts(old(State()), hits, clause).prompts;
    }

    method UpdateSessions(hits: set<SessionId>, clause: SetSession)
      requires hits <= sessions.Keys
      modifies this`sessions
      ensures State() == Sql.UpdateSessions(old(State()), hits, clause)
    {
      var todo := hits;
      while todo != {}
        invariant todo <= hits && sessions.Keys == old(sessions).Keys
        invariant forall s :: s in sessions ==>
          sessions[s] == if s in hits - todo then WithSession(clause, old(sessions)[s]) else old(sessions)[s]
      {
        var s :| s in todo;
        sessions := sessions[s := WithSession(clause, sessions[s])];
        todo := todo - {s};
      }
      assert sessions == Sql.UpdateSessions(old(State()), hits, clause).sessions;
    }

    // ----------------------------------------------------------------- SELECT

    method SelectLatestSession(t: TaskId) returns (s: Option<SessionId>)
      ensures s == LatestSession(State(), t)
    {
      s := SelectLast(SessionRanks(State(), t));
    }

    method SelectLatestPrompt(t: TaskId) returns (p: Option<PromptId>)
      ensures p == LatestPrompt(State(), t)
    {
      p := SelectLast(PromptRanks(State(), t));
    }

    method SelectNextSessionNumber(t: TaskId) returns (n: int)
      ensures n == NextSessionNumber(State(), t)
    {
      var s := SelectLatestSession(t);
      n := if s.Some? then sessions[s.value].number + 1 else 1;
    }

    /** INSERT of a session, its prompt and its attempt; false on a duplicate key. */
    method InsertChain(ids: Ids, session: Session, timeout: int, now: Time) returns (ok: bool)
      modifies this
      ensures var outcome := Transactions.InsertChain(old(State()), ids, session, timeout, now);
        ok == outcome.Committed? && (ok ==> State() == outcome.db) && runners == old(runners) && checkpoints == old(checkpoints)
    {
      if ids.session in sessions || ids.prompt in prompts || ids.attempt in attempts {
        return false;
      }
      sessions := sessions[ids.session := session];
      prompts := prompts[ids.prompt := Prompt(session.task, ids.session, 1, PromptStatus.Pending, false)];
      attempts := attempts[ids.attempt := NewAttempt(ids.prompt, Anyone, timeout, now)];
      return true;
    }

    // ------------------------------------------------------------ transactions

    /** SubmitTask and RerunTask. */
    method SubmitTask(t: TaskId, ids: Ids, mode: Mode, isolated: bool, expires: Option<Time>, timeout: int, maxAttempts: int, now: Time)
      returns (ok: bool)
      modifies this
      ensures var outcome := SubmitTx(old(State()), t, ids, mode, isolated, expires, timeout, maxAttempts, now);
        ok == outcome.Committed? && State() == if ok then outcome.db else old(State())
    {
      var before := State();
      if t in tasks {
        return false;
      }
      tasks := tasks[t := Task(TaskStatus.Pending, None, maxAttempts)];
      ok := InsertChain(ids, NewSession(t, 1, mode, isolated, expires, now), timeout, now);
      if !ok {
        Rollback(before);
      }
    }

    /** CancelTask. */
    method CancelTask(t: TaskId, now: Time) returns (ok: bool)
      modifies this
      ensures var outcome := CancelTx(old(State()), t, now);
        ok == outcome.Committed? && State() == if ok then outcome.db else old(State())
    {
      var before := State();
      var hits := ActiveAttemptsOf(State(), t);
      UpdateAttempts(hits, CancelAttempt(now));
      if hits == {} {
        Rollback(before);
        return false;
      }
      var row := ActiveTaskRow(State(), t);
      UpdateTasks(row, SetTask.CancelTask);
      if row == {} {
        Rollback(before);
        return false;
      }
      return true;
    }

    /** ClearQueue, for an administrator. */
    method ClearQueue(admin: bool, now: Time) returns (cancelled: Option<nat>)
      modifies this
      ensures cancelled == if admin then Some(|PendingTasks(old(State()))|) else None
      ensures State() == if admin then ClearQueueTx(old(State()), now) else old(State())
    {
      if !admin {
        return None;
      }
      UpdateAttempts(PendingAttempts(State()), CancelAttempt(now));
      var row := PendingTasks(State());
      UpdateTasks(row, SetTask.CancelTask);
      assert row == PendingTasks(old(State()));
      return Some(|row|);
    }

    /** GetClaimableExecutionAttemptForUpdate: the oldest row no one else locks. */
    method SelectClaimable(r: RunnerId, capable: bool, locked: set<AttemptId>) returns (next: Option<AttemptId>)
      ensures next.Some? ==> IsNext(State(), r, capable, locked, next.value)
      ensures next.None? <==> ClaimableAttempts(State(), r, capable, locked) == {}
    {
      next := None;
      var all := ClaimableAttempts(State(), r, capable, locked);
      var todo := all;
      while todo != {}
        invariant todo <= all && (next.None? <==> todo == all)
        invariant next.Some? ==> next.value in all - todo
        invariant next.Some? ==> forall k :: k in all - todo ==> attempts[next.value].created <= attempts[k].created
        decreases todo
      {
        var i :| i in todo;
        if next.None? || attempts[i].created < attempts[next.value].created {
          next := Some(i);
        }
        todo := todo - {i};
      }
    }

    /** claimOnce. draining is the answer of the drain gate; the runner's isolation
        capability is read before the locking select. */
    method ClaimOnce(r: RunnerId, draining: bool, locked: set<AttemptId>, c: ClaimId, lease: Time, now: Time)
      returns (claimed: Option<AttemptId>)
      modifies this
      ensures var capable := r in old(runners) && old(runners)[r].isolated;
        if claimed.None? then
          State() == old(State())
          && (draining || ClaimableAttempts(old(State()), r, capable, locked) == {}
              || exists i :: IsNext(old(State()), r, capable, locked, i) && ClaimTx(old(State()), i, r, c, lease, now).RolledBack?)
        else
          !draining && IsNext(old(State()), r, capable, locked, claimed.value)
          && ClaimTx(old(State()), claimed.value, r, c, lease, now) == Committed(State())
    {
      if draining {
        return None;
      }
      var capable := r in runners && runners[r].isolated;
      var next := SelectClaimable(r, capable, locked);
      if next.None? {
        return None;
      }
      var i := next.value;
      var p := prompts[attempts[i].prompt];
      ghost var outcome := ClaimTx(State(), i, r, c, lease, now);
      if |AttemptsOf(State(), p.task)| > tasks[p.task].maxAttempts {
        assert outcome.RolledBack?;
        return None;
      }
      if p.session !in sessions {
        assert outcome.RolledBack?;
        return None;
      }
      UpdateAttempts(PendingAttempt(State(), i), ClaimAttempt(r, c, now + lease, now));
      UpdateTasks(PendingTaskRow(State(), p.task), RunTask);
      MarkLatestPromptRunning(p.task);
      return Some(i);
    }

    /** MarkUserPromptRunningByTask. */
    method MarkLatestPromptRunning(t: TaskId)
      modifies this`prompts
      ensures State() == Sql.UpdatePrompts(old(State()), LatestQueuedPrompt(old(State()), t), SetPromptStatus(PromptStatus.Running))
    {
      var latest := SelectLatestPrompt(t);
      var hits := if latest.Some? && (prompts[latest.value].status.Pending? || prompts[latest.value].status.Claimed?)
                  then {latest.value} else {};
      assert hits == LatestQueuedPrompt(State(), t);
      UpdatePrompts(hits, SetPromptStatus(PromptStatus.Running));
    }

    // -------------------------------------------------------------- heartbeats

    /** UpsertRunnerHeartbeat. */
    method UpsertRunner(r: RunnerId, row: Runner)
      modifies this`runners
      ensures State() == old(State()).(runners := old(runners)[r := row])
    {
      runners := runners[r := row];
    }

    /** RenewExecutionAttemptLease. */
    method RenewLease(i: AttemptId, r: RunnerId, c: ClaimId, now: Time) returns (renewed: bool)
      modifies this`attempts
      ensures State() == RenewStmt(old(State()), i, r, c, now)
      ensures renewed <==> HeldBy(old(State()), i, r, c)
    {
      var hits := RenewableAttempt(State(), i, r, c);
      UpdateAttempts(hits, RenewAttempt(now + TASK_LEASE));
      renewed := hits != {};
      assert renewed ==> i in hits;
    }

    /** The executions a heartbeat reports: their attempts with the claimed chain. */
    predicate Matches(r: RunnerId, x: Execution)
      reads this
    {
      x.attempt in attempts && attempts[x.attempt].runner == Some(r) && attempts[x.attempt].claim == Some(x.claim)
      && attempts[x.attempt].prompt == x.prompt && x.prompt in prompts
      && prompts[x.prompt].session == x.session && prompts[x.prompt].task == x.task
    }

    /** Some execution of attempt i was renewed. */
    predicate Renewed(executions: seq<Execution>, stop: seq<bool>, i: AttemptId)
    {
      exists k :: 0 <= k < |executions| && k < |stop| && executions[k].attempt == i && !stop[k]
    }

    /** runnerCommands: every reported execution is either renewed or told to stop. */
    method RunnerCommands(r: RunnerId, executions: seq<Execution>, now: Time) returns (stop: seq<bool>)
      modifies this`attempts
      ensures |stop| == |executions|
      ensures forall k :: 0 <= k < |executions| ==>
        (!stop[k] <==> old(Matches(r, executions[k])) && old(attempts)[executions[k].attempt].status.Running?)
      ensures attempts.Keys == old(attempts).Keys
      ensures forall i :: i in attempts ==>
        attempts[i] == if Renewed(executions, stop, i) then WithAttempt(RenewAttempt(now + TASK_LEASE), old(attempts)[i]) else old(attempts)[i]
    {
      stop := [];
      for k := 0 to |executions|
        invariant |stop| == k && attempts.Keys == old(attempts).Keys
        invariant forall l :: 0 <= l < k ==>
          (!stop[l] <==> old(Matches(r, executions[l])) && old(attempts)[executions[l].attempt].status.Running?)
        invariant forall i :: i in attempts ==>
          attempts[i] == if Renewed(executions, stop, i) then WithAttempt(RenewAttempt(now + TASK_LEASE), old(attempts)[i]) else old(attempts)[i]
      {
        ghost var told := stop;
        var x := executions[k];
        var renewed := false;
        if Matches(r, x) && attempts[x.attempt].status.Running? {
          renewed := RenewLease(x.attempt, r, x.claim, now);
        }
        stop := stop + [!renewed];
        assert forall i :: Renewed(executions, stop, i) <==> Renewed(executions, told, i) || (i == x.attempt && renewed);
      }
    }

    // ------------------------------------------------------------ runner events

    /** The statements that act on the latest session of a task while it is open. */
    method UpdateLatestOpenSession(t: TaskId, clause: SetSession)
      modifies this`sessions
      ensures State() == Sql.UpdateSessions(old(State()), LatestOpenSession(old(State()), t), clause)
    {
      var latest := SelectLatestSession(t);
      var hits := if latest.Some? && Open(sessions[latest.value]) then {latest.value} else {};
      assert hits == LatestOpenSession(State(), t);
      UpdateSessions(hits, clause);
    }

    /** MarkUserPromptTerminalByTask. */
    method EndLatestPrompt(t: TaskId, clause: SetPrompt)
      modifies this`prompts
      ensures State() == Sql.UpdatePrompts(old(State()), LatestPromptRow(old(State()), t), clause)
    {
      var latest := SelectLatestPrompt(t);
      var hits := if latest.Some? then {latest.value} else {};
      assert hits == LatestPromptRow(State(), t);
      UpdatePrompts(hits, clause);
    }

    /** The end of the prompt and the session in recordTaskEvent. */
    method FinishPromptAndSession(e: Event, ended: (PromptStatus, SessionStatus), checkpoint: CheckpointId, now: Time) returns (ok: bool)
      modifies this
      ensures var outcome := EndPromptAndSession(old(State()), e, ended, checkpoint, now);
        ok == outcome.Committed? && (ok ==> State() == outcome.db)
    {
      EndLatestPrompt(e.task, EndPrompt(ended.0, e.transcript));
      var latest := SelectLatestSession(e.task);
      if latest.Some? {
        var mode := sessions[latest.value].mode;
        var clause := EndSession(ended.1, e.harness, now);
        if e.workspace {
          if ended.1.Error? && RecoverableError(e.category) && mode.HarnessSession? && e.harness {
            clause := ParkSession(SessionStatus.Recoverable, e.runner, false, e.harness, now);
          } else if ended.1.Completed? && mode.GvisorCheckpoint? && e.checkpoint {
            if checkpoint in checkpoints {
              return false;
            }
            checkpoints := checkpoints[checkpoint := Checkpoint(latest.value, true)];
            clause := ParkSession(SessionStatus.Paused, e.runner, true, e.harness, now);
          } else if ended.1.Completed? && !mode.NotResumable? {
            clause := ParkSession(SessionStatus.Paused, e.runner, false, e.harness, now);
          }
        }
        UpdateLatestOpenSession(e.task, clause);
      }
      return true;
    }

    /** recordTaskEvent. */
    method RecordTaskEvent(e: Event, checkpoint: CheckpointId, now: Time, clock: Time) returns (ok: bool)
      modifies this
      ensures var outcome := RecordEventTx(old(State()), e, checkpoint, now, clock);
        ok == outcome.Committed? && State() == if ok then outcome.db else old(State())
    {
      var before := State();
      if !OwnedAsReported(State(), e) {
        return false;
      }
      var hits := ReportableAttempt(State(), e, clock);
      UpdateAttempts(hits, ReportAttempt(e, now));
      if hits == {} {
        Rollback(before);
        return false;
      }
      var row := ReportableTaskRow(State(), e.task, EventStatus(e));
      assert row == ReportableTaskRow(before, e.task, EventStatus(e));
      UpdateTasks(row, ReportTask(EventStatus(e), e.category));
      if row == {} {
        Rollback(before);
        return false;
      }
      assert State() == AfterReport(before, e, now, clock);
      UpdateLatestOpenSession(e.task, TouchSession(e.harness, now));
      var ended := EndOf(EventStatus(e));
      if ended.Some? {
        ok := FinishPromptAndSession(e, ended.value, checkpoint, now);
        if !ok {
          Rollback(before);
        }
      } else {
        ok := true;
      }
    }

    // -------------------------------------------------------------- lease reaper

    /** ListReclaimableExecutionAttemptsForUpdate, ORDER BY lease_expires_at. */
    method ListReclaimable(now: Time) returns (order: seq<AttemptId>)
      ensures IsListing(State(), now, order)
    {
      order := [];
      var all := Candidates(State(), now);
      var todo := all;
      while todo != {}
        invariant todo <= all && all <= attempts.Keys
        invariant forall k :: 0 <= k < |order| ==> order[k] in all && order[k] !in todo
        invariant forall i :: i in all ==> i in todo || i in order
        invariant forall k, l :: 0 <= k < l < |order| ==> order[k] != order[l] && LeaseOf(State(), order[k]) <= LeaseOf(State(), order[l])
        invariant forall k, i :: 0 <= k < |order| && i in todo ==> LeaseOf(State(), order[k]) <= LeaseOf(State(), i)
        decreases todo
      {
        var first := Earliest(todo);
        order := order + [first];
        todo := todo - {first};
      }
    }

    method Earliest(ids: set<AttemptId>) returns (first: AttemptId)
      requires ids != {} && ids <= attempts.Keys
      ensures first in ids && forall i :: i in ids ==> LeaseOf(State(), first) <= LeaseOf(State(), i)
    {
      first :| first in ids;
      var todo := ids - {first};
      while todo != {}
        invariant first in ids && todo <= ids
        invariant forall i :: i in ids - todo ==> LeaseOf(State(), first) <= LeaseOf(State(), i)
        decreases todo
      {
        var i :| i in todo;
        if LeaseOf(State(), i) < LeaseOf(State(), first) {
          first := i;
        }
        todo := todo - {i};
      }
    }

    /** One candidate of the reclaim loop; false when the transaction must fail. */
    method Reclaim(i: AttemptId, ids: Ids, now: Time) returns (ok: bool)
      modifies this
      ensures var outcome := ReclaimOne(old(State()), i, ids, now);
        ok == outcome.Committed? && (ok ==> State() == outcome.db)
    {
      ghost var before := State();
      if i !in attempts || attempts[i].prompt !in prompts {
        return false;
      }
      var t := prompts[attempts[i].prompt].task;
      if Exhausted(State(), i) {
        return true;
      }
      if DeliberatelyDrained(State(), attempts[i].runner) {
        return true;
      }
      var oldSession := SelectLatestSession(t);
      var oldPrompt := SelectLatestPrompt(t);
      if oldSession.None? || oldPrompt.None? {
        return false;
      }
      var number := SelectNextSessionNumber(t);
      var timeout, row := attempts[i].timeout, sessions[oldSession.value];
      var lost := RunningAttempt(State(), i);
      UpdateAttempts(lost, LoseAttempt(now));
      if lost == {} {
        return false;
      }
      var requeued := RunningTaskRow(State(), t);
      assert requeued == RunningTaskRow(before, t);
      UpdateTasks(requeued, RequeueTask);
      if requeued == {} {
        return false;
      }
      UpdatePrompts(UnfinishedPrompt(State(), oldPrompt.value), SetPromptStatus(PromptStatus.Failed));
      UpdateSessions(OpenSession(State(), oldSession.value), SetSessionStatus(SessionStatus.Abandoned, now));
      assert State() == GiveUp(before, i, t, oldPrompt.value, oldSession.value, now);
      ok := InsertChain(ids, NewSession(t, number, row.mode, row.isolated, row.expires, now), timeout, now);
    }

    /** The reclaim loop; false when one candidate makes the transaction fail. */
    method ReclaimEach(order: seq<AttemptId>, drawn: seq<Ids>, now: Time) returns (ok: bool)
      requires |order| == |drawn|
      modifies this
      ensures var outcome := ReclaimAll(old(State()), order, drawn, now);
        ok == outcome.Committed? && (ok ==> State() == outcome.db)
    {
      ghost var outcome := ReclaimAll(State(), order, drawn, now);
      for k := 0 to |order|
        invariant outcome == ReclaimAll(State(), order[k..], drawn[k..], now)
      {
        assert order[k..][1..] == order[k + 1..] && drawn[k..][1..] == drawn[k + 1..];
        ok := Reclaim(order[k], drawn[k], now);
        if !ok {
          return;
        }
      }
      ok := true;
    }

    /** reapExpiredLeases; draw gives the random ids of the k-th candidate. */
    method ReapExpiredLeases(auto: bool, draw: nat -> Ids, now: Time) returns (ok: bool, order: seq<AttemptId>)
      modifies this
      ensures IsListing(old(State()), now, order)
      ensures var outcome := ReapLeasesTx(old(State()), auto, order, seq(|order|, draw), now);
        ok == outcome.Committed? && State() == if ok then outcome.db else old(State())
    {
      var before := State();
      order := ListReclaimable(now);
      if auto {
        ok := ReclaimEach(order, seq(|order|, draw), now);
        if !ok {
          Rollback(before);
          return;
        }
      }
      FailExpiredRows(auto, now);
      ok := true;
    }

    /** The statements after the loop. */
    method FailExpiredRows(auto: bool, now: Time)
      modifies this
      ensures State() == FailExpired(old(State()), auto, now)
    {
      if auto {
        UpdateAttempts(ExhaustedAttempts(State(), now), FailAttempt(Timeout, now));
      } else {
        UpdateAttempts(ExpiredAttempts(State(), now), FailAttempt(Timeout, now));
      }
      UpdateTasks(TasksWithExpiredLease(State(), now), FailTask(Timeout));
    }

    // ------------------------------------------------------------- other reapers

    /** reapUnavailablePinnedResumeTasks. */
    method ReapUnavailablePinnedResumeTasks(now: Time, clock: Time)
      modifies this
      ensures State() == ReapPinnedTx(old(State()), now, clock)
    {
      UpdateAttempts(AttemptsMissingRunner(State(), clock), FailAttempt(RunnerUnavailable, now));
      UpdateTasks(PendingTasksFailedFor(State(), RunnerUnavailable), FailTask(RunnerUnavailable));
      UpdatePrompts(PromptsOfUnavailable(State()), SetPromptStatus(PromptStatus.Failed));
      UpdateSessions(SessionsOfUnavailable(State()), SetSessionStatus(SessionStatus.Error, now));
    }

    /** reapIsolationUnavailableTasks. */
    method ReapIsolationUnavailableTasks(now: Time, clock: Time)
      modifies this
      ensures State() == ReapIsolationTx(old(State()), now, clock)
    {
      UpdateAttempts(AttemptsWithoutIsolation(State(), clock), FailAttempt(IsolationUnavailable, now));
      UpdateTasks(PendingTasksFailedFor(State(), IsolationUnavailable), FailTask(IsolationUnavailable));
    }

    /** ReapStaleTasks. */
    method ReapStaleTasks(now: Time, clock: Time) returns (affected: nat)
      modifies this
      ensures State() == ReapOverrunTx(old(State()), now, clock)
    {
      UpdateAttempts(OverrunAttempts(State(), clock), FailAttempt(Timeout, now));
      var row := TasksOfOverrun(State(), now);
      UpdateTasks(row, FailTask(Timeout));
      return |row|;
    }

    /** reapStaleUserPrompts: three statements, each on its own. */
    method ReapStaleUserPrompts(now: Time)
      modifies this
      ensures State() == ReapSessionsStmt(RevertPromptsStmt(ReapPromptsStmt(old(State()))), now)
    {
      UpdatePrompts(RunningPromptsOfReopenable(State()), FollowTask(tasks));
      UpdatePrompts(RunningPromptsOfPending(State()), SetPromptStatus(PromptStatus.Pending));
      UpdateSessions(SessionsOfEnded(State()), FollowTaskStatus(tasks, now));
    }

    /** reapExpiredSessions. */
    method ReapExpiredSessions(now: Time) returns (n: nat)
      modifies this
      ensures State() == ExpireSessionsStmt(old(State()), now) && n == |ExpirableSessions(old(State()), now)|
    {
      var hits := ExpirableSessions(State(), now);
      UpdateSessions(hits, SetSessionStatus(SessionStatus.Expired, now));
      return |hits|;
    }

    /** reapExpiredSessionArtifacts; a ttl of zero disables it. */
    method ReapExpiredSessionArtifacts(clock: Time, ttl: int)
      modifies this
      ensures State() ==
        if ttl <= 0 then old(State())
        else CollectAttemptsStmt(CollectPromptsStmt(CollectCheckpointsStmt(old(State()), clock, ttl), clock, ttl), clock, ttl)
    {
      if ttl <= 0 {
        return;
      }
      ClearCheckpoints(CollectableSessions(State(), clock, ttl));
      UpdatePrompts(CollectablePrompts(State(), clock, ttl), DropPromptExport);
      UpdateAttempts(CollectableAttempts(State(), clock, ttl), DropAttemptExport);
    }

    /** ClearExpiredSessionCheckpoints for the given sessions. */
    method ClearCheckpoints(collected: set<SessionId>)
      modifies this`checkpoints
      ensures checkpoints == map k | k in old(checkpoints) ::
        if old(checkpoints)[k].session in collected then old(checkpoints)[k].(path := false) else old(checkpoints)[k]
    {
      var todo := checkpoints.Keys;
      while todo != {}
        invariant todo <= old(checkpoints).Keys == checkpoints.Keys
        invariant forall k :: k in checkpoints ==>
          checkpoints[k] == Cleared(old(checkpoints)[k], k !in todo && old(checkpoints)[k].session in collected)
      {
        var k :| k in todo;
        if checkpoints[k].session in collected {
          checkpoints := checkpoints[k := checkpoints[k].(path := false)];
        }
        todo := todo - {k};
      }
    }

    // --------------------------------------------------------- operator requests

    /** ExtendTaskTimeout: the extension must be positive and hit a row. */
    method ExtendTaskTimeout(t: TaskId, seconds: int) returns (ok: bool)
      modifies this`attempts
      ensures ok <==> seconds > 0 && ActiveAttemptsOf(old(State()), t) != {}
      ensures State() == if seconds > 0 then ExtendStmt(old(State()), t, seconds) else old(State())
    {
      if seconds <= 0 {
        return false;
      }
      var hits := ActiveAttemptsOf(State(), t);
      UpdateAttempts(hits, ExtendAttempt(seconds));
      return hits != {};
    }

    /** RecoverTask. */
    method RecoverTask(t: TaskId, ids: Ids, defaultTimeout: int, now: Time) returns (ok: bool)
      modifies this
      ensures var outcome := RecoverTx(old(State()), t, ids, defaultTimeout, now);
        ok == outcome.Committed? && State() == if ok then outcome.db else old(State())
    {
      var before := State();
      var s := SelectLatestSession(t);
      var p := SelectLatestPrompt(t);
      if s.None? || p.None? || !prompts[p.value].transcript {
        return false;
      }
      var timeout := defaultTimeout;
      var last := SelectLast(AttemptRanks(State(), p.value));
      if last.Some? {
        timeout := attempts[last.value].timeout;
      }
      var number := SelectNextSessionNumber(t);
      var source := sessions[s.value];
      var row := ReopenableTaskRow(State(), t);
      UpdateTasks(row, RequeueTask);
      if row == {} {
        Rollback(before);
        return false;
      }
      var expires := if source.mode.NotResumable? then None else Some(now + 72 * 3600);
      ok := InsertChain(ids, NewSession(t, number, source.mode, source.isolated, expires, now), timeout, now);
      if !ok {
        Rollback(before);
      }
    }

    /** ResumeAgentSession's transaction, for the task and the runner read before. */
    method ResumeTransaction(s: SessionId, t: TaskId, r: RunnerId, p: PromptId, i: AttemptId, timeout: int, now: Time) returns (ok: bool)
      modifies this
      ensures var outcome := ResumeTx(old(State()), s, t, r, p, i, timeout, now);
        ok == outcome.Committed? && State() == if ok then outcome.db else old(State())
    {
      var before := State();
      var last := SelectLast(PromptRanksIn(State(), s));
      var number := if last.Some? then prompts[last.value].number + 1 else 1;
      var row := ReopenableTaskRow(State(), t);
      UpdateTasks(row, RequeueTask);
      if row == {} || p in prompts || i in attempts {
        Rollback(before);
        return false;
      }
      prompts := prompts[p := Prompt(t, s, number, PromptStatus.Pending, false)];
      attempts := attempts[i := NewAttempt(p, Only(r), timeout, now)];
      var hits := ParkedSession(State(), s);
      assert hits == ParkedSession(before, s);
      UpdateSessions(hits, SetSessionStatus(SessionStatus.Resuming, now));
      if hits == {} {
        Rollback(before);
        return false;
      }
      return true;
    }

    /** ResumeAgentSession: the checks come first, and the transaction again guards
        the session's status. */
    method ResumeAgentSession(s: SessionId, p: PromptId, i: AttemptId, timeout: int, now: Time, clock: Time) returns (ok: bool)
      modifies this
      ensures !MayResume(old(State()), s, clock) ==> !ok && State() == old(State())
      ensures MayResume(old(State()), s, clock) ==>
        var session := old(sessions)[s];
        var outcome := ResumeTx(old(State()), s, session.task, session.pinned.value, p, i, timeout, now);
        ok == outcome.Committed? && State() == if ok then outcome.db else old(State())
    {
      if !MayResume(State(), s, clock) {
        return false;
      }
      ok := ResumeTransaction(s, sessions[s].task, sessions[s].pinned.value, p, i, timeout, now);
    }
  }

  function Cleared(row: Checkpoint, clear: bool): Checkpoint {
    if clear then row.(path := false) else row
  }

  datatype Execution = Execution(attempt: AttemptId, task: TaskId, session: SessionId, prompt: PromptId, claim: ClaimId)
}
