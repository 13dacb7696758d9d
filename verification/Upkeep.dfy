/** The rows each reaper statement writes: exactly which, and what they become. */
module Upkeep {
  import opened Basics
  import opened Tables
  import opened Transactions
  import opened Integrity

  // ------------------------------------------------------------------- sessions

  predicate Waits(s: Session) {
    s.status.Paused? || s.status.Recoverable? || s.status.AwaitingReview?
  }

  /** A prompt of session s, or an attempt of one, is still on its way. */
  predicate UnderWay(db: Db, s: SessionId) {
    || (exists p :: p in db.prompts && db.prompts[p].session == s
          && (db.prompts[p].status.Pending? || db.prompts[p].status.Claimed? || db.prompts[p].status.Running?))
    || (exists i :: i in db.attempts && db.attempts[i].prompt in db.prompts && db.prompts[db.attempts[i].prompt].session == s
          && (db.attempts[i].status.Pending? || db.attempts[i].status.Running?))
  }

  /** A session expires exactly when it is parked, its time is up, and nothing of it is
      under way; nothing else changes. */
  lemma ExpiryIsExact(db: Db, now: Time, s: SessionId)
    requires s in db.sessions
    ensures var db', row := ExpireSessionsStmt(db, now), db.sessions[s];
      && db' == db.(sessions := db'.sessions) && db'.sessions.Keys == db.sessions.Keys
      && db'.sessions[s] == if Waits(row) && row.expires.Some? && row.expires.value < now && !UnderWay(db, s)
                            then row.(status := SessionStatus.Expired, updated := now) else row
  {
    assert Busy(db, s) <==> UnderWay(db, s);
  }

  /** The stale statements of prompts and sessions, in the order of the reaper. */
  function Settled(db: Db, now: Time): Db {
    ReapSessionsStmt(RevertPromptsStmt(ReapPromptsStmt(db)), now)
  }

  /** A running prompt follows its task: completed, failed or cancelled with a task that
      is over, pending again with one that is, and otherwise as it was. */
  lemma PromptsFollowTasks(db: Db, now: Time, p: PromptId)
    requires p in db.prompts && db.prompts[p].task in db.tasks
    ensures var db', row := Settled(db, now), db.prompts[p];
      var task := db.tasks[row.task].status;
      && db' == db.(prompts := db'.prompts, sessions := db'.sessions)
      && db'.prompts.Keys == db.prompts.Keys && db'.sessions.Keys == db.sessions.Keys
      && db'.prompts[p] == if !row.status.Running? then row
                           else if task.Done? then row.(status := PromptStatus.Completed)
                           else if task.Error? then row.(status := PromptStatus.Failed)
                           else if task.Cancelled? then row.(status := PromptStatus.Cancelled)
                           else if task.Pending? then row.(status := PromptStatus.Pending)
                           else row
  {
    var db1 := ReapPromptsStmt(db);
    var db2 := RevertPromptsStmt(db1);
    assert db1.tasks == db.tasks && db2.tasks == db.tasks;
    assert Settled(db, now).prompts == db2.prompts;
  }

  /** A running session ends exactly when one of its prompts is over in a task that is:
      completed with its own task done, and in error otherwise. */
  lemma SessionsFollowTasks(db: Db, now: Time, s: SessionId)
    requires s in db.sessions && db.sessions[s].task in db.tasks
    ensures var db', row := ReapSessionsStmt(db, now), db.sessions[s];
      && db' == db.(sessions := db'.sessions) && db'.sessions.Keys == db.sessions.Keys
      && (if row.status.Running? && HasEnded(db, s)
          then db'.sessions[s] == row.(updated := now,
                 status := if db.tasks[row.task].status.Done? then SessionStatus.Completed else SessionStatus.Error)
          else db'.sessions[s] == row)
  {
    assert s in SessionsOfEnded(db) <==> db.sessions[s].status.Running? && HasEnded(db, s);
  }

  predicate HasEnded(db: Db, s: SessionId) {
    exists p :: p in db.prompts && db.prompts[p].session == s
      && (db.prompts[p].status.Failed? || db.prompts[p].status.Completed? || db.prompts[p].status.Cancelled?)
      && db.prompts[p].task in db.tasks
      && (db.tasks[db.prompts[p].task].status.Done? || db.tasks[db.prompts[p].task].status.Error? || db.tasks[db.prompts[p].task].status.Cancelled?)
  }

  // ------------------------------------------------------------- failing attempts

  /** An attempt, and a task, as a reaper fails them. */
  function Reaped(a: Attempt, reason: Category, now: Time): Attempt {
    a.(status := AttemptStatus.Error, category := Some(reason), ended := Some(now))
  }

  function TaskReaped(t: Task, reason: Category): Task {
    t.(status := TaskStatus.Error, category := Some(reason))
  }

  /** A resumed attempt waits for a runner that is not active, or has not been heard of
      for a minute. */
  predicate RunnerGone(db: Db, i: AttemptId, clock: Time) {
    && i in db.attempts && db.attempts[i].status.Pending? && db.attempts[i].required.Only?
    && db.attempts[i].prompt in db.prompts && db.prompts[db.attempts[i].prompt].session in db.sessions
    && db.sessions[db.prompts[db.attempts[i].prompt].session].status.Resuming?
    && var r := db.attempts[i].required.runner;
       !(r in db.runners && db.runners[r].status.Active? && clock < db.runners[r].seen + 60)
  }

  /** An attempt of a session that needs isolation waits while no runner that has it was
      heard of within a minute, active or on its way out. */
  predicate NoIsolation(db: Db, i: AttemptId, clock: Time) {
    && i in db.attempts && db.attempts[i].status.Pending?
    && db.attempts[i].prompt in db.prompts && db.prompts[db.attempts[i].prompt].session in db.sessions
    && db.sessions[db.prompts[db.attempts[i].prompt].session].isolated
    && forall r :: r in db.runners && db.runners[r].isolated
         && (db.runners[r].status.Active? || db.runners[r].status.Draining? || db.runners[r].status.Stopping?)
         ==> db.runners[r].seen + 60 <= clock
  }

  /** Task t owns an attempt that a reaper failed for this reason, before or now. */
  ghost predicate OwnsFailure(db: Db, t: TaskId, reason: Category, hits: set<AttemptId>) {
    exists i :: Owns(db, t, i) && (i in hits || (db.attempts[i].status.Error? && db.attempts[i].category == Some(reason)))
  }

  lemma PendingFailures(db: Db, hits: set<AttemptId>, reason: Category, now: Time, db1: Db, db2: Db)
    requires db1 == UpdateAttempts(db, hits, FailAttempt(reason, now)) && hits <= db.attempts.Keys
    requires db2 == UpdateTasks(db1, PendingTasksFailedFor(db1, reason), FailTask(reason))
    ensures db2 == db.(attempts := db2.attempts, tasks := db2.tasks) && db2.attempts.Keys == db.attempts.Keys && db2.tasks.Keys == db.tasks.Keys
    ensures forall i :: i in db.attempts ==> db2.attempts[i] == if i in hits then Reaped(db.attempts[i], reason, now) else db.attempts[i]
    ensures forall t :: t in db.tasks ==>
      db2.tasks[t] == if db.tasks[t].status.Pending? && OwnsFailure(db, t, reason, hits) then TaskReaped(db.tasks[t], reason) else db.tasks[t]
  {
    forall t | t in db.tasks
      ensures t in PendingTasksFailedFor(db1, reason) <==> db.tasks[t].status.Pending? && OwnsFailure(db, t, reason, hits)
    {
      FailureIsOwned(db, hits, reason, now, db1, t);
    }
  }

  lemma FailureIsOwned(db: Db, hits: set<AttemptId>, reason: Category, now: Time, db1: Db, t: TaskId)
    requires db1 == UpdateAttempts(db, hits, FailAttempt(reason, now)) && t in db.tasks
    ensures t in PendingTasksFailedFor(db1, reason) <==> db.tasks[t].status.Pending? && OwnsFailure(db, t, reason, hits)
  {
    AttemptsKeepChain(db, hits, FailAttempt(reason, now));
    SameChainFacts(db, db1);
    if OwnsFailure(db, t, reason, hits) {
      var i :| Owns(db, t, i) && (i in hits || (db.attempts[i].status.Error? && db.attempts[i].category == Some(reason)));
      assert Owns(db1, t, i) && db1.attempts[i].status.Error? && db1.attempts[i].category == Some(reason);
    }
    if t in PendingTasksFailedFor(db1, reason) {
      var i :| Owns(db1, t, i) && db1.attempts[i].status.Error? && db1.attempts[i].category == Some(reason);
      assert Owns(db, t, i);
    }
  }

  /** The isolation reaper fails exactly the attempts that no capable runner could take,
      and the pending tasks that own one, or one that failed so before. */
  lemma IsolationReapIsExact(db: Db, now: Time, clock: Time)
    ensures var db', hits := ReapIsolationTx(db, now, clock), set i | i in db.attempts && NoIsolation(db, i, clock);
      && db' == db.(attempts := db'.attempts, tasks := db'.tasks) && db'.attempts.Keys == db.attempts.Keys && db'.tasks.Keys == db.tasks.Keys
      && (forall i :: i in db.attempts ==>
            db'.attempts[i] == if NoIsolation(db, i, clock) then Reaped(db.attempts[i], IsolationUnavailable, now) else db.attempts[i])
      && (forall t :: t in db.tasks ==>
            db'.tasks[t] == if db.tasks[t].status.Pending? && OwnsFailure(db, t, IsolationUnavailable, hits)
                            then TaskReaped(db.tasks[t], IsolationUnavailable) else db.tasks[t])
  {
    var hits := set i | i in db.attempts && NoIsolation(db, i, clock);
    IsolationHits(db, clock);
    var db1 := UpdateAttempts(db, hits, FailAttempt(IsolationUnavailable, now));
    PendingFailures(db, hits, IsolationUnavailable, now, db1, ReapIsolationTx(db, now, clock));
  }

  lemma IsolationHits(db: Db, clock: Time)
    ensures AttemptsWithoutIsolation(db, clock) == set i | i in db.attempts && NoIsolation(db, i, clock)
  {
    assert IsolationCapable(db, clock) <==>
      !(forall r :: r in db.runners && db.runners[r].isolated
          && (db.runners[r].status.Active? || db.runners[r].status.Draining? || db.runners[r].status.Stopping?)
          ==> db.runners[r].seen + 60 <= clock);
    forall i ensures i in AttemptsWithoutIsolation(db, clock) <==> i in db.attempts && NoIsolation(db, i, clock) {
    }
  }

  // ------------------------------------------------------- the pinned-runner cascade

  predicate Lost(t: Task) {
    t.status.Error? && t.category == Some(RunnerUnavailable)
  }

  lemma MissingIsGone(db: Db, clock: Time)
    ensures AttemptsMissingRunner(db, clock) == set i | i in db.attempts && RunnerGone(db, i, clock)
  {
    forall i ensures i in AttemptsMissingRunner(db, clock) <==> i in db.attempts && RunnerGone(db, i, clock) {
    }
  }

  /** The cascade fails exactly the resumed attempts whose runner is gone, the pending
      tasks that own one, or one that failed so before, the pending prompts of tasks
      failed so, and the resuming sessions with a failed prompt of such a task. */
  lemma PinnedReapIsExact(db: Db, now: Time, clock: Time, hits: set<AttemptId>, db': Db)
    requires db' == ReapPinnedTx(db, now, clock) && hits == set i | i in db.attempts && RunnerGone(db, i, clock)
    ensures db'.attempts.Keys == db.attempts.Keys && db'.tasks.Keys == db.tasks.Keys
    ensures db'.runners == db.runners && db'.checkpoints == db.checkpoints
    ensures forall i :: i in db.attempts ==>
      db'.attempts[i] == if RunnerGone(db, i, clock) then Reaped(db.attempts[i], RunnerUnavailable, now) else db.attempts[i]
    ensures forall t :: t in db.tasks ==>
      db'.tasks[t] == if db.tasks[t].status.Pending? && OwnsFailure(db, t, RunnerUnavailable, hits)
                      then TaskReaped(db.tasks[t], RunnerUnavailable) else db.tasks[t]
    ensures PromptsFail(db, db') && SessionsFail(db, db', now)
  {
    MissingIsGone(db, clock);
    var db1 := UpdateAttempts(db, hits, FailAttempt(RunnerUnavailable, now));
    var db2 := UpdateTasks(db1, PendingTasksFailedFor(db1, RunnerUnavailable), FailTask(RunnerUnavailable));
    var db3 := UpdatePrompts(db2, PromptsOfUnavailable(db2), SetPromptStatus(PromptStatus.Failed));
    PendingFailures(db, hits, RunnerUnavailable, now, db1, db2);
    CascadeTail(db2, now, db3, db');
  }

  /** A pending prompt fails exactly when its task, as it is now, is lost. */
  ghost predicate PromptsFail(db: Db, db': Db) {
    && db'.prompts.Keys == db.prompts.Keys
    && forall p :: p in db.prompts ==>
         db'.prompts[p] == if db.prompts[p].status.Pending? && db.prompts[p].task in db'.tasks && Lost(db'.tasks[db.prompts[p].task])
                           then db.prompts[p].(status := PromptStatus.Failed) else db.prompts[p]
  }

  /** A resuming session fails exactly when one of its prompts, as they are now, has
      failed in a task that is lost. */
  ghost predicate SessionsFail(db: Db, db': Db, now: Time) {
    && db'.sessions.Keys == db.sessions.Keys
    && forall s :: s in db.sessions ==>
         db'.sessions[s] == if db.sessions[s].status.Resuming? && HasLostPrompt(db', s)
                            then db.sessions[s].(status := SessionStatus.Error, updated := now) else db.sessions[s]
  }

  predicate HasLostPrompt(db: Db, s: SessionId) {
    exists p :: p in db.prompts && db.prompts[p].session == s && db.prompts[p].status.Failed?
      && db.prompts[p].task in db.tasks && Lost(db.tasks[db.prompts[p].task])
  }

  lemma CascadeTail(db2: Db, now: Time, db3: Db, db': Db)
    requires db3 == UpdatePrompts(db2, PromptsOfUnavailable(db2), SetPromptStatus(PromptStatus.Failed))
    requires db' == UpdateSessions(db3, SessionsOfUnavailable(db3), SetSessionStatus(SessionStatus.Error, now))
    ensures db' == db2.(prompts := db'.prompts, sessions := db'.sessions)
    ensures db'.prompts.Keys == db2.prompts.Keys && db'.sessions.Keys == db2.sessions.Keys
    ensures PromptsFail(db2, db') && SessionsFail(db2, db', now)
  {
    assert db'.prompts == db3.prompts;
    forall s | s in db2.sessions ensures s in SessionsOfUnavailable(db3) <==> db2.sessions[s].status.Resuming? && HasLostPrompt(db', s) {
      assert HasLostPrompt(db', s) <==> HasLostPrompt(db3, s);
    }
  }

  // ---------------------------------------------------------------- overrun attempts

  /** Running for more than its timeout and two minutes. */
  predicate RanOver(a: Attempt, clock: Time) {
    a.status.Running? && a.started.Some? && a.started.value + a.timeout + 120 < clock
  }

  /** The overrun reaper fails exactly the attempts that ran over, and the running tasks
      that own one, or one that timed out with this very end. */
  lemma OverrunReapIsExact(db: Db, now: Time, clock: Time, t: TaskId)
    ensures var db' := ReapOverrunTx(db, now, clock);
      && db' == db.(attempts := db'.attempts, tasks := db'.tasks) && db'.attempts.Keys == db.attempts.Keys && db'.tasks.Keys == db.tasks.Keys
      && (forall i :: i in db.attempts ==>
            db'.attempts[i] == if RanOver(db.attempts[i], clock) then Reaped(db.attempts[i], Timeout, now) else db.attempts[i])
      && (t in db.tasks ==>
            db'.tasks[t] == if db.tasks[t].status.Running? && EndsNow(db, t, now, clock) then TaskReaped(db.tasks[t], Timeout) else db.tasks[t])
  {
    var db1 := UpdateAttempts(db, OverrunAttempts(db, clock), FailAttempt(Timeout, now));
    assert db1.tasks == db.tasks;
    if t in db.tasks {
      EndsNowIsOwned(db, t, now, clock, db1);
    }
  }

  ghost predicate EndsNow(db: Db, t: TaskId, now: Time, clock: Time) {
    exists i :: Owns(db, t, i)
      && (RanOver(db.attempts[i], clock)
          || (db.attempts[i].status.Error? && db.attempts[i].category == Some(Timeout) && db.attempts[i].ended == Some(now)))
  }

  lemma EndsNowIsOwned(db: Db, t: TaskId, now: Time, clock: Time, db1: Db)
    requires t in db.tasks && db1 == UpdateAttempts(db, OverrunAttempts(db, clock), FailAttempt(Timeout, now))
    ensures t in TasksOfOverrun(db1, now) <==> db.tasks[t].status.Running? && EndsNow(db, t, now, clock)
  {
    AttemptsKeepChain(db, OverrunAttempts(db, clock), FailAttempt(Timeout, now));
    SameChainFacts(db, db1);
    if EndsNow(db, t, now, clock) {
      var i :| Owns(db, t, i)
        && (RanOver(db.attempts[i], clock)
            || (db.attempts[i].status.Error? && db.attempts[i].category == Some(Timeout) && db.attempts[i].ended == Some(now)));
      assert Owns(db1, t, i) && FailedByTimeout(db1.attempts[i]) && db1.attempts[i].ended == Some(now);
    }
    if t in TasksOfOverrun(db1, now) {
      var i :| Owns(db1, t, i) && FailedByTimeout(db1.attempts[i]) && db1.attempts[i].ended == Some(now);
      assert Owns(db, t, i);
    }
  }

  // ------------------------------------------------------------------ expired leases

  /** Running under a lease that is past. */
  predicate LeaseIsPast(a: Attempt, now: Time) {
    a.status.Running? && a.lease.Some? && a.lease.value < now
  }

  predicate UsedUp(db: Db, t: TaskId) {
    t in db.tasks && db.tasks[t].maxAttempts <= |AttemptsOf(db, t)|
  }

  /** The attempts that the lease reaper fails: all whose lease is past, or, with
      automatic recovery, those among them whose task has no attempts left. */
  predicate LeaseFails(db: Db, i: AttemptId, auto: bool, now: Time) {
    && i in db.attempts && LeaseIsPast(db.attempts[i], now)
    && (!auto || (db.attempts[i].prompt in db.prompts && UsedUp(db, db.prompts[db.attempts[i].prompt].task)))
  }

  /** Task t owns an attempt that timed out under a lease that is past, before or now. */
  ghost predicate OwnsTimeout(db: Db, t: TaskId, auto: bool, now: Time) {
    exists i :: Owns(db, t, i)
      && (LeaseFails(db, i, auto, now)
          || (db.attempts[i].status.Error? && db.attempts[i].category == Some(Timeout)
              && db.attempts[i].lease.Some? && db.attempts[i].lease.value < now))
  }

  lemma LeaseHitsAre(db: Db, auto: bool, now: Time)
    ensures (if auto then ExhaustedAttempts(db, now) else ExpiredAttempts(db, now)) == set i | i in db.attempts && LeaseFails(db, i, auto, now)
  {
  }

  lemma TimeoutIsOwned(db: Db, t: TaskId, auto: bool, now: Time, hits: set<AttemptId>, db1: Db)
    requires t in db.tasks && hits == set i | i in db.attempts && LeaseFails(db, i, auto, now)
    requires db1 == UpdateAttempts(db, hits, FailAttempt(Timeout, now))
    ensures t in TasksWithExpiredLease(db1, now) <==> db.tasks[t].status.Running? && OwnsTimeout(db, t, auto, now)
  {
    AttemptsKeepChain(db, hits, FailAttempt(Timeout, now));
    SameChainFacts(db, db1);
    if OwnsTimeout(db, t, auto, now) {
      var i :| Owns(db, t, i)
        && (LeaseFails(db, i, auto, now)
            || (db.attempts[i].status.Error? && db.attempts[i].category == Some(Timeout)
                && db.attempts[i].lease.Some? && db.attempts[i].lease.value < now));
      assert Owns(db1, t, i) && FailedByTimeout(db1.attempts[i]) && db1.attempts[i].lease == db.attempts[i].lease;
    }
    if t in TasksWithExpiredLease(db1, now) {
      var i :| Owns(db1, t, i) && FailedByTimeout(db1.attempts[i]) && db1.attempts[i].lease.Some? && db1.attempts[i].lease.value < now;
      assert Owns(db, t, i);
    }
  }

  /** The failing statements of the lease reaper fail exactly those attempts, and the
      running tasks that own one, or one that timed out so before. */
  lemma LeaseFailuresAreExact(db: Db, auto: bool, now: Time, t: TaskId, hits: set<AttemptId>, db': Db)
    requires db' == FailExpired(db, auto, now) && hits == set i | i in db.attempts && LeaseFails(db, i, auto, now)
    ensures db' == db.(attempts := db'.attempts, tasks := db'.tasks) && db'.attempts.Keys == db.attempts.Keys && db'.tasks.Keys == db.tasks.Keys
    ensures forall i :: i in db.attempts ==>
      db'.attempts[i] == if i in hits then Reaped(db.attempts[i], Timeout, now) else db.attempts[i]
    ensures t in db.tasks ==>
      db'.tasks[t] == if db.tasks[t].status.Running? && OwnsTimeout(db, t, auto, now) then TaskReaped(db.tasks[t], Timeout) else db.tasks[t]
  {
    LeaseHitsAre(db, auto, now);
    LeaseRows(db, auto, now, hits, UpdateAttempts(db, hits, FailAttempt(Timeout, now)), db', t);
  }

  lemma LeaseRows(db: Db, auto: bool, now: Time, hits: set<AttemptId>, db1: Db, db': Db, t: TaskId)
    requires hits == set i | i in db.attempts && LeaseFails(db, i, auto, now)
    requires db1 == UpdateAttempts(db, hits, FailAttempt(Timeout, now)) && db' == UpdateTasks(db1, TasksWithExpiredLease(db1, now), FailTask(Timeout))
    ensures db' == db.(attempts := db'.attempts, tasks := db'.tasks) && db'.attempts.Keys == db.attempts.Keys && db'.tasks.Keys == db.tasks.Keys
    ensures forall i :: i in db.attempts ==>
      db'.attempts[i] == if i in hits then Reaped(db.attempts[i], Timeout, now) else db.attempts[i]
    ensures t in db.tasks ==>
      db'.tasks[t] == if db.tasks[t].status.Running? && OwnsTimeout(db, t, auto, now) then TaskReaped(db.tasks[t], Timeout) else db.tasks[t]
  {
    assert db1.tasks == db.tasks;
    if t in db.tasks {
      TimeoutIsOwned(db, t, auto, now, hits, db1);
    }
  }
}
