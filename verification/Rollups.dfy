/** The reapers fail attempts first and then the tasks of such attempts. The second
    statement matches any failed attempt of a task, however old: exactly when it
    fails a task over an active attempt that the first statement leaves. */
module Rollups {
  import opened Basics
  import opened Tables
  import opened Transactions
  import opened Integrity
  import opened OneAttempt

  // --------------------------------------------------------------- any failure

  /** No task of `row` owns an active attempt outside `hits`. */
  ghost predicate CoversTheRow(db: Db, hits: set<AttemptId>, row: set<TaskId>) {
    forall t, n :: t in row && Current(db, t, n) ==> n in hits
  }

  /** A reaper fails the active attempts `hits` and then the active tasks `row`,
      among them the owners of `hits`. It keeps the tables mirrored exactly when no
      task fails over an active attempt that is left. */
  lemma FailureKeepsMirroredIff(db: Db, hits: set<AttemptId>, reason: Category, now: Time, row: set<TaskId>, why: Category)
    requires Mirrored(db)
    requires forall i :: i in hits ==> i in db.attempts && ActiveAttempt(db.attempts[i])
    requires forall t :: t in row ==> t in db.tasks && ActiveTask(db.tasks[t])
    requires forall t, i :: i in hits && Owns(db, t, i) ==> t in row
    ensures var db' := UpdateTasks(UpdateAttempts(db, hits, FailAttempt(reason, now)), row, FailTask(why));
      && (Mirrored(db') <==> CoversTheRow(db, hits, row))
      && (Mirrored(db') && Unscarred(db) ==> Unscarred(db'))
  {
    var db1 := UpdateAttempts(db, hits, FailAttempt(reason, now));
    var db' := UpdateTasks(db1, row, FailTask(why));
    AttemptsThenTasks(db, hits, FailAttempt(reason, now), row, FailTask(why));
    if CoversTheRow(db, hits, row) {
      forall t | t in db.tasks ensures Untouched(db, db', t) || Ended(db', t) {
        FailedOrUntouched(db, hits, reason, now, row, why, t, db1, db');
      }
      EndingStep(db, db');
    } else {
      var t, n :| t in row && Current(db, t, n) && n !in hits;
      LeftOver(db, hits, reason, now, row, why, t, n, db1, db');
    }
  }

  lemma FailedOrUntouched(db: Db, hits: set<AttemptId>, reason: Category, now: Time, row: set<TaskId>, why: Category,
                          t: TaskId, db1: Db, db': Db)
    requires t in db.tasks && SameChain(db, db') && CoversTheRow(db, hits, row)
    requires db1 == UpdateAttempts(db, hits, FailAttempt(reason, now)) && db' == UpdateTasks(db1, row, FailTask(why))
    requires forall i :: i in hits && Owns(db, t, i) ==> t in row
    ensures if t in row then Ended(db', t) else Untouched(db, db', t)
  {
    SameChainFacts(db, db');
    if t in row {
      forall k | Owns(db', t, k) ensures !ActiveAttempt(db'.attempts[k]) {
        assert Owns(db, t, k);
        assert k !in hits ==> !Current(db, t, k);
      }
    }
  }

  lemma LeftOver(db: Db, hits: set<AttemptId>, reason: Category, now: Time, row: set<TaskId>, why: Category,
                 t: TaskId, n: AttemptId, db1: Db, db': Db)
    requires t in row && t in db.tasks && Current(db, t, n) && n !in hits && SameChain(db, db')
    requires db1 == UpdateAttempts(db, hits, FailAttempt(reason, now)) && db' == UpdateTasks(db1, row, FailTask(why))
    ensures !Mirrored(db')
  {
    assert Current(db', t, n) && db'.tasks[t].status.Error?;
  }

  // ----------------------------------------------------- what a rollup matches

  /** An attempt of t once timed out under a lease that is past now. */
  ghost predicate TimedOutBefore(db: Db, t: TaskId, now: Time) {
    exists k :: Owns(db, t, k) && FailedByTimeout(db.attempts[k]) && db.attempts[k].lease.Some? && db.attempts[k].lease.value < now
  }

  /** An attempt of t timed out with exactly this end. */
  ghost predicate TimedOutAt(db: Db, t: TaskId, now: Time) {
    exists k :: Owns(db, t, k) && FailedByTimeout(db.attempts[k]) && db.attempts[k].ended == Some(now)
  }

  /** A reaper once failed an attempt of t for this reason. */
  ghost predicate FailedBefore(db: Db, t: TaskId, reason: Category) {
    exists k :: Owns(db, t, k) && db.attempts[k].status.Error? && db.attempts[k].category == Some(reason)
  }

  /** n is the only active attempt of task t and mirrors it. */
  ghost predicate SoleActive(db: Db, t: TaskId, n: AttemptId) {
    t in db.tasks && Current(db, t, n) && Mirrors(db.attempts[n].status, db.tasks[t].status)
    && forall k :: Current(db, t, k) ==> k == n
  }

  lemma CurrentIsSole(db: Db, t: TaskId, n: AttemptId)
    requires Mirrored(db) && Current(db, t, n)
    ensures SoleActive(db, t, n)
  {
    OwnerMirrors(db, t, n);
  }

  /** The attempts of a task whose only active one is not hit stay as they were. */
  lemma OthersKeep(db: Db, hits: set<AttemptId>, reason: Category, now: Time, t: TaskId, n: AttemptId, db1: Db)
    requires SoleActive(db, t, n) && n !in hits && forall i :: i in hits ==> i in db.attempts && ActiveAttempt(db.attempts[i])
    requires db1 == UpdateAttempts(db, hits, FailAttempt(reason, now))
    ensures forall k :: Owns(db1, t, k) <==> Owns(db, t, k)
    ensures forall k :: Owns(db, t, k) ==> db1.attempts[k] == db.attempts[k]
  {
    forall k | Owns(db, t, k) ensures k !in hits {
      assert ActiveAttempt(db.attempts[k]) ==> Current(db, t, k);
    }
  }

  lemma LeaseRollupIff(db: Db, hits: set<AttemptId>, now: Time, t: TaskId, n: AttemptId, db1: Db)
    requires SoleActive(db, t, n) && n !in hits && forall i :: i in hits ==> i in db.attempts && ActiveAttempt(db.attempts[i])
    requires db1 == UpdateAttempts(db, hits, FailAttempt(Timeout, now))
    ensures t in TasksWithExpiredLease(db1, now) <==> db.attempts[n].status.Running? && TimedOutBefore(db, t, now)
  {
    OthersKeep(db, hits, Timeout, now, t, n, db1);
    if TimedOutBefore(db, t, now) && db.attempts[n].status.Running? {
      var k :| Owns(db, t, k) && FailedByTimeout(db.attempts[k]) && db.attempts[k].lease.Some? && db.attempts[k].lease.value < now;
      assert Owns(db1, t, k) && t in TasksWithExpiredLease(db1, now);
    }
  }

  lemma OverrunRollupIff(db: Db, hits: set<AttemptId>, now: Time, t: TaskId, n: AttemptId, db1: Db)
    requires SoleActive(db, t, n) && n !in hits && forall i :: i in hits ==> i in db.attempts && ActiveAttempt(db.attempts[i])
    requires db1 == UpdateAttempts(db, hits, FailAttempt(Timeout, now))
    ensures t in TasksOfOverrun(db1, now) <==> db.attempts[n].status.Running? && TimedOutAt(db, t, now)
  {
    OthersKeep(db, hits, Timeout, now, t, n, db1);
    if TimedOutAt(db, t, now) && db.attempts[n].status.Running? {
      var k :| Owns(db, t, k) && FailedByTimeout(db.attempts[k]) && db.attempts[k].ended == Some(now);
      assert Owns(db1, t, k) && t in TasksOfOverrun(db1, now);
    }
  }

  lemma PendingRollupIff(db: Db, hits: set<AttemptId>, reason: Category, now: Time, t: TaskId, n: AttemptId, db1: Db)
    requires SoleActive(db, t, n) && n !in hits && forall i :: i in hits ==> i in db.attempts && ActiveAttempt(db.attempts[i])
    requires db1 == UpdateAttempts(db, hits, FailAttempt(reason, now))
    ensures t in PendingTasksFailedFor(db1, reason) <==> db.attempts[n].status.Pending? && FailedBefore(db, t, reason)
  {
    OthersKeep(db, hits, reason, now, t, n, db1);
    if FailedBefore(db, t, reason) && db.attempts[n].status.Pending? {
      var k :| Owns(db, t, k) && db.attempts[k].status.Error? && db.attempts[k].category == Some(reason);
      assert Owns(db1, t, k) && t in PendingTasksFailedFor(db1, reason);
    }
  }

  // ------------------------------------------------------ the owners of the hits

  /** A failed attempt keeps its owner, its lease and its place in the tables. */
  lemma FailedAttempt(db: Db, hits: set<AttemptId>, reason: Category, now: Time, t: TaskId, i: AttemptId, db1: Db)
    requires db1 == UpdateAttempts(db, hits, FailAttempt(reason, now)) && i in hits && Owns(db, t, i)
    ensures Owns(db1, t, i) && db1.tasks == db.tasks
    ensures db1.attempts[i] ==
      db.attempts[i].(status := AttemptStatus.Error, category := Some(reason), ended := Some(now))
  {
  }

  lemma ExpiredIsRolledUp(db: Db, hits: set<AttemptId>, now: Time, t: TaskId, i: AttemptId)
    requires t in db.tasks && db.tasks[t].status.Running? && i in hits && Owns(db, t, i) && LeaseExpired(db.attempts[i], now)
    ensures t in TasksWithExpiredLease(UpdateAttempts(db, hits, FailAttempt(Timeout, now)), now)
  {
    FailedAttempt(db, hits, Timeout, now, t, i, UpdateAttempts(db, hits, FailAttempt(Timeout, now)));
  }

  lemma OverrunIsRolledUp(db: Db, hits: set<AttemptId>, now: Time, t: TaskId, i: AttemptId)
    requires t in db.tasks && db.tasks[t].status.Running? && i in hits && Owns(db, t, i)
    ensures t in TasksOfOverrun(UpdateAttempts(db, hits, FailAttempt(Timeout, now)), now)
  {
    FailedAttempt(db, hits, Timeout, now, t, i, UpdateAttempts(db, hits, FailAttempt(Timeout, now)));
  }

  lemma PendingIsRolledUp(db: Db, hits: set<AttemptId>, reason: Category, now: Time, t: TaskId, i: AttemptId)
    requires t in db.tasks && db.tasks[t].status.Pending? && i in hits && Owns(db, t, i)
    ensures t in PendingTasksFailedFor(UpdateAttempts(db, hits, FailAttempt(reason, now)), reason)
  {
    FailedAttempt(db, hits, reason, now, t, i, UpdateAttempts(db, hits, FailAttempt(reason, now)));
  }

  // ------------------------------------------------------------ the four reapers

  function LeaseHits(db: Db, auto: bool, now: Time): set<AttemptId> {
    if auto then ExhaustedAttempts(db, now) else ExpiredAttempts(db, now)
  }

  /** The statements after the reclaim loop. */
  ghost predicate LeasesCovered(db: Db, auto: bool, now: Time) {
    forall t, n :: Current(db, t, n) && db.attempts[n].status.Running? && n !in LeaseHits(db, auto, now) ==> !TimedOutBefore(db, t, now)
  }

  lemma FailExpiredKeepsMirroredIff(db: Db, auto: bool, now: Time)
    requires Mirrored(db)
    ensures var db' := FailExpired(db, auto, now);
      && (Mirrored(db') <==> LeasesCovered(db, auto, now))
      && (Mirrored(db') && Unscarred(db) ==> Unscarred(db'))
  {
    var hits := LeaseHits(db, auto, now);
    var db1 := UpdateAttempts(db, hits, FailAttempt(Timeout, now));
    var row := TasksWithExpiredLease(db1, now);
    forall t, i | i in hits && Owns(db, t, i) ensures t in row {
      OwnerMirrors(db, t, i);
      ExpiredIsRolledUp(db, hits, now, t, i);
    }
    FailureKeepsMirroredIff(db, hits, Timeout, now, row, Timeout);
    forall t, n | Current(db, t, n) && n !in hits
      ensures t in row <==> db.attempts[n].status.Running? && TimedOutBefore(db, t, now)
    {
      CurrentIsSole(db, t, n);
      LeaseRollupIff(db, hits, now, t, n, db1);
    }
  }

  ghost predicate OverrunsCovered(db: Db, now: Time, clock: Time) {
    forall t, n :: Current(db, t, n) && db.attempts[n].status.Running? && !Overrun(db.attempts[n], clock) ==> !TimedOutAt(db, t, now)
  }

  lemma OverrunKeepsMirroredIff(db: Db, now: Time, clock: Time)
    requires Mirrored(db)
    ensures var db' := ReapOverrunTx(db, now, clock);
      && (Mirrored(db') <==> OverrunsCovered(db, now, clock))
      && (Mirrored(db') && Unscarred(db) ==> Unscarred(db'))
  {
    var hits := OverrunAttempts(db, clock);
    var db1 := UpdateAttempts(db, hits, FailAttempt(Timeout, now));
    OverrunFailureIff(db, hits, now, db1, TasksOfOverrun(db1, now), ReapOverrunTx(db, now, clock));
  }

  lemma OverrunFailureIff(db: Db, hits: set<AttemptId>, now: Time, db1: Db, row: set<TaskId>, db2: Db)
    requires Mirrored(db) && db1 == UpdateAttempts(db, hits, FailAttempt(Timeout, now)) && row == TasksOfOverrun(db1, now)
    requires db2 == UpdateTasks(db1, row, FailTask(Timeout))
    requires forall i :: i in hits ==> i in db.attempts && db.attempts[i].status.Running?
    ensures Mirrored(db2) <==>
      forall t, n :: Current(db, t, n) && db.attempts[n].status.Running? && n !in hits ==> !TimedOutAt(db, t, now)
    ensures Mirrored(db2) && Unscarred(db) ==> Unscarred(db2)
  {
    forall t, i | i in hits && Owns(db, t, i) ensures t in row {
      OwnerMirrors(db, t, i);
      OverrunIsRolledUp(db, hits, now, t, i);
    }
    FailureKeepsMirroredIff(db, hits, Timeout, now, row, Timeout);
    forall t, n | Current(db, t, n) && n !in hits
      ensures t in row <==> db.attempts[n].status.Running? && TimedOutAt(db, t, now)
    {
      CurrentIsSole(db, t, n);
      OverrunRollupIff(db, hits, now, t, n, db1);
    }
  }

  /** The failing statements of the pinned-runner and isolation reapers. */
  ghost predicate PendingCovered(db: Db, hits: set<AttemptId>, reason: Category) {
    forall t, n :: Current(db, t, n) && db.attempts[n].status.Pending? && n !in hits ==> !FailedBefore(db, t, reason)
  }

  lemma PendingFailureKeepsMirroredIff(db: Db, hits: set<AttemptId>, reason: Category, now: Time, db1: Db, db2: Db)
    requires Mirrored(db) && hits <= PendingAttempts(db)
    requires db1 == UpdateAttempts(db, hits, FailAttempt(reason, now))
    requires db2 == UpdateTasks(db1, PendingTasksFailedFor(db1, reason), FailTask(reason))
    ensures Mirrored(db2) <==> PendingCovered(db, hits, reason)
    ensures Mirrored(db2) && Unscarred(db) ==> Unscarred(db2)
  {
    var row := PendingTasksFailedFor(db1, reason);
    forall t, i | i in hits && Owns(db, t, i) ensures t in row {
      OwnerMirrors(db, t, i);
      PendingIsRolledUp(db, hits, reason, now, t, i);
    }
    FailureKeepsMirroredIff(db, hits, reason, now, row, reason);
    forall t, n | Current(db, t, n) && n !in hits
      ensures t in row <==> db.attempts[n].status.Pending? && FailedBefore(db, t, reason)
    {
      CurrentIsSole(db, t, n);
      PendingRollupIff(db, hits, reason, now, t, n, db1);
    }
  }

  lemma IsolationKeepsMirroredIff(db: Db, now: Time, clock: Time)
    requires Mirrored(db)
    ensures var db' := ReapIsolationTx(db, now, clock);
      && (Mirrored(db') <==> PendingCovered(db, AttemptsWithoutIsolation(db, clock), IsolationUnavailable))
      && (Mirrored(db') && Unscarred(db) ==> Unscarred(db'))
  {
    var hits := AttemptsWithoutIsolation(db, clock);
    var db1 := UpdateAttempts(db, hits, FailAttempt(IsolationUnavailable, now));
    PendingFailureKeepsMirroredIff(db, hits, IsolationUnavailable, now, db1, ReapIsolationTx(db, now, clock));
  }

  lemma PinnedKeepsMirroredIff(db: Db, now: Time, clock: Time)
    requires Mirrored(db)
    ensures var db' := ReapPinnedTx(db, now, clock);
      && (Mirrored(db') <==> PendingCovered(db, AttemptsMissingRunner(db, clock), RunnerUnavailable))
      && (Mirrored(db') && Unscarred(db) ==> Unscarred(db'))
  {
    var hits := AttemptsMissingRunner(db, clock);
    var db1 := UpdateAttempts(db, hits, FailAttempt(RunnerUnavailable, now));
    var db2 := UpdateTasks(db1, PendingTasksFailedFor(db1, RunnerUnavailable), FailTask(RunnerUnavailable));
    PendingFailureKeepsMirroredIff(db, hits, RunnerUnavailable, now, db1, db2);
    var db3 := UpdatePrompts(db2, PromptsOfUnavailable(db2), SetPromptStatus(PromptStatus.Failed));
    PromptsAndSessions(db2, PromptsOfUnavailable(db2), SetPromptStatus(PromptStatus.Failed), db3,
                       SessionsOfUnavailable(db3), SetSessionStatus(SessionStatus.Error, now), ReapPinnedTx(db, now, clock));
  }

  /** Prompt and session rows do not matter. */
  lemma PromptsAndSessions(db: Db, p: set<PromptId>, sp: SetPrompt, db1: Db, s: set<SessionId>, ss: SetSession, db2: Db)
    requires db1 == UpdatePrompts(db, p, sp) && db2 == UpdateSessions(db1, s, ss)
    ensures Mirrored(db2) <==> Mirrored(db)
    ensures Mirrored(db) && Unscarred(db) ==> Unscarred(db2)
  {
    PromptsKeepChain(db, p, sp);
    SessionsKeepChain(db1, s, ss);
    SameChainTransitive(db, db1, db2);
    if Mirrored(db) {
      QuietStep(db, db2);
    }
    if Mirrored(db2) {
      QuietStep(db2, db);
    }
  }

  // --------------------------------------------------------------- straying tasks

  /** Task t fails although its only active attempt is left as it was. */
  predicate Strayed(db: Db, db': Db, t: TaskId, n: AttemptId) {
    t in db'.tasks && db'.tasks[t].status.Error?
    && n in db.attempts && n in db'.attempts && db'.attempts[n] == db.attempts[n] && ActiveAttempt(db'.attempts[n])
  }

  /** The failing statements of the lease reaper fail a task over a running attempt
      they leave, under a live lease or of a drained runner, exactly when another
      attempt of the task once timed out under a lease. */
  lemma LeaseReaperStraysIff(db: Db, auto: bool, now: Time, t: TaskId, n: AttemptId)
    requires SoleActive(db, t, n) && db.attempts[n].status.Running? && n !in LeaseHits(db, auto, now)
    ensures Strayed(db, FailExpired(db, auto, now), t, n) <==> TimedOutBefore(db, t, now)
  {
    var hits := LeaseHits(db, auto, now);
    var db1 := UpdateAttempts(db, hits, FailAttempt(Timeout, now));
    LeaseRollupIff(db, hits, now, t, n, db1);
  }

  /** The pinned-runner and isolation reapers fail a task whose pending attempt they
      do not touch exactly when another attempt of the task once failed that way. */
  lemma PendingReaperStraysIff(db: Db, hits: set<AttemptId>, reason: Category, now: Time, t: TaskId, n: AttemptId)
    requires SoleActive(db, t, n) && db.attempts[n].status.Pending? && n !in hits && hits <= PendingAttempts(db)
    ensures var db1 := UpdateAttempts(db, hits, FailAttempt(reason, now));
      Strayed(db, UpdateTasks(db1, PendingTasksFailedFor(db1, reason), FailTask(reason)), t, n) <==> FailedBefore(db, t, reason)
  {
    var db1 := UpdateAttempts(db, hits, FailAttempt(reason, now));
    PendingRollupIff(db, hits, reason, now, t, n, db1);
  }
}
