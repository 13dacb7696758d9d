/** What one transaction promises the next: who may report, cancel and claim. */
module Lifecycle {
  import opened Basics
  import opened Tables
  import opened Transactions
  import opened Integrity
  import opened OneAttempt

  // ---------------------------------------------------------------------- events

  /** After a claim the attempt accepts its holder's events, and nobody else's,
      exactly until the lease runs out. */
  lemma ClaimedAcceptsIff(db: Db, i: AttemptId, r: RunnerId, c: ClaimId, lease: Time, now: Time, e: Event, clock: Time)
    requires Owns(db, e.task, i) && e.task in db.tasks && db.tasks[e.task].status.Pending? && db.attempts[i].status.Pending?
    requires ClaimTx(db, i, r, c, lease, now).Committed?
    requires e.attempt == i && e.prompt == db.attempts[i].prompt && e.session == db.prompts[e.prompt].session
    ensures Accepted(ClaimTx(db, i, r, c, lease, now).db, e, clock) <==> e.runner == r && e.claim == c && clock < now + lease
  {
    var clause := ClaimAttempt(r, c, now + lease, now);
    var db1 := UpdateAttempts(db, PendingAttempt(db, i), clause);
    var db2 := UpdateTasks(db1, PendingTaskRow(db1, e.task), RunTask);
    var db' := UpdatePrompts(db2, LatestQueuedPrompt(db2, e.task), SetPromptStatus(PromptStatus.Running));
    ClaimedRow(db, i, e.task, clause, db1, db2);
    HolderIsAccepted(db', e, clock, clause);
  }

  lemma ClaimedRow(db: Db, i: AttemptId, t: TaskId, clause: SetAttempt, db1: Db, db2: Db)
    requires i in db.attempts && db.attempts[i].status.Pending? && t in db.tasks && db.tasks[t].status.Pending?
    requires db1 == UpdateAttempts(db, PendingAttempt(db, i), clause) && db2 == UpdateTasks(db1, PendingTaskRow(db1, t), RunTask)
    ensures i in db2.attempts && db2.attempts[i] == WithAttempt(clause, db.attempts[i])
    ensures t in db2.tasks && db2.tasks[t].status.Running? && db2.prompts == db.prompts
  {
    assert i in PendingAttempt(db, i) && t in PendingTaskRow(db1, t);
  }

  lemma HolderIsAccepted(db: Db, e: Event, clock: Time, clause: SetAttempt)
    requires OwnedAsReported(db, e) && e.task in db.tasks && db.tasks[e.task].status.Running? && clause.ClaimAttempt?
    requires exists a: Attempt :: db.attempts[e.attempt] == WithAttempt(clause, a)
    ensures Accepted(db, e, clock) <==> e.runner == clause.holder && e.claim == clause.under && clock < clause.until
  {
    assert e.task in ReportableTaskRow(db, e.task, EventStatus(e));
    assert e.attempt in ReportableAttempt(db, e, clock) <==>
           e.runner == clause.holder && e.claim == clause.under && clock < clause.until;
  }

  // ---------------------------------------------------------------- cancellation

  /** CancelTask succeeds exactly on a pending or running task, and leaves nothing
      of it active. */
  lemma CancelCommitsIff(db: Db, t: TaskId, now: Time)
    requires Mirrored(db)
    ensures CancelTx(db, t, now).Committed? <==> t in db.tasks && (db.tasks[t].status.Pending? || db.tasks[t].status.Running?)
    ensures CancelTx(db, t, now).Committed? ==>
      t in CancelTx(db, t, now).db.tasks && CancelTx(db, t, now).db.tasks[t].status.Cancelled?
      && ActiveAttemptsOf(CancelTx(db, t, now).db, t) == {}
  {
    CancelHits(db, t);
    var db1 := UpdateAttempts(db, ActiveAttemptsOf(db, t), CancelAttempt(now));
    assert ActiveTaskRow(db1, t) == ActiveTaskRow(db, t);
    if t in db.tasks && ActiveTask(db.tasks[t]) {
      CancelledLeavesNone(db, t, now, db1);
    }
  }

  /** Of an active task both statements hit a row, of any other the second does not. */
  lemma CancelHits(db: Db, t: TaskId)
    requires Mirrored(db)
    ensures ActiveTaskRow(db, t) != {} <==> t in db.tasks && ActiveTask(db.tasks[t])
    ensures t in db.tasks && ActiveTask(db.tasks[t]) ==> ActiveAttemptsOf(db, t) != {}
  {
    if t in db.tasks && ActiveTask(db.tasks[t]) {
      var i :| Current(db, t, i);
      assert i in ActiveAttemptsOf(db, t) && t in ActiveTaskRow(db, t);
    }
  }

  lemma CancelledLeavesNone(db: Db, t: TaskId, now: Time, db1: Db)
    requires t in db.tasks && ActiveTask(db.tasks[t])
    requires db1 == UpdateAttempts(db, ActiveAttemptsOf(db, t), CancelAttempt(now))
    ensures var db' := UpdateTasks(db1, ActiveTaskRow(db1, t), CancelTask);
      t in db'.tasks && db'.tasks[t].status.Cancelled? && ActiveAttemptsOf(db', t) == {}
  {
    assert t in ActiveTaskRow(db1, t);
  }

  /** ClearQueue leaves nothing pending and nothing running touched. */
  lemma ClearQueueEmptiesTheQueue(db: Db, now: Time)
    ensures var db' := ClearQueueTx(db, now);
      && PendingTasks(db') == {} && PendingAttempts(db') == {}
      && (forall r, capable, locked :: ClaimableAttempts(db', r, capable, locked) == {})
      && (forall i :: i in db.attempts && !db.attempts[i].status.Pending? ==> i in db'.attempts && db'.attempts[i] == db.attempts[i])
      && (forall t :: t in db.tasks && !db.tasks[t].status.Pending? ==> t in db'.tasks && db'.tasks[t] == db.tasks[t])
  {
    var db1 := UpdateAttempts(db, PendingAttempts(db), CancelAttempt(now));
    var db' := ClearQueueTx(db, now);
    assert db'.attempts == db1.attempts;
    assert PendingAttempts(db') == {};
    forall r, capable, locked ensures ClaimableAttempts(db', r, capable, locked) == {} {
      forall i ensures i !in ClaimableAttempts(db', r, capable, locked) {
        assert i !in PendingAttempts(db');
      }
    }
  }
}
