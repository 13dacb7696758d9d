/** The cascade that fails resumed work whose pinned runner is gone. */
module Cascade {
  import opened Basics
  import opened Tables
  import opened Transactions

  ghost function Pass1(db: Db, now: Time, clock: Time): Db {
    UpdateAttempts(db, AttemptsMissingRunner(db, clock), FailAttempt(RunnerUnavailable, now))
  }

  ghost function Pass2(db1: Db): Db {
    UpdateTasks(db1, PendingTasksFailedFor(db1, RunnerUnavailable), FailTask(RunnerUnavailable))
  }

  ghost function Pass3(db2: Db): Db {
    UpdatePrompts(db2, PromptsOfUnavailable(db2), SetPromptStatus(PromptStatus.Failed))
  }

  ghost function Pass4(db3: Db, now: Time): Db {
    UpdateSessions(db3, SessionsOfUnavailable(db3), SetSessionStatus(SessionStatus.Error, now))
  }

  lemma FourPasses(db: Db, now: Time, clock: Time)
    ensures ReapPinnedTx(db, now, clock) == Pass4(Pass3(Pass2(Pass1(db, now, clock))), now)
  {
  }

  /** One pass ends the whole chain of a pending attempt pinned to a runner that is
      gone: the attempt, its task, its prompt and its session. */
  lemma CascadeEndsTheChain(db: Db, now: Time, clock: Time, i: AttemptId)
    requires MissingRunner(db, i, clock)
    requires var p := db.prompts[db.attempts[i].prompt];
      p.status.Pending? && p.task in db.tasks && db.tasks[p.task].status.Pending?
    ensures var db' := ReapPinnedTx(db, now, clock);
      var p := db.prompts[db.attempts[i].prompt];
      && i in db'.attempts && db'.attempts[i].status.Error? && db'.attempts[i].category == Some(RunnerUnavailable)
      && Unavailable(db', p.task)
      && db.attempts[i].prompt in db'.prompts && db'.prompts[db.attempts[i].prompt].status.Failed?
      && p.session in db'.sessions && db'.sessions[p.session].status.Error?
  {
    var q := db.attempts[i].prompt;
    var p := db.prompts[q];
    var db1 := Pass1(db, now, clock);
    var db2 := Pass2(db1);
    var db3 := Pass3(db2);
    FourPasses(db, now, clock);
    AttemptAndTaskFail(db, now, clock, i, db1, db2);
    PromptAndSessionFail(db2, q, now, db3);
  }

  lemma AttemptAndTaskFail(db: Db, now: Time, clock: Time, i: AttemptId, db1: Db, db2: Db)
    requires MissingRunner(db, i, clock) && db1 == Pass1(db, now, clock) && db2 == Pass2(db1)
    requires var t := db.prompts[db.attempts[i].prompt].task; t in db.tasks && db.tasks[t].status.Pending?
    ensures db2.attempts == db1.attempts && db2.prompts == db.prompts && db2.sessions == db.sessions
    ensures i in db1.attempts && db1.attempts[i].status.Error? && db1.attempts[i].category == Some(RunnerUnavailable)
    ensures Unavailable(db2, db.prompts[db.attempts[i].prompt].task)
  {
    var t := db.prompts[db.attempts[i].prompt].task;
    assert i in AttemptsMissingRunner(db, clock);
    assert Owns(db1, t, i);
    assert t in PendingTasksFailedFor(db1, RunnerUnavailable);
  }

  lemma PromptAndSessionFail(db2: Db, q: PromptId, now: Time, db3: Db)
    requires q in db2.prompts && db2.prompts[q].status.Pending? && Unavailable(db2, db2.prompts[q].task)
    requires db2.prompts[q].session in db2.sessions && db2.sessions[db2.prompts[q].session].status.Resuming?
    requires db3 == Pass3(db2)
    ensures var db4 := Pass4(db3, now);
      && db4.attempts == db2.attempts && db4.tasks == db2.tasks
      && q in db4.prompts && db4.prompts[q].status.Failed?
      && db2.prompts[q].session in db4.sessions && db4.sessions[db2.prompts[q].session].status.Error?
  {
    assert q in PromptsOfUnavailable(db2);
    assert db3.prompts[q].status.Failed? && db3.prompts[q].session == db2.prompts[q].session;
    assert db2.prompts[q].session in SessionsOfUnavailable(db3);
  }

  // ---------------------------------------------------------------- idempotence

  lemma NoHits(db: Db, a: SetAttempt, t: SetTask, p: SetPrompt, s: SetSession)
    ensures UpdateAttempts(db, {}, a) == db && UpdateTasks(db, {}, t) == db
    ensures UpdatePrompts(db, {}, p) == db && UpdateSessions(db, {}, s) == db
  {
    assert UpdateAttempts(db, {}, a).attempts == db.attempts;
    assert UpdateTasks(db, {}, t).tasks == db.tasks;
    assert UpdatePrompts(db, {}, p).prompts == db.prompts;
    assert UpdateSessions(db, {}, s).sessions == db.sessions;
  }

  lemma NothingMissingAfter(db: Db, now: Time, clock: Time, db1: Db, db': Db)
    requires db1 == Pass1(db, now, clock) && db'.attempts == db1.attempts && db'.runners == db.runners
    requires db'.prompts.Keys == db.prompts.Keys && db'.sessions.Keys == db.sessions.Keys
    requires forall p :: p in db.prompts ==> db'.prompts[p].session == db.prompts[p].session
    requires forall s :: s in db.sessions && db'.sessions[s].status.Resuming? ==> db.sessions[s].status.Resuming?
    ensures AttemptsMissingRunner(db', clock) == {}
  {
    forall i ensures !MissingRunner(db', i, clock) {
      assert i in AttemptsMissingRunner(db, clock) ==> i in db1.attempts && db1.attempts[i].status.Error?;
    }
  }

  lemma NoTaskFailsAfter(db1: Db, db2: Db, db': Db)
    requires db2 == Pass2(db1) && db'.tasks == db2.tasks && db'.attempts == db1.attempts
    requires db'.prompts.Keys == db1.prompts.Keys && forall p :: p in db1.prompts ==> db'.prompts[p].task == db1.prompts[p].task
    ensures PendingTasksFailedFor(db', RunnerUnavailable) == {}
  {
    forall t, i | t in db'.tasks && Owns(db', t, i) && db'.attempts[i].status.Error? && db'.attempts[i].category == Some(RunnerUnavailable)
      ensures !db'.tasks[t].status.Pending?
    {
      assert Owns(db1, t, i);
      assert db1.tasks[t].status.Pending? ==> t in PendingTasksFailedFor(db1, RunnerUnavailable);
    }
  }

  lemma NoPromptOrSessionFailsAfter(db2: Db, db3: Db, now: Time)
    requires db3 == Pass3(db2)
    ensures PromptsOfUnavailable(Pass4(db3, now)) == {} && SessionsOfUnavailable(Pass4(db3, now)) == {}
  {
    var db' := Pass4(db3, now);
    forall p | p in db'.prompts && Unavailable(db', db'.prompts[p].task) ensures !db'.prompts[p].status.Pending? {
      assert db2.prompts[p].status.Pending? ==> p in PromptsOfUnavailable(db2);
    }
    forall s, p | s in db'.sessions && p in db'.prompts && db'.prompts[p].session == s && db'.prompts[p].status.Failed?
        && Unavailable(db', db'.prompts[p].task)
      ensures !db'.sessions[s].status.Resuming?
    {
      assert db3.sessions[s].status.Resuming? ==> s in SessionsOfUnavailable(db3);
    }
  }

  /** A second pass at the same cutoff changes nothing. */
  lemma CascadeIsIdempotent(db: Db, now: Time, clock: Time, later: Time)
    ensures ReapPinnedTx(ReapPinnedTx(db, now, clock), later, clock) == ReapPinnedTx(db, now, clock)
  {
    var db1 := Pass1(db, now, clock);
    var db2 := Pass2(db1);
    var db3 := Pass3(db2);
    var db' := Pass4(db3, now);
    FourPasses(db, now, clock);
    FourPasses(db', later, clock);
    PassesKeep(db1, db2, db3, db', now);
    NothingMissingAfter(db, now, clock, db1, db');
    NoTaskFailsAfter(db1, db2, db');
    NoPromptOrSessionFailsAfter(db2, db3, now);
    NoHits(db', FailAttempt(RunnerUnavailable, later), FailTask(RunnerUnavailable), SetPromptStatus(PromptStatus.Failed),
           SetSessionStatus(SessionStatus.Error, later));
  }

  lemma PassesKeep(db1: Db, db2: Db, db3: Db, db': Db, now: Time)
    requires db2 == Pass2(db1) && db3 == Pass3(db2) && db' == Pass4(db3, now)
    ensures db'.attempts == db1.attempts && db'.runners == db1.runners && db'.tasks == db2.tasks
    ensures db'.prompts.Keys == db1.prompts.Keys && db'.sessions.Keys == db1.sessions.Keys
    ensures forall p :: p in db1.prompts ==> db'.prompts[p].session == db1.prompts[p].session && db'.prompts[p].task == db1.prompts[p].task
    ensures forall s :: s in db1.sessions && db'.sessions[s].status.Resuming? ==> db1.sessions[s].status.Resuming?
  {
  }
}
