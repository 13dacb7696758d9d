/** The rows each request writes, and what they mean for the requests after it. */
module Requests {
  import opened Basics
  import opened Tables
  import opened Transactions

  /** A queued attempt, and a session that has just begun. */
  predicate Fresh(a: Attempt, p: PromptId, required: Required, timeout: int, now: Time) {
    && a.prompt == p && a.status.Pending? && a.required == required && a.timeout == timeout && a.created == now
    && a.runner.None? && a.claim.None? && a.lease.None? && a.started.None? && a.ended.None? && a.category.None?
    && a.usage == Usage(0, 0, 0, 0, 0, 0) && !a.transcript
  }

  predicate Begun(s: Session, t: TaskId, number: int, mode: Mode, isolated: bool, expires: Option<Time>, now: Time) {
    && s.task == t && s.number == number && s.status.Running? && s.mode == mode && s.isolated == isolated
    && s.expires == expires && s.updated == now && s.pinned.None? && !s.workspace && !s.checkpoint && !s.harness
  }

  /** One session with one prompt and one attempt is added under task t. */
  ghost predicate ChainAdded(db: Db, db': Db, t: TaskId, ids: Ids, number: int, mode: Mode, isolated: bool,
                             expires: Option<Time>, timeout: int, now: Time)
  {
    && ids.session !in db.sessions && ids.prompt !in db.prompts && ids.attempt !in db.attempts
    && ids.session in db'.sessions && ids.prompt in db'.prompts && ids.attempt in db'.attempts
    && db'.sessions == db.sessions[ids.session := db'.sessions[ids.session]]
    && db'.prompts == db.prompts[ids.prompt := Prompt(t, ids.session, 1, PromptStatus.Pending, false)]
    && db'.attempts == db.attempts[ids.attempt := db'.attempts[ids.attempt]]
    && db'.runners == db.runners && db'.checkpoints == db.checkpoints
    && Begun(db'.sessions[ids.session], t, number, mode, isolated, expires, now)
    && Fresh(db'.attempts[ids.attempt], ids.prompt, Anyone, timeout, now)
  }

  /** The new attempt waits for any runner that has the isolation it needs. */
  ghost predicate Awaits(db: Db, i: AttemptId, isolated: bool) {
    forall r, capable :: Claimable(db, i, r, capable) <==> (isolated ==> capable)
  }

  predicate IdsUnused(db: Db, ids: Ids) {
    ids.session !in db.sessions && ids.prompt !in db.prompts && ids.attempt !in db.attempts
  }

  /** SubmitTask commits exactly when its ids are unused, and adds one pending task
      with its first session, prompt and attempt. */
  lemma SubmitAdds(db: Db, t: TaskId, ids: Ids, mode: Mode, isolated: bool, expires: Option<Time>,
                   timeout: int, maxAttempts: int, now: Time, outcome: Outcome)
    requires outcome == SubmitTx(db, t, ids, mode, isolated, expires, timeout, maxAttempts, now)
    ensures outcome.Committed? <==> t !in db.tasks && IdsUnused(db, ids)
    ensures outcome.Committed? ==>
      && outcome.db.tasks == db.tasks[t := Task(TaskStatus.Pending, None, maxAttempts)]
      && ChainAdded(db, outcome.db, t, ids, 1, mode, isolated, expires, timeout, now)
      && Awaits(outcome.db, ids.attempt, isolated)
  {
    if outcome.Committed? {
      ChainAwaits(db, outcome.db, t, ids, 1, mode, isolated, expires, timeout, now);
    }
  }

  lemma ChainAwaits(db: Db, db': Db, t: TaskId, ids: Ids, number: int, mode: Mode, isolated: bool,
                    expires: Option<Time>, timeout: int, now: Time)
    requires ChainAdded(db, db', t, ids, number, mode, isolated, expires, timeout, now)
    requires t in db'.tasks && db'.tasks[t].status.Pending?
    ensures Awaits(db', ids.attempt, isolated)
  {
    assert NeedsIsolation(db', ids.attempt) <==> isolated;
  }

  // -------------------------------------------------------------------- recover

  /** The timeout of the newest attempt of prompt p, the greater id deciding ties, or
      the given one when p has none. */
  ghost predicate CarriesOn(db: Db, p: PromptId, fallback: int, timeout: int) {
    if exists i :: i in db.attempts && db.attempts[i].prompt == p then
      exists i :: i in db.attempts && db.attempts[i].prompt == p && timeout == db.attempts[i].timeout
        && forall j :: j in db.attempts && db.attempts[j].prompt == p ==>
             db.attempts[j].created < db.attempts[i].created || (db.attempts[j].created == db.attempts[i].created && j <= i)
    else timeout == fallback
  }

  lemma LastTimeoutCarriesOn(db: Db, p: PromptId, fallback: int)
    ensures CarriesOn(db, p, fallback, LastTimeout(db, p, fallback))
  {
    var ranks := AttemptRanks(db, p);
    if i :| i in db.attempts && db.attempts[i].prompt == p {
      assert i in ranks;
      var k := Last(ranks).value;
      forall j | j in db.attempts && db.attempts[j].prompt == p
        ensures db.attempts[j].created < db.attempts[k].created || (db.attempts[j].created == db.attempts[k].created && j <= k)
      {
        assert Below(ranks[j], ranks[k]);
      }
    }
  }

  predicate IsOver(db: Db, t: TaskId) {
    t in db.tasks && (db.tasks[t].status.Done? || db.tasks[t].status.Error? || db.tasks[t].status.Cancelled?)
  }

  /** RecoverTask commits exactly on a task that is over and whose latest prompt has a
      transcript, with unused ids. It queues the task again under a session like the
      latest one, one number further, that expires in three days if it is resumable,
      and with the timeout of the latest prompt's newest attempt. */
  lemma RecoverAdds(db: Db, t: TaskId, ids: Ids, fallback: int, now: Time, outcome: Outcome)
    requires outcome == RecoverTx(db, t, ids, fallback, now)
    ensures outcome.Committed? <==>
      && IsOver(db, t) && IdsUnused(db, ids) && LatestSession(db, t).Some? && LatestPrompt(db, t).Some?
      && db.prompts[LatestPrompt(db, t).value].transcript
    ensures outcome.Committed? ==>
      var s, p := db.sessions[LatestSession(db, t).value], LatestPrompt(db, t).value;
      && outcome.db.tasks == db.tasks[t := Task(TaskStatus.Pending, None, db.tasks[t].maxAttempts)]
      && (exists timeout :: CarriesOn(db, p, fallback, timeout)
            && ChainAdded(db, outcome.db, t, ids, s.number + 1, s.mode, s.isolated,
                          if s.mode.NotResumable? then None else Some(now + 259200), timeout, now))
      && Awaits(outcome.db, ids.attempt, s.isolated)
  {
    assert IsOver(db, t) <==> t in ReopenableTaskRow(db, t);
    assert IsOver(db, t) <==> ReopenableTaskRow(db, t) != {};
    if outcome.Committed? {
      RecoveredChain(db, t, ids, fallback, now, outcome.db, LatestSession(db, t).value, LatestPrompt(db, t).value);
    }
  }

  lemma RecoveredChain(db: Db, t: TaskId, ids: Ids, fallback: int, now: Time, db': Db, s: SessionId, p: PromptId)
    requires RecoverTx(db, t, ids, fallback, now) == Committed(db') && IsOver(db, t)
    requires LatestSession(db, t) == Some(s) && LatestPrompt(db, t) == Some(p)
    ensures db'.tasks == db.tasks[t := Task(TaskStatus.Pending, None, db.tasks[t].maxAttempts)]
    ensures (exists timeout :: CarriesOn(db, p, fallback, timeout)
               && ChainAdded(db, db', t, ids, db.sessions[s].number + 1, db.sessions[s].mode, db.sessions[s].isolated,
                             if db.sessions[s].mode.NotResumable? then None else Some(now + 259200), timeout, now))
    ensures Awaits(db', ids.attempt, db.sessions[s].isolated)
  {
    var row, timeout := db.sessions[s], LastTimeout(db, p, fallback);
    var expires := if row.mode.NotResumable? then None else Some(now + 259200);
    LastTimeoutCarriesOn(db, p, fallback);
    assert ReopenableTaskRow(db, t) == {t};
    RecoverInserts(db, t, ids, fallback, now, db', s, p, UpdateTasks(db, {t}, RequeueTask), expires);
    assert ChainAdded(db, db', t, ids, row.number + 1, row.mode, row.isolated, expires, timeout, now);
    ChainAwaits(db, db', t, ids, row.number + 1, row.mode, row.isolated, expires, timeout, now);
  }

  lemma RecoverInserts(db: Db, t: TaskId, ids: Ids, fallback: int, now: Time, db': Db, s: SessionId, p: PromptId, db1: Db, expires: Option<Time>)
    requires RecoverTx(db, t, ids, fallback, now) == Committed(db') && t in db.tasks && ReopenableTaskRow(db, t) == {t}
    requires LatestSession(db, t) == Some(s) && LatestPrompt(db, t) == Some(p) && db1 == UpdateTasks(db, {t}, RequeueTask)
    requires expires == if db.sessions[s].mode.NotResumable? then None else Some(now + 259200)
    ensures InsertChain(db1, ids, NewSession(t, db.sessions[s].number + 1, db.sessions[s].mode, db.sessions[s].isolated, expires, now),
                        LastTimeout(db, p, fallback), now) == Committed(db')
    ensures db1 == db.(tasks := db.tasks[t := Task(TaskStatus.Pending, None, db.tasks[t].maxAttempts)])
  {
    assert db1.tasks == db.tasks[t := Task(TaskStatus.Pending, None, db.tasks[t].maxAttempts)];
  }

  // --------------------------------------------------------------------- resume

  /** One more than every number of a prompt of session s; one if it has none. */
  ghost predicate NextNumber(db: Db, s: SessionId, number: int) {
    if exists p :: p in db.prompts && db.prompts[p].session == s then
      && (exists p :: p in db.prompts && db.prompts[p].session == s && db.prompts[p].number + 1 == number)
      && (forall p :: p in db.prompts && db.prompts[p].session == s ==> db.prompts[p].number < number)
    else number == 1
  }

  lemma NextPromptNumberIs(db: Db, s: SessionId)
    ensures NextNumber(db, s, NextPromptNumber(db, s))
  {
    var ranks := PromptRanksIn(db, s);
    if p :| p in db.prompts && db.prompts[p].session == s {
      assert p in ranks;
      var k := Last(ranks).value;
      forall q | q in db.prompts && db.prompts[q].session == s ensures db.prompts[q].number <= db.prompts[k].number {
        assert Below(ranks[q], ranks[k]);
      }
    }
  }

  /** ResumeAgentSession's transaction commits exactly on a task that is over and a
      parked session, with unused ids. It adds the next prompt of that session with an
      attempt that waits for the session's runner alone. */
  lemma ResumeAdds(db: Db, s: SessionId, t: TaskId, r: RunnerId, p: PromptId, i: AttemptId, timeout: int, now: Time, outcome: Outcome)
    requires outcome == ResumeTx(db, s, t, r, p, i, timeout, now)
    ensures outcome.Committed? <==>
      && IsOver(db, t) && p !in db.prompts && i !in db.attempts && s in db.sessions
      && (db.sessions[s].status.Paused? || db.sessions[s].status.Recoverable? || db.sessions[s].status.AwaitingReview?)
    ensures outcome.Committed? ==>
      var db' := outcome.db;
      && db'.tasks == db.tasks[t := Task(TaskStatus.Pending, None, db.tasks[t].maxAttempts)]
      && db'.sessions == db.sessions[s := db.sessions[s].(status := SessionStatus.Resuming, updated := now)]
      && (exists number :: NextNumber(db, s, number) && db'.prompts == db.prompts[p := Prompt(t, s, number, PromptStatus.Pending, false)])
      && i in db'.attempts && db'.attempts == db.attempts[i := db'.attempts[i]] && Fresh(db'.attempts[i], p, Only(r), timeout, now)
      && db'.runners == db.runners && db'.checkpoints == db.checkpoints
      && (forall q, capable :: Claimable(db', i, q, capable) <==> q == r && (db.sessions[s].isolated ==> capable))
  {
    assert IsOver(db, t) <==> t in ReopenableTaskRow(db, t);
    assert IsOver(db, t) <==> ReopenableTaskRow(db, t) != {};
    assert s in db.sessions && Parked(db.sessions[s]) <==> s in ParkedSession(db, s);
    if outcome.Committed? {
      ResumedTables(db, s, t, r, p, i, timeout, now, outcome.db);
      NextPromptNumberIs(db, s);
      assert NeedsIsolation(outcome.db, i) <==> db.sessions[s].isolated;
    }
  }

  lemma ResumedTables(db: Db, s: SessionId, t: TaskId, r: RunnerId, p: PromptId, i: AttemptId, timeout: int, now: Time, db': Db)
    requires ResumeTx(db, s, t, r, p, i, timeout, now) == Committed(db') && IsOver(db, t) && s in db.sessions && Parked(db.sessions[s])
    ensures db' == db.(
      tasks := db.tasks[t := Task(TaskStatus.Pending, None, db.tasks[t].maxAttempts)],
      sessions := db.sessions[s := db.sessions[s].(status := SessionStatus.Resuming, updated := now)],
      prompts := db.prompts[p := Prompt(t, s, NextPromptNumber(db, s), PromptStatus.Pending, false)],
      attempts := db.attempts[i := NewAttempt(p, Only(r), timeout, now)])
  {
    assert ReopenableTaskRow(db, t) == {t} && ParkedSession(db, s) == {s};
    assert db'.tasks == db.tasks[t := Task(TaskStatus.Pending, None, db.tasks[t].maxAttempts)];
    assert db'.sessions == db.sessions[s := db.sessions[s].(status := SessionStatus.Resuming, updated := now)];
  }

  // ---------------------------------------------------------------------- claim

  /** The rows after the claim of attempt i of task t. */
  ghost predicate Started(db: Db, db': Db, t: TaskId, i: AttemptId, r: RunnerId, c: ClaimId, lease: Time, now: Time)
    requires i in db.attempts && t in db.tasks
  {
    && db'.attempts == db.attempts[i := db.attempts[i].(status := AttemptStatus.Running, runner := Some(r), claim := Some(c),
                                                        lease := Some(now + lease), started := Some(now))]
    && db'.tasks == db.tasks[t := db.tasks[t].(status := TaskStatus.Running)]
    && db'.prompts == (match LatestPrompt(db, t)
                       case None => db.prompts
                       case Some(p) => if db.prompts[p].status.Pending? || db.prompts[p].status.Claimed?
                                       then db.prompts[p := db.prompts[p].(status := PromptStatus.Running)] else db.prompts)
    && db'.sessions == db.sessions && db'.runners == db.runners && db'.checkpoints == db.checkpoints
  }

  /** A claim commits exactly within the task's limit of attempts, when the prompt's
      session exists. It gives the attempt to its runner until the lease runs out,
      starts its task, and starts the task's latest prompt if it waits. The attempt
      overruns exactly two minutes after its timeout. */
  lemma ClaimStarts(db: Db, t: TaskId, i: AttemptId, r: RunnerId, c: ClaimId, lease: Time, now: Time, outcome: Outcome, clock: Time)
    requires Owns(db, t, i) && db.attempts[i].status.Pending? && t in db.tasks && db.tasks[t].status.Pending?
    requires outcome == ClaimTx(db, i, r, c, lease, now)
    ensures outcome.Committed? <==>
      && |set k | k in db.attempts && Owns(db, t, k)| <= db.tasks[t].maxAttempts
      && db.prompts[db.attempts[i].prompt].session in db.sessions
    ensures outcome.Committed? ==> Started(db, outcome.db, t, i, r, c, lease, now)
    ensures outcome.Committed? ==>
      && (i in OverrunAttempts(outcome.db, clock) <==> now + db.attempts[i].timeout + 120 < clock)
      && (i in ExpiredAttempts(outcome.db, clock) <==> now + lease < clock)
  {
    assert AttemptsOf(db, t) == set k | k in db.attempts && Owns(db, t, k);
    if outcome.Committed? {
      var clause := ClaimAttempt(r, c, now + lease, now);
      var db1 := UpdateAttempts(db, PendingAttempt(db, i), clause);
      var db2 := UpdateTasks(db1, PendingTaskRow(db1, t), RunTask);
      ClaimWrites(db, t, i, clause, db1, db2);
      StartsLatestPrompt(db, t, db2, outcome.db);
    }
  }

  lemma ClaimWrites(db: Db, t: TaskId, i: AttemptId, clause: SetAttempt, db1: Db, db2: Db)
    requires Owns(db, t, i) && db.attempts[i].status.Pending? && t in db.tasks && db.tasks[t].status.Pending?
    requires db1 == UpdateAttempts(db, PendingAttempt(db, i), clause) && db2 == UpdateTasks(db1, PendingTaskRow(db1, t), RunTask)
    ensures db2 == db.(attempts := db.attempts[i := WithAttempt(clause, db.attempts[i])],
                       tasks := db.tasks[t := db.tasks[t].(status := TaskStatus.Running)])
  {
    assert PendingAttempt(db, i) == {i} && PendingTaskRow(db1, t) == {t};
    assert db1.attempts == db.attempts[i := WithAttempt(clause, db.attempts[i])];
    assert db2.tasks == db.tasks[t := db.tasks[t].(status := TaskStatus.Running)];
  }

  lemma StartsLatestPrompt(db: Db, t: TaskId, db2: Db, db': Db)
    requires db2.prompts == db.prompts && db2.sessions == db.sessions
    requires db' == UpdatePrompts(db2, LatestQueuedPrompt(db2, t), SetPromptStatus(PromptStatus.Running))
    ensures db' == db2.(prompts := db'.prompts)
    ensures db'.prompts == match LatestPrompt(db, t)
                           case None => db.prompts
                           case Some(p) => if db.prompts[p].status.Pending? || db.prompts[p].status.Claimed?
                                           then db.prompts[p := db.prompts[p].(status := PromptStatus.Running)] else db.prompts
  {
    assert PromptRanks(db2, t) == PromptRanks(db, t);
    match LatestPrompt(db, t)
    case None => assert db'.prompts == db.prompts;
    case Some(p) =>
      if db.prompts[p].status.Pending? || db.prompts[p].status.Claimed? {
        assert LatestQueuedPrompt(db2, t) == {p};
        assert db'.prompts == db.prompts[p := db.prompts[p].(status := PromptStatus.Running)];
      } else {
        assert db'.prompts == db.prompts;
      }
  }

  // ------------------------------------------------------- cancel, clear, extend

  /** An attempt as a cancellation leaves it. */
  function Stopped(a: Attempt, now: Time): Attempt {
    a.(status := AttemptStatus.Cancelled, category := Some(ByOperator), lease := None,
       ended := if a.ended.Some? then a.ended else Some(now))
  }

  /** CancelTask stops the active attempts of its task and the task, and no other row. */
  lemma CancelStops(db: Db, t: TaskId, now: Time, db': Db)
    requires CancelTx(db, t, now) == Committed(db')
    ensures t in db.tasks && db'.tasks == db.tasks[t := db.tasks[t].(status := TaskStatus.Cancelled, category := Some(ByOperator))]
    ensures db' == db.(tasks := db'.tasks, attempts := db'.attempts) && db'.attempts.Keys == db.attempts.Keys
    ensures forall i :: i in db.attempts ==>
      db'.attempts[i] == if Owns(db, t, i) && (db.attempts[i].status.Pending? || db.attempts[i].status.Running?)
                         then Stopped(db.attempts[i], now) else db.attempts[i]
  {
    var db1 := UpdateAttempts(db, ActiveAttemptsOf(db, t), CancelAttempt(now));
    assert ActiveTaskRow(db1, t) == {t};
    assert db'.tasks == db.tasks[t := db.tasks[t].(status := TaskStatus.Cancelled, category := Some(ByOperator))];
  }

  /** ClearQueue stops every pending attempt and every pending task, and no other row. */
  lemma ClearQueueStops(db: Db, now: Time)
    ensures var db' := ClearQueueTx(db, now);
      && db' == db.(tasks := db'.tasks, attempts := db'.attempts)
      && db'.attempts.Keys == db.attempts.Keys && db'.tasks.Keys == db.tasks.Keys
      && (forall i :: i in db.attempts ==>
            db'.attempts[i] == if db.attempts[i].status.Pending? then Stopped(db.attempts[i], now) else db.attempts[i])
      && (forall t :: t in db.tasks ==>
            db'.tasks[t] == if db.tasks[t].status.Pending?
                            then db.tasks[t].(status := TaskStatus.Cancelled, category := Some(ByOperator)) else db.tasks[t])
  {
  }

  /** An extension lets every active attempt of the task overrun exactly that much
      later, and changes nothing else. */
  lemma ExtensionPostpones(db: Db, t: TaskId, seconds: int, i: AttemptId, clock: Time)
    requires i in db.attempts
    ensures var db' := ExtendStmt(db, t, seconds);
      && db' == db.(attempts := db'.attempts) && db'.attempts.Keys == db.attempts.Keys
      && db'.attempts[i].(timeout := db.attempts[i].timeout) == db.attempts[i]
      && (i in OverrunAttempts(db', clock) <==> i in OverrunAttempts(db, if Owns(db, t, i) then clock - seconds else clock))
      && (!Owns(db, t, i) || !(db.attempts[i].status.Pending? || db.attempts[i].status.Running?) ==> db'.attempts[i] == db.attempts[i])
  {
  }
}
