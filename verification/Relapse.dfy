/** What goes wrong for a reopened task: one that a reaper failed over its running
    attempt may run twice, and one over its limit blocks the claim query. */
module Relapse {
  import opened Basics
  import opened Tables
  import opened Transactions
  import opened Integrity
  import opened OneAttempt

  /** Once a task has strayed from a running attempt, resuming another of its
      sessions and claiming the new attempt gives it two running attempts: the
      service makes both requests, and their transactions commit. */
  lemma StrayedTaskRunsTwice(db: Db, t: TaskId, n: AttemptId, s: SessionId, r: RunnerId, c: ClaimId,
                             p: PromptId, i: AttemptId, timeout: int, lease: Time, now: Time)
    returns (db1: Db, last: Db)
    requires Refs(db) && t in db.tasks && db.tasks[t].status.Error? && Owns(db, t, n) && db.attempts[n].status.Running?
    requires MayResume(db, s, now) && db.sessions[s].task == t && db.sessions[s].pinned == Some(r) && 0 < lease <= 3600
    requires db.sessions[s].isolated ==> db.runners[r].isolated
    requires p !in db.prompts && i !in db.attempts && |AttemptsOf(db, t)| < db.tasks[t].maxAttempts
    ensures Leads(db, Resume(s, t, r, p, i, timeout, now), db1) && Served(db, Resume(s, t, r, p, i, timeout, now))
    ensures var claim := Claim(i, r, db.runners[r].isolated, db1.attempts.Keys - {i}, c, lease, now);
      Leads(db1, claim, last) && Served(db1, claim)
    ensures n != i && Owns(last, t, n) && Owns(last, t, i)
    ensures last.attempts[n].status.Running? && last.attempts[i].status.Running?
  {
    var capable := db.runners[r].isolated;
    db1 := ResumeStep(db, s, t, r, p, i, timeout, now);
    last := ClaimNext(db, db1, t, n, s, r, capable, c, p, i, timeout, lease, now);
    ServedRequests(db, s, t, r, p, i, timeout, capable, db1, db1.attempts.Keys - {i}, c, lease, now);
  }

  lemma ServedRequests(db: Db, s: SessionId, t: TaskId, r: RunnerId, p: PromptId, i: AttemptId, timeout: int,
                       capable: bool, db1: Db, locked: set<AttemptId>, c: ClaimId, lease: Time, now: Time)
    requires MayResume(db, s, now) && db.sessions[s].task == t && db.sessions[s].pinned == Some(r)
    requires db1.runners == db.runners && capable == db.runners[r].isolated && 0 < lease <= 3600
    ensures Served(db, Resume(s, t, r, p, i, timeout, now)) && Served(db1, Claim(i, r, capable, locked, c, lease, now))
  {
  }

  /** The rows of a reopened session: its task pending, the new attempt queued. */
  ghost predicate Reopened(db: Db, db1: Db, t: TaskId, s: SessionId, r: RunnerId, p: PromptId, i: AttemptId, timeout: int, now: Time) {
    && t in db.tasks && s in db.sessions && i !in db.attempts && db1.runners == db.runners
    && t in db1.tasks && db1.tasks[t] == WithTask(RequeueTask, db.tasks[t])
    && db1.attempts == db.attempts[i := NewAttempt(p, Only(r), timeout, now)]
    && p in db1.prompts && db1.prompts[p].session == s && s in db1.sessions && db1.sessions[s].isolated == db.sessions[s].isolated
    && (forall k :: Owns(db1, t, k) <==> Owns(db, t, k) || k == i)
    && |AttemptsOf(db1, t)| == |AttemptsOf(db, t)| + 1
  }

  /** The claim of the resumed attempt. */
  lemma ClaimNext(db: Db, db1: Db, t: TaskId, n: AttemptId, s: SessionId, r: RunnerId, capable: bool, c: ClaimId,
                  p: PromptId, i: AttemptId, timeout: int, lease: Time, now: Time)
    returns (last: Db)
    requires Owns(db, t, n) && db.attempts[n].status.Running? && Reopened(db, db1, t, s, r, p, i, timeout, now)
    requires |AttemptsOf(db, t)| < db.tasks[t].maxAttempts && (db.sessions[s].isolated ==> capable)
    ensures Leads(db1, Claim(i, r, capable, db1.attempts.Keys - {i}, c, lease, now), last)
    ensures n != i && Owns(last, t, n) && Owns(last, t, i)
    ensures last.attempts[n].status.Running? && last.attempts[i].status.Running?
  {
    last := ClaimStep(db1, t, i, s, r, capable, c, lease, now);
    BothRun(db.attempts, db1.attempts, last.attempts, n, i, NewAttempt(p, Only(r), timeout, now), ClaimAttempt(r, c, now + lease, now));
  }

  lemma BothRun(a: map<AttemptId, Attempt>, b: map<AttemptId, Attempt>, c: map<AttemptId, Attempt>,
                n: AttemptId, i: AttemptId, row: Attempt, clause: SetAttempt)
    requires n in a && i !in a && a[n].status.Running? && clause.ClaimAttempt?
    requires b == a[i := row] && c == b[i := WithAttempt(clause, row)]
    ensures n != i && n in c && c[n].status.Running? && i in c && c[i].status.Running?
  {
  }

  lemma ResumeStep(db: Db, s: SessionId, t: TaskId, r: RunnerId, p: PromptId, i: AttemptId, timeout: int, now: Time) returns (db1: Db)
    requires Refs(db) && t in db.tasks && Reopenable(db.tasks[t])
    requires s in db.sessions && db.sessions[s].task == t && Parked(db.sessions[s])
    requires p !in db.prompts && i !in db.attempts
    ensures Leads(db, Resume(s, t, r, p, i, timeout, now), db1)
    ensures Reopened(db, db1, t, s, r, p, i, timeout, now)
  {
    ResumedRows(db, s, t, r, p, i, timeout, now);
    db1 := ResumeTx(db, s, t, r, p, i, timeout, now).db;
    CountGrows(db, db1, t, i);
  }

  lemma ClaimStep(db: Db, t: TaskId, i: AttemptId, s: SessionId, r: RunnerId, capable: bool, c: ClaimId, lease: Time, now: Time)
    returns (db1: Db)
    requires Owns(db, t, i) && t in db.tasks && db.tasks[t].status.Pending? && db.attempts[i].status.Pending?
    requires db.attempts[i].required == Only(r) || db.attempts[i].required == Anyone
    requires db.prompts[db.attempts[i].prompt].session == s && s in db.sessions && (db.sessions[s].isolated ==> capable)
    requires |AttemptsOf(db, t)| <= db.tasks[t].maxAttempts
    ensures Leads(db, Claim(i, r, capable, db.attempts.Keys - {i}, c, lease, now), db1)
    ensures db1.attempts == db.attempts[i := WithAttempt(ClaimAttempt(r, c, now + lease, now), db.attempts[i])]
    ensures forall u, k :: Owns(db1, u, k) <==> Owns(db, u, k)
  {
    ClaimedRows(db, t, i, s, r, capable, c, lease, now);
    db1 := Next(db, Claim(i, r, capable, db.attempts.Keys - {i}, c, lease, now));
  }

  /** The rows a resume leaves. */
  lemma ResumedRows(db: Db, s: SessionId, t: TaskId, r: RunnerId, p: PromptId, i: AttemptId, timeout: int, now: Time)
    requires Refs(db) && t in db.tasks && Reopenable(db.tasks[t])
    requires s in db.sessions && db.sessions[s].task == t && Parked(db.sessions[s])
    requires p !in db.prompts && i !in db.attempts
    ensures ResumeTx(db, s, t, r, p, i, timeout, now).Committed?
    ensures var db1 := ResumeTx(db, s, t, r, p, i, timeout, now).db;
      && t in db1.tasks && db1.tasks[t] == WithTask(RequeueTask, db.tasks[t])
      && db1.attempts == db.attempts[i := NewAttempt(p, Only(r), timeout, now)] && db1.runners == db.runners
      && p in db1.prompts && db1.prompts[p].session == s && s in db1.sessions && db1.sessions[s].isolated == db.sessions[s].isolated
      && (forall u, k :: Owns(db1, u, k) <==> Owns(db, u, k) || (u == t && k == i))
  {
    var db1 := UpdateTasks(db, ReopenableTaskRow(db, t), RequeueTask);
    assert t in ReopenableTaskRow(db, t) && s in ParkedSession(db, s);
    ReopenFacts(db, t, db1);
    var prompt, row := Prompt(t, s, NextPromptNumber(db, s), PromptStatus.Pending, false), NewAttempt(p, Only(r), timeout, now);
    InsertPromptFacts(db1, p, i, prompt, row);
    var db2 := db1.(prompts := db1.prompts[p := prompt], attempts := db1.attempts[i := row]);
    SessionsKeepChain(db2, ParkedSession(db2, s), SetSessionStatus(SessionStatus.Resuming, now));
    SameChainFacts(db2, UpdateSessions(db2, ParkedSession(db2, s), SetSessionStatus(SessionStatus.Resuming, now)));
  }

  lemma CountGrows(db: Db, db1: Db, t: TaskId, i: AttemptId)
    requires forall k :: Owns(db1, t, k) <==> Owns(db, t, k) || k == i
    requires i !in db.attempts
    ensures |AttemptsOf(db1, t)| == |AttemptsOf(db, t)| + 1
  {
    forall k ensures k in AttemptsOf(db1, t) <==> k in AttemptsOf(db, t) + {i} {
      assert Owns(db1, t, k) <==> Owns(db, t, k) || k == i;
    }
    assert AttemptsOf(db1, t) == AttemptsOf(db, t) + {i};
  }

  /** The rows a claim leaves when only attempt i is not locked by others. */
  lemma ClaimedRows(db: Db, t: TaskId, i: AttemptId, s: SessionId, r: RunnerId, capable: bool, c: ClaimId, lease: Time, now: Time)
    requires Owns(db, t, i) && t in db.tasks && db.tasks[t].status.Pending? && db.attempts[i].status.Pending?
    requires db.attempts[i].required == Only(r) || db.attempts[i].required == Anyone
    requires db.prompts[db.attempts[i].prompt].session == s && s in db.sessions && (db.sessions[s].isolated ==> capable)
    requires |AttemptsOf(db, t)| <= db.tasks[t].maxAttempts
    ensures var claim := Claim(i, r, capable, db.attempts.Keys - {i}, c, lease, now);
      Enabled(db, claim) && Apply(db, claim).Committed?
      && var db1 := Apply(db, claim).db;
         && db1.attempts == db.attempts[i := WithAttempt(ClaimAttempt(r, c, now + lease, now), db.attempts[i])]
         && (forall u, k :: Owns(db1, u, k) <==> Owns(db, u, k))
  {
    assert Claimable(db, i, r, capable);
    assert ClaimableAttempts(db, r, capable, db.attempts.Keys - {i}) == {i};
    ClaimTxRows(db, t, i, r, c, lease, now);
  }

  lemma ClaimTxRows(db: Db, t: TaskId, i: AttemptId, r: RunnerId, c: ClaimId, lease: Time, now: Time)
    requires Owns(db, t, i) && t in db.tasks && db.tasks[t].status.Pending? && db.attempts[i].status.Pending?
    requires db.prompts[db.attempts[i].prompt].session in db.sessions && |AttemptsOf(db, t)| <= db.tasks[t].maxAttempts
    ensures ClaimTx(db, i, r, c, lease, now).Committed?
    ensures var db' := ClaimTx(db, i, r, c, lease, now).db;
      && db'.attempts == db.attempts[i := WithAttempt(ClaimAttempt(r, c, now + lease, now), db.attempts[i])]
      && (forall u, k :: Owns(db', u, k) <==> Owns(db, u, k))
  {
    var clause := ClaimAttempt(r, c, now + lease, now);
    var db1 := UpdateAttempts(db, PendingAttempt(db, i), clause);
    var db2 := UpdateTasks(db1, PendingTaskRow(db1, t), RunTask);
    var db3 := UpdatePrompts(db2, LatestQueuedPrompt(db2, t), SetPromptStatus(PromptStatus.Running));
    AttemptsThenTasks(db, PendingAttempt(db, i), clause, PendingTaskRow(db1, t), RunTask);
    PromptsKeepChain(db2, LatestQueuedPrompt(db2, t), SetPromptStatus(PromptStatus.Running));
    SameChainTransitive(db, db2, db3);
    SameChainFacts(db, db3);
    assert PendingAttempt(db, i) == {i};
    assert db1.attempts == db.attempts[i := WithAttempt(clause, db.attempts[i])];
  }

  // ------------------------------------------------------- the limit and the queue

  /** A claim of the attempt the query selected commits exactly when its task is
      within its limit. */
  lemma ClaimCommitsIff(db: Db, step: Step, t: TaskId)
    requires Refs(db) && step.Claim? && Enabled(db, step) && Owns(db, t, step.attempt)
    ensures t in db.tasks && (Apply(db, step).Committed? <==> |AttemptsOf(db, t)| <= db.tasks[t].maxAttempts)
  {
    assert PromptRefs(db, db.attempts[step.attempt].prompt);
  }

  /** While a pending task over its limit owns the oldest attempt a runner may take,
      no claim by that runner commits, unless another transaction holds the row. */
  lemma OverLimitBlocksTheQueue(db: Db, t: TaskId, i: AttemptId, r: RunnerId, capable: bool, step: Step)
    requires Refs(db) && Owns(db, t, i) && Claimable(db, i, r, capable)
    requires t in db.tasks && |AttemptsOf(db, t)| > db.tasks[t].maxAttempts
    requires forall k :: Claimable(db, k, r, capable) && k != i ==> db.attempts[i].created < db.attempts[k].created
    requires step.Claim? && step.runner == r && step.capable == capable && i !in step.locked && Enabled(db, step)
    ensures step.attempt == i && Next(db, step) == db
  {
    assert i in ClaimableAttempts(db, r, capable, step.locked);
    ClaimCommitsIff(db, step, t);
  }

  /** A recovered task stays within its limit exactly when it had an attempt left:
      RecoverTask does not check. */
  lemma RecoveredWithinLimitIff(db: Db, t: TaskId, ids: Ids, timeout: int, now: Time)
    requires Refs(db) && RecoverTx(db, t, ids, timeout, now).Committed?
    ensures var db' := RecoverTx(db, t, ids, timeout, now).db;
      t in db.tasks && t in db'.tasks
      && (|AttemptsOf(db', t)| <= db'.tasks[t].maxAttempts <==> |AttemptsOf(db, t)| < db.tasks[t].maxAttempts)
  {
    var db1 := UpdateTasks(db, ReopenableTaskRow(db, t), RequeueTask);
    assert t in ReopenableTaskRow(db, t);
    ReopenFacts(db, t, db1);
    var s, p := LatestSession(db, t).value, LatestPrompt(db, t).value;
    var before := db.sessions[s];
    var expires := if before.mode.NotResumable? then None else Some(now + 72 * 3600);
    var session := NewSession(t, NextSessionNumber(db, t), before.mode, before.isolated, expires, now);
    InsertChainFacts(db1, ids, session, LastTimeout(db, p, timeout), now);
    CountGrows(db, RecoverTx(db, t, ids, timeout, now).db, t, ids.attempt);
  }

  /** Nor does ResumeAgentSession. */
  lemma ResumedWithinLimitIff(db: Db, s: SessionId, t: TaskId, r: RunnerId, p: PromptId, i: AttemptId, timeout: int, now: Time)
    requires Refs(db) && s in db.sessions && db.sessions[s].task == t && ResumeTx(db, s, t, r, p, i, timeout, now).Committed?
    ensures var db' := ResumeTx(db, s, t, r, p, i, timeout, now).db;
      t in db.tasks && t in db'.tasks
      && (|AttemptsOf(db', t)| <= db'.tasks[t].maxAttempts <==> |AttemptsOf(db, t)| < db.tasks[t].maxAttempts)
  {
    assert t in ReopenableTaskRow(db, t) && s in ParkedSession(db, s);
    var db' := ResumeStep(db, s, t, r, p, i, timeout, now);
  }
}
