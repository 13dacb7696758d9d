/** The rows that a pass of the lease reaper queues in place of a lost attempt. */
module Succession {
  import opened Basics
  import opened Tables
  import opened Transactions
  import opened Integrity
  import opened OneAttempt
  import opened Rollups
  import opened Fencing
  import opened LeaseRace

  ghost predicate SameSessions(db: Db, db': Db, t: TaskId) {
    && (forall s :: (s in db'.sessions && db'.sessions[s].task == t) <==> (s in db.sessions && db.sessions[s].task == t))
    && (forall s :: s in db.sessions && db.sessions[s].task == t ==> db'.sessions[s] == db.sessions[s])
  }

  ghost predicate SamePrompts(db: Db, db': Db, t: TaskId) {
    && (forall p :: (p in db'.prompts && db'.prompts[p].task == t) <==> (p in db.prompts && db.prompts[p].task == t))
    && (forall p :: p in db.prompts && db.prompts[p].task == t ==> db'.prompts[p] == db.prompts[p])
  }

  /** The sessions and the prompts of task t are the same. */
  ghost predicate SameStory(db: Db, db': Db, t: TaskId) {
    SameSessions(db, db', t) && SamePrompts(db, db', t)
  }

  lemma SameStoryTransitive(a: Db, b: Db, c: Db, t: TaskId)
    requires SameStory(a, b, t) && SameStory(b, c, t)
    ensures SameStory(a, c, t)
  {
  }

  /** It has the same latest session and prompt. */
  lemma SameStoryFacts(db: Db, db': Db, t: TaskId)
    requires Refs(db) && Refs(db') && SameStory(db, db', t)
    ensures LatestSession(db', t) == LatestSession(db, t) && LatestPrompt(db', t) == LatestPrompt(db, t)
  {
    assert SessionRanks(db', t) == SessionRanks(db, t);
    SamePromptRanks(db, db', t);
  }

  lemma SamePromptRanks(db: Db, db': Db, t: TaskId)
    requires Refs(db) && Refs(db') && SameStory(db, db', t)
    ensures PromptRanks(db', t) == PromptRanks(db, t)
  {
    forall p | p in db.prompts && db.prompts[p].task == t
      ensures db.prompts[p].session in db.sessions && db'.prompts[p].session in db'.sessions && PromptRank(db', p) == PromptRank(db, p)
    {
      assert PromptRefs(db, p) && PromptRefs(db', p);
    }
  }

  // ----------------------------------------------------------- one reclaim

  /** The rows of a reclaim of task t beside its attempts: the latest prompt fails if
      it was in flight, the latest session is abandoned if it was open, and one session
      with one prompt is new. */
  ghost predicate Turns(db: Db, db': Db, t: TaskId, ids: Ids, now: Time) {
    && LatestSession(db, t).Some? && LatestPrompt(db, t).Some?
    && ids.session !in db.sessions && ids.prompt !in db.prompts
    && var s, p := LatestSession(db, t).value, LatestPrompt(db, t).value;
       var former, was := db.sessions[s], db.prompts[p];
       && db'.sessions == db.sessions[s := if Open(former) then former.(status := SessionStatus.Abandoned, updated := now) else former]
                                     [ids.session := Session(t, former.number + 1, SessionStatus.Running, former.mode, former.isolated, None,
                                                             former.expires, now, false, false, false)]
       && db'.prompts == db.prompts[p := if InFlight(was) then was.(status := PromptStatus.Failed) else was]
                                   [ids.prompt := Prompt(t, ids.session, 1, PromptStatus.Pending, false)]
  }

  lemma GiveUpRows(db: Db, i: AttemptId, t: TaskId, p: PromptId, s: SessionId, now: Time)
    requires s in db.sessions && p in db.prompts
    ensures var db4, former, was := GiveUp(db, i, t, p, s, now), db.sessions[s], db.prompts[p];
      && db4.sessions == db.sessions[s := if Open(former) then former.(status := SessionStatus.Abandoned, updated := now) else former]
      && db4.prompts == db.prompts[p := if InFlight(was) then was.(status := PromptStatus.Failed) else was]
  {
    var db4 := GiveUp(db, i, t, p, s, now);
    assert db4.sessions == UpdateSessions(db, OpenSession(db, s), SetSessionStatus(SessionStatus.Abandoned, now)).sessions;
    assert db4.prompts == UpdatePrompts(db, UnfinishedPrompt(db, p), SetPromptStatus(PromptStatus.Failed)).prompts;
  }

  lemma ReclaimTurns(db: Db, i: AttemptId, ids: Ids, now: Time)
    requires i in db.attempts && !Spared(db, i) && ReclaimOne(db, i, ids, now).Committed?
    ensures db.attempts[i].prompt in db.prompts && Turns(db, ReclaimOne(db, i, ids, now).db, db.prompts[db.attempts[i].prompt].task, ids, now)
  {
    var t := db.prompts[db.attempts[i].prompt].task;
    var s, p := LatestSession(db, t).value, LatestPrompt(db, t).value;
    GiveUpRows(db, i, t, p, s, now);
  }

  lemma TurnsElsewhere(db: Db, db': Db, u: TaskId, ids: Ids, now: Time, t: TaskId)
    requires Turns(db, db', u, ids, now) && t != u
    ensures SameStory(db, db', t)
  {
    var s, p := LatestSession(db, u).value, LatestPrompt(db, u).value;
    var former, was := db.sessions[s], db.prompts[p];
    SessionsElsewhere(db, db', u, s, if Open(former) then former.(status := SessionStatus.Abandoned, updated := now) else former,
                      ids.session, db'.sessions[ids.session], t);
    PromptsElsewhere(db, db', u, p, if InFlight(was) then was.(status := PromptStatus.Failed) else was, ids.prompt, db'.prompts[ids.prompt], t);
  }

  lemma SessionsElsewhere(db: Db, db': Db, u: TaskId, s: SessionId, row: Session, n: SessionId, added: Session, t: TaskId)
    requires t != u && s in db.sessions && n !in db.sessions && db'.sessions == db.sessions[s := row][n := added]
    requires db.sessions[s].task == u && row.task == u && added.task == u
    ensures SameSessions(db, db', t)
  {
  }

  lemma PromptsElsewhere(db: Db, db': Db, u: TaskId, p: PromptId, row: Prompt, n: PromptId, added: Prompt, t: TaskId)
    requires t != u && p in db.prompts && n !in db.prompts && db'.prompts == db.prompts[p := row][n := added]
    requires db.prompts[p].task == u && row.task == u && added.task == u
    ensures SamePrompts(db, db', t)
  {
  }

  lemma StoryOfAnother(db: Db, t: TaskId, k: AttemptId, ids: Ids, now: Time)
    requires k in db.attempts && !Owns(db, t, k) && ReclaimOne(db, k, ids, now).Committed?
    ensures SameStory(db, ReclaimOne(db, k, ids, now).db, t)
  {
    if !Spared(db, k) {
      ReclaimTurns(db, k, ids, now);
      TurnsElsewhere(db, ReclaimOne(db, k, ids, now).db, db.prompts[db.attempts[k].prompt].task, ids, now, t);
    }
  }

  lemma {:induction false} StoriesOfOthers(db: Db, order: seq<AttemptId>, drawn: seq<Ids>, now: Time, t: TaskId)
    requires Refs(db) && t in db.tasks && |order| == |drawn| && ReclaimAll(db, order, drawn, now).Committed?
    requires forall k :: k in order ==> k in db.attempts && !Owns(db, t, k)
    ensures SameStory(db, ReclaimAll(db, order, drawn, now).db, t)
    decreases |order|
  {
    if order != [] {
      var db1 := ReclaimOne(db, order[0], drawn[0], now).db;
      StoryOfAnother(db, t, order[0], drawn[0], now);
      ReclaimOfAnother(db, t, order[0], drawn[0], now);
      ReclaimEvolves(db, order[0], drawn[0], now);
      forall k | k in order[1..] ensures k in db1.attempts && !Owns(db1, t, k) {
        assert k in order;
      }
      StoriesOfOthers(db1, order[1..], drawn[1..], now, t);
      SameStoryTransitive(db, db1, ReclaimAll(db, order, drawn, now).db, t);
    }
  }

  // ------------------------------------------------------------- a whole pass

  /** Attempt n stands in for the lost attempt i of task t: pending, for anyone, with
      its timeout, under a new prompt of a new session that carries on the mode, the
      isolation and the expiry of the task's latest session, one number further. */
  ghost predicate Successor(db: Db, db': Db, t: TaskId, i: AttemptId, n: AttemptId, now: Time)
    requires i in db.attempts
  {
    && n !in db.attempts && n in db'.attempts
    && var a := db'.attempts[n];
       && a.status.Pending? && a.required.Anyone? && a.runner.None? && a.claim.None? && a.lease.None?
       && a.timeout == db.attempts[i].timeout && a.created == now
       && a.prompt !in db.prompts && a.prompt in db'.prompts
       && var p := db'.prompts[a.prompt];
          && p.task == t && p.number == 1 && p.status.Pending?
          && p.session !in db.sessions && p.session in db'.sessions
          && LatestSession(db, t).Some?
          && var former, s := db.sessions[LatestSession(db, t).value], db'.sessions[p.session];
             && s.task == t && s.number == former.number + 1 && s.status.Running?
             && s.mode == former.mode && s.isolated == former.isolated && s.expires == former.expires
             && s.pinned.None? && !s.workspace && !s.checkpoint && !s.harness
  }

  /** The former latest session and prompt of task t are closed. */
  ghost predicate Closed(db: Db, db': Db, t: TaskId) {
    && LatestSession(db, t).Some? && LatestPrompt(db, t).Some?
    && var s, p := LatestSession(db, t).value, LatestPrompt(db, t).value;
       && s in db'.sessions && db'.sessions[s].task == t && (if Open(db.sessions[s]) then db'.sessions[s].status.Abandoned? else db'.sessions[s] == db.sessions[s])
       && p in db'.prompts && db'.prompts[p].task == t && (if InFlight(db.prompts[p]) then db'.prompts[p].status.Failed? else db'.prompts[p] == db.prompts[p])
  }

  /** The attempt is lost, and its task pending without a failure. */
  ghost predicate GivenUp(db: Db, db': Db, t: TaskId, i: AttemptId, now: Time)
    requires i in db.attempts
  {
    && Owns(db', t, i) && db'.attempts[i] == db.attempts[i].(status := AttemptStatus.Lost, ended := Some(now))
    && t in db.tasks && t in db'.tasks && db'.tasks[t] == Task(TaskStatus.Pending, None, db.tasks[t].maxAttempts)
  }

  ghost predicate Succeeded(db: Db, db': Db, t: TaskId, i: AttemptId, now: Time)
    requires i in db.attempts
  {
    (exists n :: Successor(db, db', t, i, n, now)) && Closed(db, db', t) && GivenUp(db, db', t, i, now)
  }

  lemma TurnsSucceed(db: Db, db': Db, t: TaskId, i: AttemptId, ids: Ids, now: Time)
    requires i in db.attempts && Turns(db, db', t, ids, now) && ids.attempt !in db.attempts
    requires ids.attempt in db'.attempts && db'.attempts[ids.attempt] == NewAttempt(ids.prompt, Anyone, db.attempts[i].timeout, now)
    requires GivenUp(db, db', t, i, now)
    ensures Succeeded(db, db', t, i, now)
  {
    assert Successor(db, db', t, i, ids.attempt, now);
  }

  lemma ReclaimedIsGivenUp(db: Db, t: TaskId, i: AttemptId, n: AttemptId, row: Attempt, now: Time, db': Db)
    requires Reclaimed(db, t, i, n, row, now, db')
    ensures GivenUp(db, db', t, i, now) && n in db'.attempts && db'.attempts[n] == row && n !in db.attempts
  {
  }

  lemma ReclaimSucceeds(db: Db, t: TaskId, i: AttemptId, ids: Ids, now: Time)
    requires Refs(db) && Owns(db, t, i) && !Spared(db, i) && ReclaimOne(db, i, ids, now).Committed?
    ensures Succeeded(db, ReclaimOne(db, i, ids, now).db, t, i, now)
  {
    ReclaimTurns(db, i, ids, now);
    ReclaimRows(db, i, ids, now);
    ReclaimedIsGivenUp(db, t, i, ids.attempt, NewAttempt(ids.prompt, Anyone, db.attempts[i].timeout, now), now, ReclaimOne(db, i, ids, now).db);
    TurnsSucceed(db, ReclaimOne(db, i, ids, now).db, t, i, ids, now);
  }

  lemma SucceededThenSame(a: Db, b: Db, c: Db, t: TaskId, i: AttemptId, now: Time)
    requires i in a.attempts && Succeeded(a, b, t, i, now) && SameStory(b, c, t) && SameCase(b, c, t)
    ensures Succeeded(a, c, t, i, now)
  {
    var n :| Successor(a, b, t, i, n, now);
    assert Owns(b, t, n) && Owns(c, t, n);
    assert Successor(a, c, t, i, n, now);
    StaysClosed(a, b, c, t);
  }

  lemma StaysClosed(a: Db, b: Db, c: Db, t: TaskId)
    requires Closed(a, b, t) && SameStory(b, c, t)
    ensures Closed(a, c, t)
  {
  }

  /** db' has every row of db, and perhaps more. */
  ghost predicate MoreRows(db: Db, db': Db) {
    db.attempts.Keys <= db'.attempts.Keys && db.prompts.Keys <= db'.prompts.Keys && db.sessions.Keys <= db'.sessions.Keys
  }

  lemma SameThenSucceeded(a: Db, b: Db, c: Db, t: TaskId, i: AttemptId, now: Time)
    requires Refs(a) && Refs(b) && SameStory(a, b, t) && SameCase(a, b, t) && MoreRows(a, b) && Owns(a, t, i)
    requires i in b.attempts && Succeeded(b, c, t, i, now)
    ensures Succeeded(a, c, t, i, now)
  {
    SameStoryFacts(a, b, t);
    var n :| Successor(b, c, t, i, n, now);
    assert Successor(a, c, t, i, n, now);
  }

  lemma ReclaimAddsRows(db: Db, i: AttemptId, ids: Ids, now: Time)
    requires Refs(db) && i in db.attempts && ReclaimOne(db, i, ids, now).Committed?
    ensures MoreRows(db, ReclaimOne(db, i, ids, now).db)
  {
    if !Spared(db, i) {
      ReclaimDraws(db, i, ids, now, ReclaimOne(db, i, ids, now).db);
    }
  }

  lemma {:induction false} LoopSucceeds(db: Db, order: seq<AttemptId>, drawn: seq<Ids>, now: Time, t: TaskId, i: AttemptId)
    requires Refs(db) && Owns(db, t, i) && t in db.tasks && FateOf(db, t, i).Retried?
    requires |order| == |drawn| && ReclaimAll(db, order, drawn, now).Committed?
    requires OneCandidate(db, order, t, i) && i in order
    ensures Succeeded(db, ReclaimAll(db, order, drawn, now).db, t, i, now)
    decreases |order|
  {
    var db1 := ReclaimOne(db, order[0], drawn[0], now).db;
    if order[0] == i {
      SparedIffNotRetried(db, t, i);
      ReclaimSucceeds(db, t, i, drawn[0], now);
      RestOfLoop(db, db1, order, drawn, now, t, i);
    } else {
      OthersTurn(db, db1, order, drawn, now, t, i);
      LoopSucceeds(db1, order[1..], drawn[1..], now, t, i);
      SameThenSucceeded(db, db1, ReclaimAll(db, order, drawn, now).db, t, i, now);
    }
  }

  lemma OthersTurn(db: Db, db1: Db, order: seq<AttemptId>, drawn: seq<Ids>, now: Time, t: TaskId, i: AttemptId)
    requires Refs(db) && Owns(db, t, i) && t in db.tasks && OneCandidate(db, order, t, i) && i in order && order[0] != i
    requires drawn != [] && ReclaimOne(db, order[0], drawn[0], now) == Committed(db1)
    ensures Refs(db1) && SameStory(db, db1, t) && SameCase(db, db1, t) && MoreRows(db, db1)
    ensures Owns(db1, t, i) && t in db1.tasks && (FateOf(db1, t, i).Retried? <==> FateOf(db, t, i).Retried?)
    ensures OneCandidate(db1, order[1..], t, i) && i in order[1..]
  {
    StoryOfAnother(db, t, order[0], drawn[0], now);
    ReclaimOfAnother(db, t, order[0], drawn[0], now);
    ReclaimAddsRows(db, order[0], drawn[0], now);
    ReclaimEvolves(db, order[0], drawn[0], now);
    RestHasIt(db, db1, order, t, i);
    SameFate(db, db1, t, i);
  }

  lemma SameFate(db: Db, db1: Db, t: TaskId, i: AttemptId)
    requires SameCase(db, db1, t) && Owns(db, t, i)
    ensures FateOf(db1, t, i).Retried? <==> FateOf(db, t, i).Retried?
  {
    SameCaseFacts(db, db1, t);
  }

  lemma RestOfLoop(db: Db, db1: Db, order: seq<AttemptId>, drawn: seq<Ids>, now: Time, t: TaskId, i: AttemptId)
    requires Refs(db) && Owns(db, t, i) && t in db.tasks && OneCandidate(db, order, t, i) && order != [] && order[0] == i && |order| == |drawn|
    requires ReclaimOne(db, i, drawn[0], now) == Committed(db1) && ReclaimAll(db, order, drawn, now).Committed?
    requires Succeeded(db, db1, t, i, now)
    ensures Succeeded(db, ReclaimAll(db, order, drawn, now).db, t, i, now)
  {
    ReclaimOfThis(db, t, i, drawn[0], now);
    ReclaimEvolves(db, i, drawn[0], now);
    RestIsOthers(db, db1, order, t, i);
    forall k | k in order[1..] ensures k in db1.attempts {
      assert k in order;
    }
    TaskStays(db, t, i, drawn[0], now, db1);
    ReclaimsOfOthers(db1, order[1..], drawn[1..], now, t);
    StoriesOfOthers(db1, order[1..], drawn[1..], now, t);
    SucceededThenSame(db, db1, ReclaimAll(db, order, drawn, now).db, t, i, now);
  }

  lemma TaskStays(db: Db, t: TaskId, i: AttemptId, ids: Ids, now: Time, db1: Db)
    requires Refs(db) && Owns(db, t, i) && t in db.tasks && ReclaimOne(db, i, ids, now) == Committed(db1)
    ensures t in db1.tasks
  {
    if !Spared(db, i) {
      ReclaimRows(db, i, ids, now);
    }
  }

  /** The failing statements touch neither sessions nor prompts, nor a pending attempt. */
  lemma FailingKeepsSuccessor(db: Db, db1: Db, t: TaskId, i: AttemptId, now: Time, db2: Db)
    requires i in db.attempts && Succeeded(db, db1, t, i, now) && db2 == FailExpired(db1, true, now)
    ensures Succeeded(db, db2, t, i, now)
  {
    var n :| Successor(db, db1, t, i, n, now);
    assert db2.sessions == db1.sessions && db2.prompts == db1.prompts;
    assert Successor(db, db2, t, i, n, now);
  }

  /** One committed pass: a retried attempt is succeeded by one that runners without
      isolation may claim exactly when the task's latest session needed none. */
  lemma SuccessorKeepsIsolation(db: Db, order: seq<AttemptId>, drawn: seq<Ids>, now: Time, t: TaskId, i: AttemptId)
    returns (n: AttemptId)
    requires Refs(db) && t in db.tasks && TaskOk(db, t)
    requires IsListing(db, now, order) && |order| == |drawn| && ReapLeasesTx(db, true, order, drawn, now).Committed?
    requires Owns(db, t, i) && LeaseExpired(db.attempts[i], now) && FateOf(db, t, i).Retried?
    ensures var db' := ReapLeasesTx(db, true, order, drawn, now).db;
      && Successor(db, db', t, i, n, now) && Closed(db, db', t) && GivenUp(db, db', t, i, now)
      && (forall r, capable :: Claimable(db', n, r, capable) <==> (db.sessions[LatestSession(db, t).value].isolated ==> capable))
  {
    CandidatesAreCurrent(db, order, now, t, i);
    LoopSucceeds(db, order, drawn, now, t, i);
    var db1, db' := ReclaimAll(db, order, drawn, now).db, ReapLeasesTx(db, true, order, drawn, now).db;
    FailingKeepsSuccessor(db, db1, t, i, now, db');
    n :| Successor(db, db', t, i, n, now);
    EveryExpiredAttemptMeetsItsFate(db, order, drawn, now, t, i);
    SuccessorIsClaimable(db, db', t, i, n, now);
  }

  lemma SuccessorIsClaimable(db: Db, db': Db, t: TaskId, i: AttemptId, n: AttemptId, now: Time)
    requires i in db.attempts && Successor(db, db', t, i, n, now) && t in db'.tasks && db'.tasks[t].status.Pending?
    ensures forall r, capable :: Claimable(db', n, r, capable) <==> (db.sessions[LatestSession(db, t).value].isolated ==> capable)
  {
    assert NeedsIsolation(db', n) <==> db.sessions[LatestSession(db, t).value].isolated;
  }
}
