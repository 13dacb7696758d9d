/** The session lifecycle: expiry, resume and artifact collection racing. */
module Sessions {
  import opened Basics
  import opened Tables
  import opened Transactions
  import opened Integrity

  type SessionRows = map<SessionId, Session>

  /** A session keeps its identity, and a final one does not change at all. */
  predicate Lives(a: Session, b: Session) {
    && b.task == a.task && b.number == a.number && b.mode == a.mode && b.isolated == a.isolated
    && (Final(a) ==> b == a)
  }

  ghost predicate AllLive(a: SessionRows, b: SessionRows) {
    forall s :: s in a ==> s in b && Lives(a[s], b[s])
  }

  lemma AllLiveTransitive(a: SessionRows, b: SessionRows, c: SessionRows)
    requires AllLive(a, b) && AllLive(b, c)
    ensures AllLive(a, c)
  {
  }

  lemma UpdateLives(db: Db, hits: set<SessionId>, clause: SetSession)
    requires forall s :: s in hits && s in db.sessions ==> !Final(db.sessions[s])
    ensures AllLive(db.sessions, UpdateSessions(db, hits, clause).sessions)
  {
  }

  // ----------------------------------------------------------------- each step

  lemma ReclaimLives(db: Db, i: AttemptId, ids: Ids, now: Time)
    requires ReclaimOne(db, i, ids, now).Committed?
    ensures AllLive(db.sessions, ReclaimOne(db, i, ids, now).db.sessions)
  {
    if !Spared(db, i) {
      var t := db.prompts[db.attempts[i].prompt].task;
      var s, p := LatestSession(db, t).value, LatestPrompt(db, t).value;
      GiveUpSessions(db, i, t, p, s, now);
      UpdateLives(db, OpenSession(db, s), SetSessionStatus(SessionStatus.Abandoned, now));
      var db4 := GiveUp(db, i, t, p, s, now);
      assert ReclaimOne(db, i, ids, now).db.sessions == db4.sessions[ids.session := ReclaimOne(db, i, ids, now).db.sessions[ids.session]];
    }
  }

  lemma GiveUpSessions(db: Db, i: AttemptId, t: TaskId, p: PromptId, s: SessionId, now: Time)
    ensures GiveUp(db, i, t, p, s, now).sessions ==
            UpdateSessions(db, OpenSession(db, s), SetSessionStatus(SessionStatus.Abandoned, now)).sessions
  {
  }

  lemma {:induction false} ReclaimAllLives(db: Db, order: seq<AttemptId>, drawn: seq<Ids>, now: Time)
    requires |order| == |drawn| && ReclaimAll(db, order, drawn, now).Committed?
    ensures AllLive(db.sessions, ReclaimAll(db, order, drawn, now).db.sessions)
    decreases |order|
  {
    if order != [] {
      ReclaimLives(db, order[0], drawn[0], now);
      ReclaimAllLives(ReclaimOne(db, order[0], drawn[0], now).db, order[1..], drawn[1..], now);
    }
  }

  lemma ReapLeasesLives(db: Db, auto: bool, order: seq<AttemptId>, drawn: seq<Ids>, now: Time)
    requires |order| == |drawn| && ReapLeasesTx(db, auto, order, drawn, now).Committed?
    ensures AllLive(db.sessions, ReapLeasesTx(db, auto, order, drawn, now).db.sessions)
  {
    if auto {
      ReclaimAllLives(db, order, drawn, now);
    }
  }

  lemma EndLives(db: Db, e: Event, ended: (PromptStatus, SessionStatus), checkpoint: CheckpointId, now: Time)
    requires EndPromptAndSession(db, e, ended, checkpoint, now).Committed?
    ensures AllLive(db.sessions, EndPromptAndSession(db, e, ended, checkpoint, now).db.sessions)
  {
    var db1 := UpdatePrompts(db, LatestPromptRow(db, e.task), EndPrompt(ended.0, e.transcript));
    var latest := LatestSession(db1, e.task);
    if latest.Some? {
      var end := SessionEnd(db1.sessions[latest.value].mode, e, ended.1, now);
      var db2 := if end.ParkSession? && end.checkpointed then db1.(checkpoints := db1.checkpoints[checkpoint := Checkpoint(latest.value, true)]) else db1;
      UpdateLives(db2, LatestOpenSession(db2, e.task), end);
    }
  }

  lemma ReportLives(db: Db, e: Event, checkpoint: CheckpointId, now: Time, clock: Time)
    requires RecordEventTx(db, e, checkpoint, now, clock).Committed?
    ensures AllLive(db.sessions, RecordEventTx(db, e, checkpoint, now, clock).db.sessions)
  {
    var db1 := AfterReport(db, e, now, clock);
    var db2 := UpdateSessions(db1, LatestOpenSession(db1, e.task), TouchSession(e.harness, now));
    assert db1.sessions == db.sessions;
    UpdateLives(db1, LatestOpenSession(db1, e.task), TouchSession(e.harness, now));
    if EndOf(EventStatus(e)).Some? {
      EndLives(db2, e, EndOf(EventStatus(e)).value, checkpoint, now);
      AllLiveTransitive(db.sessions, db2.sessions, RecordEventTx(db, e, checkpoint, now, clock).db.sessions);
    }
  }

  lemma PinnedLives(db: Db, now: Time, clock: Time)
    ensures AllLive(db.sessions, ReapPinnedTx(db, now, clock).sessions)
  {
    var db1 := UpdateAttempts(db, AttemptsMissingRunner(db, clock), FailAttempt(RunnerUnavailable, now));
    var db2 := UpdateTasks(db1, PendingTasksFailedFor(db1, RunnerUnavailable), FailTask(RunnerUnavailable));
    var db3 := UpdatePrompts(db2, PromptsOfUnavailable(db2), SetPromptStatus(PromptStatus.Failed));
    UpdateLives(db3, SessionsOfUnavailable(db3), SetSessionStatus(SessionStatus.Error, now));
  }

  lemma StatementsLive(db: Db, now: Time)
    ensures AllLive(db.sessions, ExpireSessionsStmt(db, now).sessions) && AllLive(db.sessions, ReapSessionsStmt(db, now).sessions)
  {
    UpdateLives(db, ExpirableSessions(db, now), SetSessionStatus(SessionStatus.Expired, now));
    UpdateLives(db, SessionsOfEnded(db), FollowTaskStatus(db.tasks, now));
  }

  lemma ResumeLives(db: Db, s: SessionId, t: TaskId, r: RunnerId, p: PromptId, i: AttemptId, timeout: int, now: Time)
    requires ResumeTx(db, s, t, r, p, i, timeout, now).Committed?
    ensures AllLive(db.sessions, ResumeTx(db, s, t, r, p, i, timeout, now).db.sessions)
  {
    UpdateLives(db, ParkedSession(db, s), SetSessionStatus(SessionStatus.Resuming, now));
    assert ResumeTx(db, s, t, r, p, i, timeout, now).db.sessions
        == UpdateSessions(db, ParkedSession(db, s), SetSessionStatus(SessionStatus.Resuming, now)).sessions;
  }

  lemma SessionStepLives(db: Db, step: Step)
    requires Enabled(db, step) && Apply(db, step).Committed?
    requires step.Report? || step.ReapLeases? || step.ReapPinned? || step.Resume? || step.ExpireSessions? || step.ReapSessions?
    ensures AllLive(db.sessions, Apply(db, step).db.sessions)
  {
    match step
    case Report(e, checkpoint, now, clock) => ReportLives(db, e, checkpoint, now, clock);
    case ReapLeases(auto, order, drawn, now) => ReapLeasesLives(db, auto, order, drawn, now);
    case ReapPinned(now, clock) => PinnedLives(db, now, clock);
    case Resume(s, t, r, p, i, timeout, now) => ResumeLives(db, s, t, r, p, i, timeout, now);
    case ExpireSessions(now) => StatementsLive(db, now);
    case ReapSessions(now) => StatementsLive(db, now);
  }

  lemma OtherStepLives(db: Db, step: Step)
    requires Enabled(db, step) && Apply(db, step).Committed?
    requires !step.Report? && !step.ReapLeases? && !step.ReapPinned? && !step.Resume? && !step.ExpireSessions? && !step.ReapSessions?
    ensures AllLive(db.sessions, Apply(db, step).db.sessions)
  {
  }

  lemma StepLives(db: Db, step: Step)
    requires Enabled(db, step)
    ensures AllLive(db.sessions, Next(db, step).sessions)
  {
    if Apply(db, step).Committed? {
      if step.Report? || step.ReapLeases? || step.ReapPinned? || step.Resume? || step.ExpireSessions? || step.ReapSessions? {
        SessionStepLives(db, step);
      } else {
        OtherStepLives(db, step);
      }
    }
  }

  // ----------------------------------------------------------------------- runs

  /** A final session is never changed again by any run. */
  lemma {:induction false} FinalIsAbsorbing(db: Db, steps: seq<Step>, last: Db)
    requires Run(db, steps, last)
    ensures AllLive(db.sessions, last.sessions)
    decreases |steps|
  {
    if steps != [] {
      StepLives(db, steps[0]);
      FinalIsAbsorbing(Next(db, steps[0]), steps[1..], last);
      AllLiveTransitive(db.sessions, Next(db, steps[0]).sessions, last.sessions);
    }
  }

  /** A session whose artifacts may be collected is never resumed again, and stays
      collectable. */
  lemma CollectedIsNeverResumed(db: Db, clock: Time, ttl: int, steps: seq<Step>, last: Db, s: SessionId,
                                t: TaskId, r: RunnerId, p: PromptId, i: AttemptId, timeout: int, later: Time)
    requires s in CollectableSessions(db, clock, ttl) && Run(db, steps, last) && clock <= later
    ensures ResumeTx(last, s, t, r, p, i, timeout, later) == RolledBack
    ensures s in CollectableSessions(last, later, ttl)
  {
    FinalIsAbsorbing(db, steps, last);
    assert Lives(db.sessions[s], last.sessions[s]);
  }

  /** An expiry and a resume that would both take effect on one parked session, each
      at its own instant. If the expiry comes first, the session stays expired in
      every run and every later resume fails. If the resume comes first, that expiry
      leaves the session resuming; parked again, it may expire later. */
  lemma ExpireOrResume(db: Db, s: SessionId, t: TaskId, r: RunnerId, p: PromptId, i: AttemptId, timeout: int,
                       expiry: Time, resumption: Time, steps: seq<Step>, last: Db, later: Time)
    requires s in ExpirableSessions(db, expiry) && ResumeTx(db, s, t, r, p, i, timeout, resumption).Committed?
    requires Run(ExpireSessionsStmt(db, expiry), steps, last)
    ensures s in last.sessions && last.sessions[s].status.Expired? && ResumeTx(last, s, t, r, p, i, timeout, later) == RolledBack
    ensures var resumed := ResumeTx(db, s, t, r, p, i, timeout, resumption).db;
      s in resumed.sessions && resumed.sessions[s].status.Resuming?
      && ExpireSessionsStmt(resumed, expiry).sessions[s] == resumed.sessions[s]
  {
    FinalIsAbsorbing(ExpireSessionsStmt(db, expiry), steps, last);
    assert Lives(ExpireSessionsStmt(db, expiry).sessions[s], last.sessions[s]);
    ResumedStatus(db, s, t, r, p, i, timeout, resumption, expiry);
  }

  lemma ResumedStatus(db: Db, s: SessionId, t: TaskId, r: RunnerId, p: PromptId, i: AttemptId, timeout: int, now: Time, expiry: Time)
    requires ResumeTx(db, s, t, r, p, i, timeout, now).Committed?
    ensures var resumed := ResumeTx(db, s, t, r, p, i, timeout, now).db;
      s in resumed.sessions && resumed.sessions[s].status.Resuming? && s !in ExpirableSessions(resumed, expiry)
  {
    assert s in ParkedSession(db, s);
  }

  // ------------------------------------------------- which session an event ends

  lemma SameRanks(db: Db, db': Db, t: TaskId)
    requires db'.sessions.Keys == db.sessions.Keys && AllLive(db.sessions, db'.sessions)
    ensures LatestSession(db', t) == LatestSession(db, t)
  {
    assert SessionRanks(db', t) == SessionRanks(db, t);
  }

  /** The tables on which a terminal event ends the prompt and the session. */
  lemma BeforeTheEnd(db: Db, e: Event, checkpoint: CheckpointId, now: Time, clock: Time) returns (db2: Db)
    requires Refs(db) && Accepted(db, e, clock) && EndOf(EventStatus(e)).Some?
    requires e.session in db.sessions && Open(db.sessions[e.session])
    ensures RecordEventTx(db, e, checkpoint, now, clock) == EndPromptAndSession(db2, e, EndOf(EventStatus(e)).value, checkpoint, now)
    ensures LatestSession(db2, e.task) == LatestSession(db, e.task) && LatestSession(db2, e.task).Some?
    ensures e.session in db2.sessions && Open(db2.sessions[e.session])
  {
    var db1 := AfterReport(db, e, now, clock);
    db2 := UpdateSessions(db1, LatestOpenSession(db1, e.task), TouchSession(e.harness, now));
    TouchedSessions(db, db1, e, now, db2);
    ReportedChain(db, e);
  }

  /** A terminal event ends the session of its own attempt exactly when that is the
      latest session of the task: it is the latest one that is ended or parked. A
      resumed older session stays in resuming. */
  lemma EventEndsItsSessionIff(db: Db, e: Event, checkpoint: CheckpointId, now: Time, clock: Time)
    requires Refs(db) && RecordEventTx(db, e, checkpoint, now, clock).Committed? && EndOf(EventStatus(e)).Some?
    requires e.session in db.sessions && Open(db.sessions[e.session])
    ensures var db' := RecordEventTx(db, e, checkpoint, now, clock).db;
      e.session in db'.sessions && (!Open(db'.sessions[e.session]) <==> LatestSession(db, e.task) == Some(e.session))
  {
    var db2 := BeforeTheEnd(db, e, checkpoint, now, clock);
    EndEndsLatest(db2, e, EndOf(EventStatus(e)).value, checkpoint, now);
  }

  lemma TouchedSessions(db: Db, db1: Db, e: Event, now: Time, db2: Db)
    requires db1.sessions == db.sessions && e.session in db.sessions && Open(db.sessions[e.session])
    requires db2 == UpdateSessions(db1, LatestOpenSession(db1, e.task), TouchSession(e.harness, now))
    ensures LatestSession(db2, e.task) == LatestSession(db, e.task)
    ensures e.session in db2.sessions && Open(db2.sessions[e.session])
  {
    UpdateLives(db1, LatestOpenSession(db1, e.task), TouchSession(e.harness, now));
    SameRanks(db, db1, e.task);
    SameRanks(db1, db2, e.task);
  }

  lemma ReportedChain(db: Db, e: Event)
    requires Refs(db) && OwnedAsReported(db, e)
    ensures e.session in db.sessions && db.sessions[e.session].task == e.task && LatestSession(db, e.task).Some?
  {
    assert PromptRefs(db, e.prompt);
    assert e.session in SessionRanks(db, e.task);
  }

  lemma EndEndsLatest(db: Db, e: Event, ended: (PromptStatus, SessionStatus), checkpoint: CheckpointId, now: Time)
    requires EndPromptAndSession(db, e, ended, checkpoint, now).Committed?
    requires ended.1.Completed? || ended.1.Error?
    requires e.session in db.sessions && Open(db.sessions[e.session]) && LatestSession(db, e.task).Some?
    ensures var db' := EndPromptAndSession(db, e, ended, checkpoint, now).db;
      e.session in db'.sessions && (!Open(db'.sessions[e.session]) <==> LatestSession(db, e.task) == Some(e.session))
  {
    var db1 := UpdatePrompts(db, LatestPromptRow(db, e.task), EndPrompt(ended.0, e.transcript));
    SameRanks(db, db1, e.task);
    var s := LatestSession(db1, e.task).value;
    var end := SessionEnd(db1.sessions[s].mode, e, ended.1, now);
    var db2 := if end.ParkSession? && end.checkpointed then db1.(checkpoints := db1.checkpoints[checkpoint := Checkpoint(s, true)]) else db1;
    SameRanks(db1, db2, e.task);
    LatestIsEnded(db2, e, end);
  }

  lemma LatestIsEnded(db: Db, e: Event, end: SetSession)
    requires e.session in db.sessions && Open(db.sessions[e.session])
    requires (end.EndSession? && (end.ended.Completed? || end.ended.Error?)) || (end.ParkSession? && (end.parked.Paused? || end.parked.Recoverable?))
    ensures var db' := UpdateSessions(db, LatestOpenSession(db, e.task), end);
      e.session in db'.sessions && (!Open(db'.sessions[e.session]) <==> LatestSession(db, e.task) == Some(e.session))
  {
    assert e.session in LatestOpenSession(db, e.task) <==> LatestSession(db, e.task) == Some(e.session);
  }
}
