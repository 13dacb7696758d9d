/** What a runner's event makes of the rows it concerns: when a session is parked for a
    later resume, and when it is over. */
module Endings {
  import opened Basics
  import opened Tables
  import opened Transactions
  import opened Integrity
  import opened Sessions

  predicate Succeeds(e: Event) {
    e.status == Some(TaskStatus.Done) || e.status == Some(TaskStatus.Completed)
  }

  predicate Fails(e: Event) {
    e.status == Some(TaskStatus.Error) || e.status == Some(TaskStatus.Cancelled)
  }

  /** The event calls for another try: it failed for a reason that may pass, with a
      workspace and a harness id to go on from. */
  predicate MayRecover(e: Event, mode: Mode) {
    Fails(e) && (e.category == Some(Timeout) || e.category == Some(TransportError)) && e.workspace && e.harness && mode.HarnessSession?
  }

  /** The event leaves the session to be taken up later. */
  predicate MayPause(e: Event, mode: Mode) {
    Succeeds(e) && e.workspace && !mode.NotResumable?
  }

  /** How the open latest session of the task ends. */
  predicate EndsAs(row: Session, row': Session, e: Event, now: Time) {
    var parked := MayRecover(e, row.mode) || MayPause(e, row.mode);
    && (row'.status.Recoverable? <==> MayRecover(e, row.mode))
    && (row'.status.Paused? <==> MayPause(e, row.mode))
    && (row'.status.Completed? <==> Succeeds(e) && !parked)
    && (row'.status.Error? <==> Fails(e) && !parked)
    && row'.harness == (row.harness || e.harness) && row'.updated == now
    && row'.pinned == (if parked then Some(e.runner) else row.pinned)
    && row'.workspace == (row.workspace || parked)
    && row'.checkpoint == (row.checkpoint || (MayPause(e, row.mode) && row.mode.GvisorCheckpoint? && e.checkpoint))
    && row'.task == row.task && row'.number == row.number && row'.mode == row.mode
    && row'.isolated == row.isolated && row'.expires == row.expires
  }

  predicate PromptEndsAs(row: Prompt, row': Prompt, e: Event) {
    && (row'.status.Completed? <==> Succeeds(e))
    && (row'.status.Failed? <==> e.status == Some(TaskStatus.Error))
    && (row'.status.Cancelled? <==> e.status == Some(TaskStatus.Cancelled))
    && row' == row.(status := row'.status, transcript := row.transcript || e.transcript)
  }

  // --------------------------------------------------------------- the stages

  /** A row as an event touches it before it ends. */
  function Touched(row: Session, e: Event, now: Time): Session {
    row.(harness := row.harness || e.harness, updated := now)
  }

  /** The tables once the attempt, the task and the latest open session are written. */
  ghost predicate Written(db: Db, e: Event, now: Time, s: SessionId, db2: Db) {
    && s in db.sessions
    && db2.prompts == db.prompts && db2.checkpoints == db.checkpoints && db2.runners == db.runners
    && db2.sessions == db.sessions[s := if Open(db.sessions[s]) then Touched(db.sessions[s], e, now) else db.sessions[s]]
    && LatestSession(db2, e.task) == Some(s) && LatestPrompt(db2, e.task) == LatestPrompt(db, e.task)
  }

  /** A statement on the latest session while it is open. */
  lemma LatestOpenRow(db: Db, t: TaskId, s: SessionId, clause: SetSession, db': Db)
    requires LatestSession(db, t) == Some(s) && db' == UpdateSessions(db, LatestOpenSession(db, t), clause)
    ensures db' == db.(sessions := db.sessions[s := if Open(db.sessions[s]) then WithSession(clause, db.sessions[s]) else db.sessions[s]])
  {
    assert LatestOpenSession(db, t) == if Open(db.sessions[s]) then {s} else {};
    assert db'.sessions == db.sessions[s := if Open(db.sessions[s]) then WithSession(clause, db.sessions[s]) else db.sessions[s]];
  }

  /** What comes last does not depend on the rest of the rows. */
  lemma SameLatestSession(db: Db, db': Db, t: TaskId)
    requires db'.sessions.Keys == db.sessions.Keys
    requires forall s :: s in db.sessions ==> db'.sessions[s].task == db.sessions[s].task && db'.sessions[s].number == db.sessions[s].number
    ensures LatestSession(db', t) == LatestSession(db, t)
  {
    assert SessionRanks(db', t) == SessionRanks(db, t);
  }

  lemma SameLatestPrompt(db: Db, db': Db, t: TaskId)
    requires db'.prompts == db.prompts && db'.sessions.Keys == db.sessions.Keys
    requires forall s :: s in db.sessions ==> db'.sessions[s].number == db.sessions[s].number
    ensures LatestPrompt(db', t) == LatestPrompt(db, t)
  {
    assert PromptRanks(db', t) == PromptRanks(db, t);
  }

  lemma EventWrites(db: Db, e: Event, now: Time, db1: Db, db2: Db, s: SessionId)
    requires LatestSession(db, e.task) == Some(s)
    requires db1.sessions == db.sessions && db1.prompts == db.prompts && db1.checkpoints == db.checkpoints && db1.runners == db.runners
    requires db2 == UpdateSessions(db1, LatestOpenSession(db1, e.task), TouchSession(e.harness, now))
    ensures Written(db, e, now, s, db2)
  {
    SameLatestSession(db, db1, e.task);
    LatestOpenRow(db1, e.task, s, TouchSession(e.harness, now), db2);
    SameLatestSession(db, db2, e.task);
    SameLatestPrompt(db, db2, e.task);
  }

  lemma RecordStages(db: Db, e: Event, checkpoint: CheckpointId, now: Time, clock: Time, db1: Db, db2: Db)
    requires RecordEventTx(db, e, checkpoint, now, clock).Committed? && (Succeeds(e) || Fails(e)) && db1 == AfterReport(db, e, now, clock)
    requires db2 == UpdateSessions(db1, LatestOpenSession(db1, e.task), TouchSession(e.harness, now))
    ensures EndOf(EventStatus(e)).Some?
    ensures RecordEventTx(db, e, checkpoint, now, clock) == EndPromptAndSession(db2, e, EndOf(EventStatus(e)).value, checkpoint, now)
    ensures OwnedAsReported(db, e)
  {
  }

  /** The stage a terminal event goes through before its end. */
  lemma TerminalStages(db: Db, e: Event, checkpoint: CheckpointId, now: Time, clock: Time) returns (db2: Db, s: SessionId, p: PromptId)
    requires Refs(db) && RecordEventTx(db, e, checkpoint, now, clock).Committed? && (Succeeds(e) || Fails(e))
    ensures LatestSession(db, e.task) == Some(s) && LatestPrompt(db, e.task) == Some(p) && Written(db, e, now, s, db2)
    ensures EndOf(EventStatus(e)).Some?
    ensures RecordEventTx(db, e, checkpoint, now, clock) == EndPromptAndSession(db2, e, EndOf(EventStatus(e)).value, checkpoint, now)
  {
    var db1 := AfterReport(db, e, now, clock);
    db2 := UpdateSessions(db1, LatestOpenSession(db1, e.task), TouchSession(e.harness, now));
    RecordStages(db, e, checkpoint, now, clock, db1, db2);
    ReportedChain(db, e);
    ReportedPrompt(db, e);
    s, p := LatestSession(db, e.task).value, LatestPrompt(db, e.task).value;
    EventWrites(db, e, now, db1, db2, s);
  }

  lemma ReportedPrompt(db: Db, e: Event)
    requires Refs(db) && OwnedAsReported(db, e)
    ensures LatestPrompt(db, e.task).Some?
  {
    assert PromptRefs(db, e.prompt);
    assert e.prompt in PromptRanks(db, e.task);
  }

  lemma EndStages(db: Db, e: Event, ended: (PromptStatus, SessionStatus), checkpoint: CheckpointId, now: Time,
                  s: SessionId, end: SetSession, db1: Db, db2: Db, db': Db)
    requires EndPromptAndSession(db, e, ended, checkpoint, now) == Committed(db')
    requires db1 == UpdatePrompts(db, LatestPromptRow(db, e.task), EndPrompt(ended.0, e.transcript))
    requires LatestSession(db1, e.task) == Some(s) && end == SessionEnd(db1.sessions[s].mode, e, ended.1, now)
    requires db2 == if end.ParkSession? && end.checkpointed then db1.(checkpoints := db1.checkpoints[checkpoint := Checkpoint(s, true)]) else db1
    ensures db' == UpdateSessions(db2, LatestOpenSession(db2, e.task), end)
  {
  }

  lemma LatestPromptEnds(db: Db, t: TaskId, p: PromptId, clause: SetPrompt, db1: Db)
    requires LatestPrompt(db, t) == Some(p) && db1 == UpdatePrompts(db, LatestPromptRow(db, t), clause)
    ensures db1 == db.(prompts := db.prompts[p := WithPrompt(clause, db.prompts[p])])
  {
    assert LatestPromptRow(db, t) == {p};
    assert db1.prompts == db.prompts[p := WithPrompt(clause, db.prompts[p])];
  }

  /** The rows of the end. */
  lemma EndRows(db: Db, e: Event, ended: (PromptStatus, SessionStatus), checkpoint: CheckpointId, now: Time,
                s: SessionId, p: PromptId, end: SetSession, db1: Db, db2: Db, db': Db)
    requires EndPromptAndSession(db, e, ended, checkpoint, now) == Committed(db')
    requires LatestSession(db, e.task) == Some(s) && LatestPrompt(db, e.task) == Some(p)
    requires db1 == UpdatePrompts(db, LatestPromptRow(db, e.task), EndPrompt(ended.0, e.transcript))
    requires end == SessionEnd(db.sessions[s].mode, e, ended.1, now)
    requires db2 == if end.ParkSession? && end.checkpointed then db1.(checkpoints := db1.checkpoints[checkpoint := Checkpoint(s, true)]) else db1
    ensures db'.prompts == db.prompts[p := WithPrompt(EndPrompt(ended.0, e.transcript), db.prompts[p])]
    ensures db'.sessions == db.sessions[s := if Open(db.sessions[s]) then WithSession(end, db.sessions[s]) else db.sessions[s]]
    ensures db'.checkpoints == db2.checkpoints && db'.runners == db.runners
  {
    LatestPromptEnds(db, e.task, p, EndPrompt(ended.0, e.transcript), db1);
    SameLatestSession(db, db1, e.task);
    EndStages(db, e, ended, checkpoint, now, s, end, db1, db2, db');
    SameLatestSession(db1, db2, e.task);
    LatestOpenRow(db2, e.task, s, end, db');
  }

  lemma RowEndsAs(row: Session, e: Event, now: Time)
    requires Succeeds(e) || Fails(e)
    ensures var end := SessionEnd(row.mode, e, EndOf(EventStatus(e)).value.1, now);
      && EndsAs(row, WithSession(end, Touched(row, e, now)), e, now)
      && (end.ParkSession? && end.checkpointed <==> MayPause(e, row.mode) && row.mode.GvisorCheckpoint? && e.checkpoint)
  {
  }

  lemma PromptRowEndsAs(row: Prompt, e: Event)
    requires Succeeds(e) || Fails(e)
    ensures PromptEndsAs(row, WithPrompt(EndPrompt(EndOf(EventStatus(e)).value.0, e.transcript), row), e)
  {
  }

  // -------------------------------------------------------------- the theorems

  /** The event ends prompt p and session s, stores a checkpoint exactly for a success
      of a checkpointing session that reports one, and leaves the rest. */
  ghost predicate Ends(db: Db, db': Db, e: Event, checkpoint: CheckpointId, now: Time, s: SessionId, p: PromptId)
    requires s in db.sessions && p in db.prompts
  {
    && s in db'.sessions && p in db'.prompts
    && db'.sessions == db.sessions[s := db'.sessions[s]] && db'.prompts == db.prompts[p := db'.prompts[p]] && db'.runners == db.runners
    && (if Open(db.sessions[s]) then EndsAs(db.sessions[s], db'.sessions[s], e, now) else db'.sessions[s] == db.sessions[s])
    && PromptEndsAs(db.prompts[p], db'.prompts[p], e)
    && db'.checkpoints == (if MayPause(e, db.sessions[s].mode) && db.sessions[s].mode.GvisorCheckpoint? && e.checkpoint
                           then db.checkpoints[checkpoint := Checkpoint(s, true)] else db.checkpoints)
  }

  lemma WrittenThenEnds(db: Db, db2: Db, e: Event, ended: (PromptStatus, SessionStatus), checkpoint: CheckpointId, now: Time,
                        s: SessionId, p: PromptId, end: SetSession, db': Db)
    requires Written(db, e, now, s, db2) && LatestPrompt(db, e.task) == Some(p) && (Succeeds(e) || Fails(e))
    requires EndOf(EventStatus(e)) == Some(ended) && end == SessionEnd(db.sessions[s].mode, e, ended.1, now)
    requires db'.prompts == db.prompts[p := WithPrompt(EndPrompt(ended.0, e.transcript), db.prompts[p])] && db'.runners == db.runners
    requires db'.sessions == db2.sessions[s := if Open(db2.sessions[s]) then WithSession(end, db2.sessions[s]) else db2.sessions[s]]
    requires db'.checkpoints == if end.ParkSession? && end.checkpointed then db.checkpoints[checkpoint := Checkpoint(s, true)] else db.checkpoints
    ensures Ends(db, db', e, checkpoint, now, s, p)
  {
    RowEndsAs(db.sessions[s], e, now);
    PromptRowEndsAs(db.prompts[p], e);
    assert db'.sessions == db.sessions[s := db'.sessions[s]];
  }

  /** A committed terminal event ends the latest prompt of its task, and the latest
      session if it is open: recoverable exactly after an error that may pass of a
      harness session with its workspace and harness id, paused exactly after a success
      of a resumable session with a workspace, and otherwise for good. Every other
      session, prompt and checkpoint stays as it was. */
  lemma TerminalEventEnds(db: Db, e: Event, checkpoint: CheckpointId, now: Time, clock: Time)
    requires Refs(db) && RecordEventTx(db, e, checkpoint, now, clock).Committed? && (Succeeds(e) || Fails(e))
    ensures LatestSession(db, e.task).Some? && LatestPrompt(db, e.task).Some?
    ensures Ends(db, RecordEventTx(db, e, checkpoint, now, clock).db, e, checkpoint, now,
                 LatestSession(db, e.task).value, LatestPrompt(db, e.task).value)
  {
    var db2, s, p := TerminalStages(db, e, checkpoint, now, clock);
    var ended, db' := EndOf(EventStatus(e)).value, RecordEventTx(db, e, checkpoint, now, clock).db;
    var db3 := UpdatePrompts(db2, LatestPromptRow(db2, e.task), EndPrompt(ended.0, e.transcript));
    var end := SessionEnd(db2.sessions[s].mode, e, ended.1, now);
    var db4 := if end.ParkSession? && end.checkpointed then db3.(checkpoints := db3.checkpoints[checkpoint := Checkpoint(s, true)]) else db3;
    EndRows(db2, e, ended, checkpoint, now, s, p, end, db3, db4, db');
    WrittenThenEnds(db, db2, e, ended, checkpoint, now, s, p, end, db');
  }

  /** Alive in plain terms: active, and heard of within the last two minutes. */
  predicate HeardOf(runners: map<RunnerId, Runner>, r: RunnerId, clock: Time) {
    r in runners && runners[r].status.Active? && clock < runners[r].seen + 120
  }

  /** The event leaves session s something to go on from: a harness id, or for a
      checkpointing session a checkpoint, its own or an earlier one. */
  predicate GoesOn(db: Db, s: SessionId, e: Event)
    requires s in db.sessions
  {
    var row := db.sessions[s];
    || (row.mode.HarnessSession? && (MayRecover(e, row.mode) || (MayPause(e, row.mode) && (e.harness || row.harness))))
    || (row.mode.GvisorCheckpoint? && MayPause(e, row.mode)
        && (e.checkpoint || (row.checkpoint && exists k :: k in db.checkpoints && db.checkpoints[k].session == s)))
  }

  lemma EndsThenResumes(db: Db, db': Db, e: Event, checkpoint: CheckpointId, now: Time, s: SessionId, p: PromptId, db'': Db, later: Time)
    requires s in db.sessions && p in db.prompts && Ends(db, db', e, checkpoint, now, s, p) && Open(db.sessions[s]) && (Succeeds(e) || Fails(e))
    requires db'' == db'.(runners := db''.runners)
    ensures MayResume(db'', s, later) <==> GoesOn(db, s, e) && HeardOf(db''.runners, e.runner, later)
    ensures Fails(e) && !MayRecover(e, db.sessions[s].mode) ==> Final(db'.sessions[s])
  {
    if db.sessions[s].mode.GvisorCheckpoint? && MayPause(e, db.sessions[s].mode) {
      if e.checkpoint {
        assert checkpoint in db''.checkpoints && db''.checkpoints[checkpoint].session == s;
      } else {
        assert db''.checkpoints == db.checkpoints;
      }
    }
  }

  /** After a terminal event the open latest session s may be resumed exactly when the
      event leaves it something to go on from and the reporting runner is alive; after
      any error that may not pass it is over for good. */
  lemma EndedMayResumeIff(db: Db, e: Event, checkpoint: CheckpointId, now: Time, clock: Time, db': Db, s: SessionId,
                          runners: map<RunnerId, Runner>, later: Time)
    requires Refs(db) && RecordEventTx(db, e, checkpoint, now, clock) == Committed(db') && (Succeeds(e) || Fails(e))
    requires LatestSession(db, e.task) == Some(s) && Open(db.sessions[s])
    ensures MayResume(db'.(runners := runners), s, later) <==> GoesOn(db, s, e) && HeardOf(runners, e.runner, later)
    ensures Fails(e) && !MayRecover(e, db.sessions[s].mode) ==> s in db'.sessions && Final(db'.sessions[s])
  {
    TerminalEventEnds(db, e, checkpoint, now, clock);
    EndsThenResumes(db, db', e, checkpoint, now, s, LatestPrompt(db, e.task).value, db'.(runners := runners), later);
  }

  // ------------------------------------------------------- the attempt and task

  /** The attempt as an accepted event leaves it. */
  predicate AttemptReports(row: Attempt, row': Attempt, e: Event, now: Time) {
    && (row'.status.Succeeded? <==> Succeeds(e))
    && (row'.status.Failed? <==> e.status == Some(TaskStatus.Error))
    && (row'.status.Cancelled? <==> e.status == Some(TaskStatus.Cancelled))
    && (row'.status.Running? <==> !Succeeds(e) && !Fails(e))
    && row'.lease == (if e.status == Some(TaskStatus.Running) || e.status.None? then Some(now + 120) else None)
    && row'.started == (if e.started.Some? then e.started else row.started)
    && row'.ended == (if e.ended.Some? then e.ended else if Succeeds(e) || Fails(e) then Some(now) else row.ended)
    && row'.category == (if e.category.Some? then e.category else row.category)
    && row'.transcript == (row.transcript || e.transcript)
    && row'.usage == Plus(row.usage, e.usage)
    && row'.prompt == row.prompt && row'.required == row.required && row'.runner == row.runner && row'.claim == row.claim
    && row'.timeout == row.timeout && row'.created == row.created
  }

  /** An accepted event writes its attempt and its task, and no other of either. */
  lemma EventReports(db: Db, e: Event, checkpoint: CheckpointId, now: Time, clock: Time)
    requires RecordEventTx(db, e, checkpoint, now, clock).Committed?
    ensures e.attempt in db.attempts && e.task in db.tasks
    ensures var db' := RecordEventTx(db, e, checkpoint, now, clock).db;
      && e.attempt in db'.attempts && db'.attempts == db.attempts[e.attempt := db'.attempts[e.attempt]]
      && AttemptReports(db.attempts[e.attempt], db'.attempts[e.attempt], e, now)
      && db'.tasks == db.tasks[e.task := db.tasks[e.task].(
           status := if e.status.Some? then e.status.value else TaskStatus.Running,
           category := if e.category.Some? then e.category else db.tasks[e.task].category)]
  {
    var db1 := AfterReport(db, e, now, clock);
    var db' := RecordEventTx(db, e, checkpoint, now, clock).db;
    assert e.attempt in ReportableAttempt(db, e, clock) && e.task in ReportableTaskRow(db, e.task, EventStatus(e));
    ReportKeeps(db, e, checkpoint, now, clock, db1, db');
    ReportedRows(db, e, now, clock, db1);
  }

  lemma ReportKeeps(db: Db, e: Event, checkpoint: CheckpointId, now: Time, clock: Time, db1: Db, db': Db)
    requires RecordEventTx(db, e, checkpoint, now, clock) == Committed(db') && db1 == AfterReport(db, e, now, clock)
    ensures db'.attempts == db1.attempts && db'.tasks == db1.tasks
  {
  }

  lemma ReportedRows(db: Db, e: Event, now: Time, clock: Time, db1: Db)
    requires e.attempt in ReportableAttempt(db, e, clock) && e.task in ReportableTaskRow(db, e.task, EventStatus(e))
    requires db1 == AfterReport(db, e, now, clock)
    ensures db1.attempts == db.attempts[e.attempt := WithAttempt(ReportAttempt(e, now), db.attempts[e.attempt])]
    ensures db1.tasks == db.tasks[e.task := WithTask(ReportTask(EventStatus(e), e.category), db.tasks[e.task])]
  {
    var row := UpdateAttempts(db, ReportableAttempt(db, e, clock), ReportAttempt(e, now));
    assert row.tasks == db.tasks;
    assert ReportableTaskRow(row, e.task, EventStatus(e)) == {e.task} && ReportableAttempt(db, e, clock) == {e.attempt};
  }

  // ------------------------------------------------------------ running events

  /** An event that ends nothing only notes the harness id of the open latest session. */
  lemma OtherEventEndsNothing(db: Db, e: Event, checkpoint: CheckpointId, now: Time, clock: Time, db': Db, s: SessionId)
    requires Refs(db) && RecordEventTx(db, e, checkpoint, now, clock) == Committed(db') && !Succeeds(e) && !Fails(e)
    requires LatestSession(db, e.task) == Some(s)
    ensures db'.prompts == db.prompts && db'.checkpoints == db.checkpoints && db'.runners == db.runners
    ensures db'.sessions == if Open(db.sessions[s]) then db.sessions[s := Touched(db.sessions[s], e, now)] else db.sessions
  {
    var db1 := AfterReport(db, e, now, clock);
    EndsNothing(e);
    RunningStages(db, e, checkpoint, now, clock, db1, db');
    NotedOnly(db, e, now, db1, db', s);
  }

  lemma NotedOnly(db: Db, e: Event, now: Time, db1: Db, db': Db, s: SessionId)
    requires LatestSession(db, e.task) == Some(s)
    requires db1.sessions == db.sessions && db1.prompts == db.prompts && db1.checkpoints == db.checkpoints && db1.runners == db.runners
    requires db' == UpdateSessions(db1, LatestOpenSession(db1, e.task), TouchSession(e.harness, now))
    ensures db'.prompts == db.prompts && db'.checkpoints == db.checkpoints && db'.runners == db.runners
    ensures db'.sessions == if Open(db.sessions[s]) then db.sessions[s := Touched(db.sessions[s], e, now)] else db.sessions
  {
    EventWrites(db, e, now, db1, db', s);
    assert db.sessions[s := db.sessions[s]] == db.sessions;
  }

  lemma EndsNothing(e: Event)
    requires !Succeeds(e) && !Fails(e)
    ensures EndOf(EventStatus(e)).None?
  {
  }

  lemma RunningStages(db: Db, e: Event, checkpoint: CheckpointId, now: Time, clock: Time, db1: Db, db': Db)
    requires RecordEventTx(db, e, checkpoint, now, clock) == Committed(db') && EndOf(EventStatus(e)).None?
    requires db1 == AfterReport(db, e, now, clock)
    ensures db' == UpdateSessions(db1, LatestOpenSession(db1, e.task), TouchSession(e.harness, now))
    ensures db1.sessions == db.sessions && db1.prompts == db.prompts && db1.checkpoints == db.checkpoints && db1.runners == db.runners
  {
  }

  // ------------------------------------------------------- which events commit

  /** The reporter holds the attempt: its runner, its claim and its chain are those the
      event names, its lease is live, and its task runs or has the reported status. */
  predicate Entitled(db: Db, e: Event, clock: Time) {
    && e.attempt in db.attempts && e.prompt in db.prompts && e.task in db.tasks
    && db.attempts[e.attempt].status.Running? && db.attempts[e.attempt].runner == Some(e.runner)
    && db.attempts[e.attempt].claim == Some(e.claim)
    && db.attempts[e.attempt].lease.Some? && clock < db.attempts[e.attempt].lease.value
    && db.attempts[e.attempt].prompt == e.prompt && db.prompts[e.prompt].task == e.task && db.prompts[e.prompt].session == e.session
    && (db.tasks[e.task].status.Running? || db.tasks[e.task].status == (if e.status.Some? then e.status.value else TaskStatus.Running))
  }

  lemma AcceptedIsEntitled(db: Db, e: Event, clock: Time)
    ensures Accepted(db, e, clock) <==> Entitled(db, e, clock)
  {
    assert e.attempt in db.attempts ==> (e.attempt in ReportableAttempt(db, e, clock) <==> ReportableAttempt(db, e, clock) != {});
    assert e.task in ReportableTaskRow(db, e.task, EventStatus(e)) <==> ReportableTaskRow(db, e.task, EventStatus(e)) != {};
  }

  /** An event is accepted exactly from the entitled reporter. It fails after all only
      when it would store a checkpoint under an id that is taken. */
  lemma EventCommitsIff(db: Db, e: Event, checkpoint: CheckpointId, now: Time, clock: Time)
    requires Refs(db)
    ensures Entitled(db, e, clock) ==> LatestSession(db, e.task).Some?
    ensures RecordEventTx(db, e, checkpoint, now, clock).Committed? <==>
      Entitled(db, e, clock)
      && var mode := db.sessions[LatestSession(db, e.task).value].mode;
         !(MayPause(e, mode) && mode.GvisorCheckpoint? && e.checkpoint && checkpoint in db.checkpoints)
  {
    AcceptedIsEntitled(db, e, clock);
    if Accepted(db, e, clock) {
      ReportedChain(db, e);
      if Succeeds(e) || Fails(e) {
        TerminalCommits(db, e, checkpoint, now, clock, LatestSession(db, e.task).value);
      } else {
        EndsNothing(e);
      }
    }
  }

  lemma TerminalCommits(db: Db, e: Event, checkpoint: CheckpointId, now: Time, clock: Time, s: SessionId)
    requires Accepted(db, e, clock) && (Succeeds(e) || Fails(e)) && LatestSession(db, e.task) == Some(s)
    ensures var mode := db.sessions[s].mode;
      RecordEventTx(db, e, checkpoint, now, clock).Committed? <==>
      !(MayPause(e, mode) && mode.GvisorCheckpoint? && e.checkpoint && checkpoint in db.checkpoints)
  {
    var db1 := AfterReport(db, e, now, clock);
    var db2 := UpdateSessions(db1, LatestOpenSession(db1, e.task), TouchSession(e.harness, now));
    var ended := EndOf(EventStatus(e)).value;
    SameLatestSession(db, db1, e.task);
    LatestOpenRow(db1, e.task, s, TouchSession(e.harness, now), db2);
    SameLatestSession(db, db2, e.task);
    RowEndsAs(db.sessions[s], e, now);
    EndCommits(db2, e, ended, checkpoint, now, s, UpdatePrompts(db2, LatestPromptRow(db2, e.task), EndPrompt(ended.0, e.transcript)));
  }

  lemma EndCommits(db: Db, e: Event, ended: (PromptStatus, SessionStatus), checkpoint: CheckpointId, now: Time, s: SessionId, db1: Db)
    requires LatestSession(db, e.task) == Some(s)
    requires db1 == UpdatePrompts(db, LatestPromptRow(db, e.task), EndPrompt(ended.0, e.transcript))
    ensures var end := SessionEnd(db.sessions[s].mode, e, ended.1, now);
      EndPromptAndSession(db, e, ended, checkpoint, now).Committed? <==> !(end.ParkSession? && end.checkpointed && checkpoint in db.checkpoints)
  {
    SameLatestSession(db, db1, e.task);
  }
}
