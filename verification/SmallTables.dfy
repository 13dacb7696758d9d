/** Tables that hold one task, its rows numbered from zero, and one isolated runner:
    each transaction on them spelled out, for building concrete runs. */
module SmallTables {
  import opened Basics
  import opened Tables
  import opened Transactions

  datatype Small = Small(status: TaskStatus, category: Option<Category>,
                         sessions: seq<Session>, prompts: seq<Prompt>, attempts: seq<Attempt>, seen: Time)

  /** The default of tasks.max_attempts: db/migrations/010_add_trigger_source_and_increase_max_attempts.sql. */
  const LIMIT := 5
  const RUNNER: RunnerId := 7
  const LEASE := 120
  const TIMEOUT := 60

  function Numbered<R>(rows: seq<R>): map<nat, R> {
    map k | 0 <= k < |rows| :: rows[k]
  }

  /** The runner's row after a heartbeat. */
  function Beat(seen: Time): Runner {
    Runner(RunnerStatus.Active, seen, true)
  }

  function Of(o: Small): Db {
    Db(map[0 := Task(o.status, o.category, LIMIT)], Numbered(o.sessions), Numbered(o.prompts), Numbered(o.attempts), map[RUNNER := Beat(o.seen)], map[])
  }

  /** All rows belong to task 0; sessions are numbered in order and isolated. */
  predicate Sound(o: Small) {
    && (forall k :: 0 <= k < |o.sessions| ==> o.sessions[k].task == 0 && o.sessions[k].number == k + 1 && o.sessions[k].isolated)
    && (forall k :: 0 <= k < |o.prompts| ==> o.prompts[k].task == 0 && o.prompts[k].session < |o.sessions|)
    && (forall k :: 0 <= k < |o.attempts| ==> o.attempts[k].prompt < |o.prompts|)
  }

  /** Prompt p is the latest: of the last session, with the greatest number. */
  predicate Top(o: Small, p: nat) {
    && p < |o.prompts| && o.prompts[p].session == |o.sessions| - 1
    && forall k :: 0 <= k < |o.prompts| && k != p && o.prompts[k].session == |o.sessions| - 1 ==> o.prompts[k].number < o.prompts[p].number
  }

  // ------------------------------------------------------------------- lookups

  lemma OwnsAll(o: Small)
    requires Sound(o)
    ensures forall k: AttemptId :: Owns(Of(o), 0, k) <==> k < |o.attempts|
    ensures |AttemptsOf(Of(o), 0)| == |o.attempts|
  {
    assert AttemptsOf(Of(o), 0) == Numbered(o.attempts).Keys;
    NumberedSize(o.attempts);
  }

  lemma {:induction false} NumberedSize<R>(rows: seq<R>)
    ensures |Numbered(rows).Keys| == |rows|
  {
    if rows != [] {
      var n := |rows| - 1;
      NumberedSize(rows[..n]);
      assert Numbered(rows).Keys == Numbered(rows[..n]).Keys + {n};
    }
  }

  lemma LastIs(ranks: map<nat, Rank>, k: nat)
    requires IsLast(ranks, k) && forall m :: m in ranks ==> ranks[m].2 == m
    ensures Last(ranks) == Some(k)
  {
    var j := Last(ranks).value;
    assert Below(ranks[j], ranks[k]) && Below(ranks[k], ranks[j]);
  }

  lemma LatestSessionIs(o: Small)
    requires Sound(o) && o.sessions != []
    ensures LatestSession(Of(o), 0) == Some(|o.sessions| - 1)
  {
    LastIs(SessionRanks(Of(o), 0), |o.sessions| - 1);
  }

  lemma LatestPromptIs(o: Small, p: nat)
    requires Sound(o) && Top(o, p)
    ensures LatestPrompt(Of(o), 0) == Some(p)
  {
    LastIs(PromptRanks(Of(o), 0), p);
  }

  // ------------------------------------------------------------- single updates

  lemma UpdateOneAttempt(o: Small, k: nat, clause: SetAttempt)
    requires k < |o.attempts|
    ensures UpdateAttempts(Of(o), {k}, clause) == Of(o.(attempts := o.attempts[k := WithAttempt(clause, o.attempts[k])]))
  {
    assert UpdateAttempts(Of(o), {k}, clause).attempts == Numbered(o.attempts[k := WithAttempt(clause, o.attempts[k])]);
  }

  lemma UpdateOnePrompt(o: Small, k: nat, clause: SetPrompt)
    requires k < |o.prompts|
    ensures UpdatePrompts(Of(o), {k}, clause) == Of(o.(prompts := o.prompts[k := WithPrompt(clause, o.prompts[k])]))
  {
    assert UpdatePrompts(Of(o), {k}, clause).prompts == Numbered(o.prompts[k := WithPrompt(clause, o.prompts[k])]);
  }

  lemma UpdateOneSession(o: Small, k: nat, clause: SetSession)
    requires k < |o.sessions|
    ensures UpdateSessions(Of(o), {k}, clause) == Of(o.(sessions := o.sessions[k := WithSession(clause, o.sessions[k])]))
  {
    assert UpdateSessions(Of(o), {k}, clause).sessions == Numbered(o.sessions[k := WithSession(clause, o.sessions[k])]);
  }

  function TaskAfter(o: Small, clause: SetTask): Small {
    var t := WithTask(clause, Task(o.status, o.category, LIMIT));
    o.(status := t.status, category := t.category)
  }

  lemma UpdateTheTask(o: Small, clause: SetTask)
    ensures UpdateTasks(Of(o), {0}, clause) == Of(TaskAfter(o, clause))
  {
    assert UpdateTasks(Of(o), {0}, clause).tasks == Of(TaskAfter(o, clause)).tasks;
  }

  lemma NoHits(o: Small, a: SetAttempt, p: SetPrompt)
    ensures UpdateAttempts(Of(o), {}, a) == Of(o) && UpdatePrompts(Of(o), {}, p) == Of(o)
  {
    assert UpdateAttempts(Of(o), {}, a).attempts == Of(o).attempts;
    assert UpdatePrompts(Of(o), {}, p).prompts == Of(o).prompts;
  }

  lemma Appended<R>(rows: seq<R>, row: R)
    ensures Numbered(rows)[|rows| := row] == Numbered(rows + [row])
  {
  }

  // -------------------------------------------------------------------- claim

  function AfterClaim(o: Small, k: nat, p: nat, c: ClaimId, now: Time): Small
    requires k < |o.attempts| && p < |o.prompts|
  {
    o.(status := TaskStatus.Running,
       attempts := o.attempts[k := WithAttempt(ClaimAttempt(RUNNER, c, now + LEASE, now), o.attempts[k])],
       prompts := if Queued(o.prompts[p]) then o.prompts[p := o.prompts[p].(status := PromptStatus.Running)] else o.prompts)
  }

  predicate Queued(p: Prompt) {
    p.status.Pending? || p.status.Claimed?
  }

  function ClaimOf(o: Small, k: nat, c: ClaimId, now: Time): Step {
    Claim(k, RUNNER, true, Of(o).attempts.Keys - {k}, c, LEASE, now)
  }

  lemma ClaimIsNext(o: Small, k: nat)
    requires Sound(o) && o.status.Pending? && k < |o.attempts| && o.attempts[k].status.Pending?
    requires o.attempts[k].required.Only? ==> o.attempts[k].required.runner == RUNNER
    ensures IsNext(Of(o), RUNNER, true, Of(o).attempts.Keys - {k}, k)
  {
    assert Claimable(Of(o), k, RUNNER, true);
    assert ClaimableAttempts(Of(o), RUNNER, true, Of(o).attempts.Keys - {k}) == {k};
  }

  lemma ClaimLeads(o: Small, k: nat, p: nat, c: ClaimId, now: Time)
    requires Sound(o) && o.status.Pending? && k < |o.attempts| <= LIMIT && o.attempts[k].status.Pending? && Top(o, p)
    requires o.attempts[k].required.Only? ==> o.attempts[k].required.runner == RUNNER
    ensures Leads(Of(o), ClaimOf(o, k, c, now), Of(AfterClaim(o, k, p, c, now)))
  {
    ClaimIsNext(o, k);
    ClaimTxIs(o, k, p, c, now);
  }

  lemma ClaimTxIs(o: Small, k: nat, p: nat, c: ClaimId, now: Time)
    requires Sound(o) && o.status.Pending? && k < |o.attempts| <= LIMIT && o.attempts[k].status.Pending? && Top(o, p)
    ensures ClaimTx(Of(o), k, RUNNER, c, LEASE, now) == Committed(Of(AfterClaim(o, k, p, c, now)))
  {
    OwnsAll(o);
    var clause := ClaimAttempt(RUNNER, c, now + LEASE, now);
    assert PendingAttempt(Of(o), k) == {k};
    UpdateOneAttempt(o, k, clause);
    var o1 := o.(attempts := o.attempts[k := WithAttempt(clause, o.attempts[k])]);
    assert PendingTaskRow(Of(o1), 0) == {0};
    UpdateTheTask(o1, RunTask);
    var o2 := TaskAfter(o1, RunTask);
    MarkLatest(o2, p);
  }

  lemma MarkLatest(o: Small, p: nat)
    requires Sound(o) && Top(o, p)
    ensures UpdatePrompts(Of(o), LatestQueuedPrompt(Of(o), 0), SetPromptStatus(PromptStatus.Running)) ==
            Of(if Queued(o.prompts[p]) then o.(prompts := o.prompts[p := o.prompts[p].(status := PromptStatus.Running)]) else o)
  {
    LatestPromptIs(o, p);
    if Queued(o.prompts[p]) {
      assert LatestQueuedPrompt(Of(o), 0) == {p};
      UpdateOnePrompt(o, p, SetPromptStatus(PromptStatus.Running));
    } else {
      assert LatestQueuedPrompt(Of(o), 0) == {};
      NoHits(o, DropAttemptExport, SetPromptStatus(PromptStatus.Running));
    }
  }

  // --------------------------------------------------------------- a done event

  /** The runner reports its attempt done, with a transcript and a workspace. */
  function DoneEvent(o: Small, k: nat): Event
    requires k < |o.attempts| && o.attempts[k].prompt < |o.prompts| && o.attempts[k].claim.Some?
  {
    Event(k, 0, o.prompts[o.attempts[k].prompt].session, o.attempts[k].prompt, RUNNER, o.attempts[k].claim.value,
          Some(TaskStatus.Done), None, None, None, NoUsage, true, true, true, false)
  }

  function AfterDone(o: Small, k: nat, p: nat, now: Time): Small
    requires k < |o.attempts| && o.attempts[k].prompt < |o.prompts| && o.attempts[k].claim.Some? && p < |o.prompts| && o.sessions != []
  {
    var e, s := DoneEvent(o, k), |o.sessions| - 1;
    o.(status := TaskStatus.Done,
       attempts := o.attempts[k := WithAttempt(ReportAttempt(e, now), o.attempts[k])],
       prompts := o.prompts[p := o.prompts[p].(status := PromptStatus.Completed, transcript := true)],
       sessions := o.sessions[s := o.sessions[s].(status := SessionStatus.Paused, pinned := Some(RUNNER),
                                                  workspace := true, harness := true, updated := now)])
  }

  predicate Live(o: Small, k: nat, now: Time) {
    && k < |o.attempts| && o.attempts[k].status.Running? && o.attempts[k].runner == Some(RUNNER) && o.attempts[k].claim.Some?
    && o.attempts[k].lease.Some? && now < o.attempts[k].lease.value
  }

  function Reported(o: Small, k: nat, now: Time): Small
    requires k < |o.attempts| && o.attempts[k].prompt < |o.prompts| && o.attempts[k].claim.Some?
  {
    TaskAfter(o.(attempts := o.attempts[k := WithAttempt(ReportAttempt(DoneEvent(o, k), now), o.attempts[k])]),
              ReportTask(TaskStatus.Done, None))
  }

  lemma DoneIsAccepted(o: Small, k: nat, now: Time)
    requires Sound(o) && o.status.Running? && Live(o, k, now)
    ensures Accepted(Of(o), DoneEvent(o, k), now)
    ensures AfterReport(Of(o), DoneEvent(o, k), now, now) == Of(Reported(o, k, now))
  {
    var e := DoneEvent(o, k);
    OwnsAll(o);
    assert ReportableAttempt(Of(o), e, now) == {k};
    assert ReportableTaskRow(Of(o), 0, TaskStatus.Done) == {0};
    UpdateOneAttempt(o, k, ReportAttempt(e, now));
    var o1 := o.(attempts := o.attempts[k := WithAttempt(ReportAttempt(e, now), o.attempts[k])]);
    assert ReportableTaskRow(Of(o1), 0, TaskStatus.Done) == {0};
    UpdateTheTask(o1, ReportTask(TaskStatus.Done, None));
  }

  predicate Finishing(o: Small) {
    o.sessions != [] && o.sessions[|o.sessions| - 1].status.Running? && o.sessions[|o.sessions| - 1].mode.HarnessSession?
  }

  /** recordTaskEvent in stages. */
  lemma InStages(db: Db, e: Event, now: Time, db1: Db, db2: Db, outcome: Outcome)
    requires Accepted(db, e, now) && EventStatus(e).Done? && db1 == AfterReport(db, e, now, now)
    requires db2 == UpdateSessions(db1, LatestOpenSession(db1, e.task), TouchSession(e.harness, now))
    requires outcome == EndPromptAndSession(db2, e, (PromptStatus.Completed, SessionStatus.Completed), 0, now)
    ensures RecordEventTx(db, e, 0, now, now) == outcome
  {
  }

  function Touched(o: Small, k: nat, now: Time): Small
    requires k < |o.attempts| && o.attempts[k].prompt < |o.prompts| && o.attempts[k].claim.Some? && o.sessions != []
  {
    var o2, s := Reported(o, k, now), |o.sessions| - 1;
    o2.(sessions := o2.sessions[s := WithSession(TouchSession(true, now), o2.sessions[s])])
  }

  lemma DoneTouches(o: Small, k: nat, now: Time)
    requires Sound(o) && Live(o, k, now) && Finishing(o)
    ensures var e, db1 := DoneEvent(o, k), Of(Reported(o, k, now));
      Of(Touched(o, k, now)) == UpdateSessions(db1, LatestOpenSession(db1, e.task), TouchSession(e.harness, now))
  {
    OpenLatest(Reported(o, k, now));
    UpdateOneSession(Reported(o, k, now), |o.sessions| - 1, TouchSession(true, now));
  }

  lemma DoneLeads(o: Small, k: nat, p: nat, now: Time)
    requires Sound(o) && o.status.Running? && Live(o, k, now) && Top(o, p) && Finishing(o)
    ensures RecordEventTx(Of(o), DoneEvent(o, k), 0, now, now) == Committed(Of(AfterDone(o, k, p, now)))
  {
    DoneIsAccepted(o, k, now);
    DoneTouches(o, k, now);
    TouchedEnds(o, k, p, now);
    InStages(Of(o), DoneEvent(o, k), now, Of(Reported(o, k, now)), Of(Touched(o, k, now)), Committed(Of(AfterDone(o, k, p, now))));
  }

  lemma TouchedEnds(o: Small, k: nat, p: nat, now: Time)
    requires Sound(o) && o.status.Running? && Live(o, k, now) && Top(o, p) && Finishing(o)
    ensures EndPromptAndSession(Of(Touched(o, k, now)), DoneEvent(o, k), (PromptStatus.Completed, SessionStatus.Completed), 0, now)
         == Committed(Of(AfterDone(o, k, p, now)))
  {
    DoneEnds(Touched(o, k, now), DoneEvent(o, k), p, now);
    FinishedIsEnded(o, k, p, now, Touched(o, k, now));
  }

  lemma FinishedIsEnded(o: Small, k: nat, p: nat, now: Time, o3: Small)
    requires k < |o.attempts| && o.attempts[k].prompt < |o.prompts| && o.attempts[k].claim.Some? && p < |o.prompts| && o.sessions != []
    requires var o2, s := Reported(o, k, now), |o.sessions| - 1;
      o3 == o2.(sessions := o2.sessions[s := WithSession(TouchSession(true, now), o2.sessions[s])])
    ensures AfterDone(o, k, p, now) == Ended(o3, p, now)
  {
    assert AfterDone(o, k, p, now).sessions == Ended(o3, p, now).sessions;
  }

  lemma OpenLatest(o: Small)
    requires Sound(o) && o.sessions != [] && o.sessions[|o.sessions| - 1].status.Running?
    ensures LatestOpenSession(Of(o), 0) == {|o.sessions| - 1}
  {
    LatestSessionIs(o);
  }

  function Ended(o: Small, p: nat, now: Time): Small
    requires p < |o.prompts| && o.sessions != []
  {
    var s := |o.sessions| - 1;
    o.(prompts := o.prompts[p := o.prompts[p].(status := PromptStatus.Completed, transcript := true)],
       sessions := o.sessions[s := o.sessions[s].(status := SessionStatus.Paused, pinned := Some(RUNNER),
                                                  workspace := true, harness := true, updated := now)])
  }

  /** The end of a done event in stages. */
  lemma EndInStages(db: Db, e: Event, now: Time, db1: Db, s: SessionId, end: SetSession, db2: Db)
    requires db1 == UpdatePrompts(db, LatestPromptRow(db, e.task), EndPrompt(PromptStatus.Completed, e.transcript))
    requires LatestSession(db1, e.task) == Some(s)
    requires end == SessionEnd(db1.sessions[s].mode, e, SessionStatus.Completed, now) && end.ParkSession? && !end.checkpointed
    requires db2 == UpdateSessions(db1, LatestOpenSession(db1, e.task), end)
    ensures EndPromptAndSession(db, e, (PromptStatus.Completed, SessionStatus.Completed), 0, now) == Committed(db2)
  {
  }

  lemma DoneEnds(o: Small, e: Event, p: nat, now: Time)
    requires Sound(o) && Top(o, p) && Finishing(o)
    requires e.task == 0 && e.runner == RUNNER && e.harness && e.workspace && e.transcript && !e.checkpoint
    ensures EndPromptAndSession(Of(o), e, (PromptStatus.Completed, SessionStatus.Completed), 0, now) == Committed(Of(Ended(o, p, now)))
  {
    var o1 := o.(prompts := o.prompts[p := WithPrompt(EndPrompt(PromptStatus.Completed, true), o.prompts[p])]);
    var s, end := |o.sessions| - 1, ParkSession(SessionStatus.Paused, RUNNER, false, true, now);
    DoneEndsPrompt(o, e, p);
    DoneParks(o1, e, now);
    EndedIs(o, p, now, o1);
    EndInStages(Of(o), e, now, Of(o1), s, end, Of(Ended(o, p, now)));
  }

  lemma EndedIs(o: Small, p: nat, now: Time, o1: Small)
    requires p < |o.prompts| && o.sessions != []
    requires o1 == o.(prompts := o.prompts[p := WithPrompt(EndPrompt(PromptStatus.Completed, true), o.prompts[p])])
    ensures var s := |o.sessions| - 1;
      o1.(sessions := o1.sessions[s := WithSession(ParkSession(SessionStatus.Paused, RUNNER, false, true, now), o1.sessions[s])])
        == Ended(o, p, now)
  {
  }

  lemma DoneEndsPrompt(o: Small, e: Event, p: nat)
    requires Sound(o) && Top(o, p) && e.task == 0 && e.transcript
    ensures UpdatePrompts(Of(o), LatestPromptRow(Of(o), e.task), EndPrompt(PromptStatus.Completed, e.transcript)) ==
            Of(o.(prompts := o.prompts[p := WithPrompt(EndPrompt(PromptStatus.Completed, true), o.prompts[p])]))
  {
    LatestPromptIs(o, p);
    assert LatestPromptRow(Of(o), 0) == {p};
    UpdateOnePrompt(o, p, EndPrompt(PromptStatus.Completed, true));
  }

  lemma DoneParks(o: Small, e: Event, now: Time)
    requires Sound(o) && Finishing(o) && e.task == 0 && e.runner == RUNNER && e.harness && e.workspace && !e.checkpoint
    ensures LatestSession(Of(o), e.task) == Some(|o.sessions| - 1)
    ensures var s, end := |o.sessions| - 1, ParkSession(SessionStatus.Paused, RUNNER, false, true, now);
      && end == SessionEnd(Of(o).sessions[s].mode, e, SessionStatus.Completed, now)
      && Of(o.(sessions := o.sessions[s := WithSession(end, o.sessions[s])])) ==
         UpdateSessions(Of(o), LatestOpenSession(Of(o), e.task), end)
  {
    LatestSessionIs(o);
    OpenLatest(o);
    UpdateOneSession(o, |o.sessions| - 1, ParkSession(SessionStatus.Paused, RUNNER, false, true, now));
  }

  // ------------------------------------------------------------ other requests

  const TTL := 72 * 3600

  const First := Small(TaskStatus.Pending, None, [NewSession(0, 1, HarnessSession, true, Some(TTL), 0)],
                       [Prompt(0, 0, 1, PromptStatus.Pending, false)], [NewAttempt(0, Anyone, TIMEOUT, 0)], 0)

  /** The runner registers, and a resumable task is submitted. */
  const Registered := Empty.(runners := map[RUNNER := Beat(0)])
  const FirstSubmit := Submit(0, Ids(0, 0, 0), HarnessSession, true, Some(TTL), TIMEOUT, LIMIT, 0)

  lemma RegisterLeads()
    ensures Leads(Empty, Heartbeat(RUNNER, Beat(0)), Registered) && Served(Empty, Heartbeat(RUNNER, Beat(0)))
  {
  }

  lemma SubmitLeads()
    ensures Leads(Registered, FirstSubmit, Of(First)) && Served(Registered, FirstSubmit)
  {
    var db' := SubmitTx(Registered, 0, Ids(0, 0, 0), HarnessSession, true, Some(TTL), TIMEOUT, LIMIT, 0).db;
    assert db'.tasks == Of(First).tasks && db'.sessions == Of(First).sessions;
    assert db'.prompts == Of(First).prompts && db'.attempts == Of(First).attempts;
  }

  lemma BeatLeads(o: Small, now: Time)
    ensures Leads(Of(o), Heartbeat(RUNNER, Beat(now)), Of(o.(seen := now)))
  {
    assert Of(o).runners[RUNNER := Beat(now)] == Of(o.(seen := now)).runners;
  }

  function Fresh(o: Small): Ids {
    Ids(|o.sessions|, |o.prompts|, |o.attempts|)
  }

  function NextSession(o: Small, now: Time): Session {
    NewSession(0, |o.sessions| + 1, HarnessSession, true, Some(now + TTL), now)
  }

  function Recovered(o: Small, now: Time): Small {
    var o1 := TaskAfter(o, RequeueTask);
    o1.(sessions := o.sessions + [NextSession(o, now)],
        prompts := o.prompts + [Prompt(0, |o.sessions|, 1, PromptStatus.Pending, false)],
        attempts := o.attempts + [NewAttempt(|o.prompts|, Anyone, TIMEOUT, now)])
  }

  lemma InsertLeads(o: Small, session: Session, now: Time)
    requires session.task == 0
    ensures InsertChain(Of(o), Fresh(o), session, TIMEOUT, now) ==
      Committed(Of(o.(sessions := o.sessions + [session],
                      prompts := o.prompts + [Prompt(0, |o.sessions|, 1, PromptStatus.Pending, false)],
                      attempts := o.attempts + [NewAttempt(|o.prompts|, Anyone, TIMEOUT, now)])))
  {
    Appended(o.sessions, session);
    Appended(o.prompts, Prompt(0, |o.sessions|, 1, PromptStatus.Pending, false));
    Appended(o.attempts, NewAttempt(|o.prompts|, Anyone, TIMEOUT, now));
  }

  predicate MayRecover(o: Small, p: nat) {
    && Sound(o) && Top(o, p) && o.prompts[p].transcript && (o.status.Done? || o.status.Error?)
    && o.sessions != [] && o.sessions[|o.sessions| - 1].mode.HarnessSession?
    && forall k :: 0 <= k < |o.attempts| ==> o.attempts[k].timeout == TIMEOUT
  }

  lemma RecoverLeads(o: Small, p: nat, now: Time)
    requires MayRecover(o, p)
    ensures Leads(Of(o), Recover(0, Fresh(o), TIMEOUT, now), Of(Recovered(o, now)))
  {
    RecoverTxIs(o, p, now);
  }

  lemma RecoverReads(o: Small, p: nat)
    requires MayRecover(o, p)
    ensures LatestSession(Of(o), 0) == Some(|o.sessions| - 1) && LatestPrompt(Of(o), 0) == Some(p)
    ensures NextSessionNumber(Of(o), 0) == |o.sessions| + 1 && LastTimeout(Of(o), p, TIMEOUT) == TIMEOUT
    ensures ReopenableTaskRow(Of(o), 0) == {0}
  {
    LatestSessionIs(o);
    LatestPromptIs(o, p);
  }

  /** RecoverTask in stages. */
  lemma RecoverInStages(db: Db, ids: Ids, now: Time, s: SessionId, p: PromptId, db1: Db, session: Session, outcome: Outcome)
    requires LatestSession(db, 0) == Some(s) && LatestPrompt(db, 0) == Some(p) && db.prompts[p].transcript
    requires db.sessions[s].mode.HarnessSession? && db.sessions[s].isolated && ReopenableTaskRow(db, 0) == {0}
    requires db1 == UpdateTasks(db, {0}, RequeueTask)
    requires session == NewSession(0, NextSessionNumber(db, 0), HarnessSession, true, Some(now + TTL), now)
    requires outcome == InsertChain(db1, ids, session, LastTimeout(db, p, TIMEOUT), now)
    ensures RecoverTx(db, 0, ids, TIMEOUT, now) == outcome
  {
  }

  lemma RecoverInserts(o: Small, now: Time)
    ensures UpdateTasks(Of(o), {0}, RequeueTask) == Of(TaskAfter(o, RequeueTask))
    ensures InsertChain(Of(TaskAfter(o, RequeueTask)), Fresh(o), NextSession(o, now), TIMEOUT, now) == Committed(Of(Recovered(o, now)))
  {
    UpdateTheTask(o, RequeueTask);
    InsertLeads(TaskAfter(o, RequeueTask), NextSession(o, now), now);
  }

  lemma RecoverTxIs(o: Small, p: nat, now: Time)
    requires MayRecover(o, p)
    ensures RecoverTx(Of(o), 0, Fresh(o), TIMEOUT, now) == Committed(Of(Recovered(o, now)))
  {
    RecoverReads(o, p);
    RecoverInserts(o, now);
    RecoverInStages(Of(o), Fresh(o), now, |o.sessions| - 1, p, Of(TaskAfter(o, RequeueTask)), NextSession(o, now), Committed(Of(Recovered(o, now))));
  }

  function Resumed(o: Small, s: nat, number: int, now: Time): Small
    requires s < |o.sessions|
  {
    var o1 := TaskAfter(o, RequeueTask);
    o1.(sessions := o.sessions[s := o.sessions[s].(status := SessionStatus.Resuming, updated := now)],
        prompts := o.prompts + [Prompt(0, s, number, PromptStatus.Pending, false)],
        attempts := o.attempts + [NewAttempt(|o.prompts|, Only(RUNNER), TIMEOUT, now)])
  }

  function ResumeOf(o: Small, s: nat, now: Time): Step {
    Resume(s, 0, RUNNER, |o.prompts|, |o.attempts|, TIMEOUT, now)
  }

  function AfterResume(o: Small, s: nat, q: nat, now: Time): Small
    requires s < |o.sessions| && q < |o.prompts|
  {
    Resumed(o, s, o.prompts[q].number + 1, now)
  }

  /** Paused by the runner, with everything a resume needs. */
  predicate Ready(s: Session) {
    s.status.Paused? && s.mode.HarnessSession? && s.pinned == Some(RUNNER) && s.workspace && s.harness
  }

  /** Session s, of which q is the only prompt, passes the checks of a resume. */
  predicate CanResume(o: Small, s: nat, q: nat, now: Time) {
    && Sound(o) && o.status.Done? && s < |o.sessions| && Ready(o.sessions[s]) && now - RESUME_PRESENCE < o.seen
    && q < |o.prompts| && forall k :: 0 <= k < |o.prompts| ==> (o.prompts[k].session == s <==> k == q)
  }

  lemma ResumeLeads(o: Small, s: nat, q: nat, now: Time)
    requires CanResume(o, s, q, now)
    ensures Leads(Of(o), ResumeOf(o, s, now), Of(AfterResume(o, s, q, now)))
  {
    ResumeTxIs(o, s, q, now);
  }

  lemma ReadyMayResume(o: Small, s: nat, now: Time)
    requires s < |o.sessions| && Ready(o.sessions[s]) && now - RESUME_PRESENCE < o.seen
    ensures MayResume(Of(o), s, now) && Of(o).sessions[s].pinned == Some(RUNNER)
  {
  }

  /** ResumeAgentSession's transaction in stages. */
  lemma ResumeInStages(db: Db, s: SessionId, p: PromptId, i: AttemptId, now: Time, number: int, db1: Db, db2: Db)
    requires ReopenableTaskRow(db, 0) == {0} && p !in db.prompts && i !in db.attempts && ParkedSession(db, s) == {s}
    requires db1 == UpdateTasks(db, {0}, RequeueTask) && number == NextPromptNumber(db, s)
    requires db2 == db1.(prompts := db1.prompts[p := Prompt(0, s, number, PromptStatus.Pending, false)],
                         attempts := db1.attempts[i := NewAttempt(p, Only(RUNNER), TIMEOUT, now)])
    ensures ResumeTx(db, s, 0, RUNNER, p, i, TIMEOUT, now) ==
            Committed(UpdateSessions(db2, ParkedSession(db2, s), SetSessionStatus(SessionStatus.Resuming, now)))
  {
  }

  lemma ResumeReads(o: Small, s: nat, q: nat, now: Time)
    requires CanResume(o, s, q, now)
    ensures ReopenableTaskRow(Of(o), 0) == {0} && ParkedSession(Of(o), s) == {s}
    ensures NextPromptNumber(Of(o), s) == o.prompts[q].number + 1
  {
    LastIs(PromptRanksIn(Of(o), s), q);
  }

  lemma ResumeTxIs(o: Small, s: nat, q: nat, now: Time)
    requires CanResume(o, s, q, now)
    ensures ResumeTx(Of(o), s, 0, RUNNER, |o.prompts|, |o.attempts|, TIMEOUT, now) == Committed(Of(Resumed(o, s, o.prompts[q].number + 1, now)))
  {
    var number := o.prompts[q].number + 1;
    var prompt, row := Prompt(0, s, number, PromptStatus.Pending, false), NewAttempt(|o.prompts|, Only(RUNNER), TIMEOUT, now);
    var o2 := TaskAfter(o, RequeueTask).(prompts := o.prompts + [prompt], attempts := o.attempts + [row]);
    ResumeReads(o, s, q, now);
    UpdateTheTask(o, RequeueTask);
    Appended(o.prompts, prompt);
    Appended(o.attempts, row);
    ResumeInStages(Of(o), s, |o.prompts|, |o.attempts|, now, number, Of(TaskAfter(o, RequeueTask)), Of(o2));
    ResumingSession(o2, s, now);
  }

  lemma ResumingSession(o: Small, s: nat, now: Time)
    requires s < |o.sessions| && o.sessions[s].status.Paused?
    ensures UpdateSessions(Of(o), ParkedSession(Of(o), s), SetSessionStatus(SessionStatus.Resuming, now)) ==
            Of(o.(sessions := o.sessions[s := o.sessions[s].(status := SessionStatus.Resuming, updated := now)]))
  {
    assert ParkedSession(Of(o), s) == {s};
    UpdateOneSession(o, s, SetSessionStatus(SessionStatus.Resuming, now));
  }

  // ------------------------------------------------------------------- reapers

  function FailedOver(o: Small, k: nat, now: Time): Small
    requires k < |o.attempts|
  {
    TaskAfter(o.(attempts := o.attempts[k := WithAttempt(FailAttempt(Timeout, now), o.attempts[k])]), FailTask(Timeout))
  }

  lemma OverrunLeads(o: Small, k: nat, now: Time)
    requires Sound(o) && o.status.Running? && k < |o.attempts| && Overrun(o.attempts[k], now)
    requires forall l :: 0 <= l < |o.attempts| && l != k ==> !o.attempts[l].status.Running?
    ensures Leads(Of(o), ReapOverrun(now, now), Of(FailedOver(o, k, now)))
  {
    assert OverrunAttempts(Of(o), now) == {k};
    UpdateOneAttempt(o, k, FailAttempt(Timeout, now));
    OverrunRollsUp(o.(attempts := o.attempts[k := WithAttempt(FailAttempt(Timeout, now), o.attempts[k])]), k, now);
  }

  lemma OverrunRollsUp(o: Small, k: nat, now: Time)
    requires Sound(o) && o.status.Running? && k < |o.attempts| && FailedByTimeout(o.attempts[k]) && o.attempts[k].ended == Some(now)
    ensures UpdateTasks(Of(o), TasksOfOverrun(Of(o), now), FailTask(Timeout)) == Of(TaskAfter(o, FailTask(Timeout)))
  {
    OwnsAll(o);
    assert Owns(Of(o), 0, k);
    assert TasksOfOverrun(Of(o), now) == {0};
    UpdateTheTask(o, FailTask(Timeout));
  }

  lemma ReapLeads(o: Small, k: nat, now: Time)
    requires Sound(o) && o.status.Running? && k < |o.attempts|
    requires FailedByTimeout(o.attempts[k]) && o.attempts[k].lease.Some? && o.attempts[k].lease.value < now
    requires forall l :: 0 <= l < |o.attempts| ==> !LeaseExpired(o.attempts[l], now)
    ensures Leads(Of(o), ReapLeases(true, [], [], now), Of(TaskAfter(o, FailTask(Timeout))))
  {
    assert Candidates(Of(o), now) == {};
    assert ExhaustedAttempts(Of(o), now) == {};
    NoHits(o, FailAttempt(Timeout, now), DropPromptExport);
    OwnsAll(o);
    assert Owns(Of(o), 0, k);
    assert TasksWithExpiredLease(Of(o), now) == {0};
    UpdateTheTask(o, FailTask(Timeout));
  }
}
