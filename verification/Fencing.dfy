/** Fencing: what may happen to one execution attempt over whole runs, whatever
    the order of the steps. */
module Fencing {
  import opened Basics
  import opened Tables
  import opened Transactions

  predicate Finished(a: Attempt) {
    !ActiveAttempt(a)
  }

  /** How an attempt row may change. A pending row is assigned a runner and a
      claim only by leaving pending, to which it never returns; a finished row
      changes only by losing its transcript. */
  predicate EvolvesTo(a: Attempt, b: Attempt) {
    && b.prompt == a.prompt && b.required == a.required && b.created == a.created
    && (!a.status.Pending? || b.status.Pending? ==> b.runner == a.runner && b.claim == a.claim)
    && (!a.status.Pending? ==> !b.status.Pending?)
    && (Finished(a) ==> b == a.(transcript := b.transcript) && (b.transcript ==> a.transcript))
  }

  lemma EvolvesTransitive(a: Attempt, b: Attempt, c: Attempt)
    requires EvolvesTo(a, b) && EvolvesTo(b, c)
    ensures EvolvesTo(a, c)
  {
  }

  /** Every attempt is kept and evolves; a pending one that is new is unassigned. */
  ghost predicate AllEvolve(a: map<AttemptId, Attempt>, b: map<AttemptId, Attempt>) {
    && (forall i :: i in a ==> i in b && EvolvesTo(a[i], b[i]))
    && (forall i :: i in b && i !in a ==> Unassigned(b[i]))
  }

  predicate Unassigned(a: Attempt) {
    a.status.Pending? ==> a.runner.None? && a.claim.None?
  }

  lemma AllEvolveTransitive(a: map<AttemptId, Attempt>, b: map<AttemptId, Attempt>, c: map<AttemptId, Attempt>)
    requires AllEvolve(a, b) && AllEvolve(b, c)
    ensures AllEvolve(a, c)
  {
    forall i | i in a ensures i in c && EvolvesTo(a[i], c[i]) {
      EvolvesTransitive(a[i], b[i], c[i]);
    }
    forall i | i in c && i !in a ensures Unassigned(c[i]) {
      assert i in b ==> EvolvesTo(b[i], c[i]) && Unassigned(b[i]);
    }
  }

  /** The rows each SET clause may be applied to. */
  predicate Suits(clause: SetAttempt, a: Attempt) {
    match clause
    case CancelAttempt(_) => ActiveAttempt(a)
    case ExtendAttempt(_) => ActiveAttempt(a)
    case FailAttempt(_, _) => ActiveAttempt(a)
    case ClaimAttempt(_, _, _, _) => a.status.Pending?
    case LoseAttempt(_) => a.status.Running?
    case RenewAttempt(_) => a.status.Running?
    case ReportAttempt(_, _) => a.status.Running?
    case DropAttemptExport => true
  }

  lemma UpdateEvolves(db: Db, hits: set<AttemptId>, clause: SetAttempt)
    requires forall i :: i in hits && i in db.attempts ==> Suits(clause, db.attempts[i])
    ensures AllEvolve(db.attempts, UpdateAttempts(db, hits, clause).attempts)
  {
    forall i | i in db.attempts && i in hits ensures EvolvesTo(db.attempts[i], WithAttempt(clause, db.attempts[i])) {
      ClauseEvolves(clause, db.attempts[i]);
    }
  }

  lemma ClauseEvolves(clause: SetAttempt, a: Attempt)
    requires Suits(clause, a)
    ensures EvolvesTo(a, WithAttempt(clause, a))
  {
  }

  // ----------------------------------------------------------------- each step

  /** The rows of a reclaim: one lost, one inserted. */
  lemma ReclaimedRows(db: Db, i: AttemptId, ids: Ids, now: Time)
    requires ReclaimOne(db, i, ids, now).Committed? && !Spared(db, i)
    ensures var db' := ReclaimOne(db, i, ids, now).db;
      && ids.attempt !in db.attempts && ids.attempt in db'.attempts && Unassigned(db'.attempts[ids.attempt])
      && db'.attempts == UpdateAttempts(db, RunningAttempt(db, i), LoseAttempt(now)).attempts[ids.attempt := db'.attempts[ids.attempt]]
  {
  }

  lemma ReclaimEvolves(db: Db, i: AttemptId, ids: Ids, now: Time)
    requires ReclaimOne(db, i, ids, now).Committed?
    ensures AllEvolve(db.attempts, ReclaimOne(db, i, ids, now).db.attempts)
  {
    if !Spared(db, i) {
      ReclaimedRows(db, i, ids, now);
      UpdateEvolves(db, RunningAttempt(db, i), LoseAttempt(now));
    }
  }

  lemma {:induction false} ReclaimAllEvolves(db: Db, order: seq<AttemptId>, drawn: seq<Ids>, now: Time)
    requires |order| == |drawn| && ReclaimAll(db, order, drawn, now).Committed?
    ensures AllEvolve(db.attempts, ReclaimAll(db, order, drawn, now).db.attempts)
    decreases |order|
  {
    if order != [] {
      var db1 := ReclaimOne(db, order[0], drawn[0], now).db;
      ReclaimEvolves(db, order[0], drawn[0], now);
      ReclaimAllEvolves(db1, order[1..], drawn[1..], now);
      AllEvolveTransitive(db.attempts, db1.attempts, ReclaimAll(db, order, drawn, now).db.attempts);
    }
  }

  lemma FailExpiredEvolves(db: Db, auto: bool, now: Time)
    ensures AllEvolve(db.attempts, FailExpired(db, auto, now).attempts)
  {
    UpdateEvolves(db, if auto then ExhaustedAttempts(db, now) else ExpiredAttempts(db, now), FailAttempt(Timeout, now));
  }

  lemma ReapLeasesEvolves(db: Db, auto: bool, order: seq<AttemptId>, drawn: seq<Ids>, now: Time)
    requires |order| == |drawn| && ReapLeasesTx(db, auto, order, drawn, now).Committed?
    ensures AllEvolve(db.attempts, ReapLeasesTx(db, auto, order, drawn, now).db.attempts)
  {
    var db1 := if auto then ReclaimAll(db, order, drawn, now).db else db;
    if auto {
      ReclaimAllEvolves(db, order, drawn, now);
    }
    FailExpiredEvolves(db1, auto, now);
    AllEvolveTransitive(db.attempts, db1.attempts, FailExpired(db1, auto, now).attempts);
  }

  /** Of the attempts an event writes one row. */
  lemma ReportRows(db: Db, e: Event, checkpoint: CheckpointId, now: Time, clock: Time)
    requires RecordEventTx(db, e, checkpoint, now, clock).Committed?
    ensures RecordEventTx(db, e, checkpoint, now, clock).db.attempts ==
            UpdateAttempts(db, ReportableAttempt(db, e, clock), ReportAttempt(e, now)).attempts
  {
  }

  lemma ReportEvolves(db: Db, e: Event, checkpoint: CheckpointId, now: Time, clock: Time)
    requires RecordEventTx(db, e, checkpoint, now, clock).Committed?
    ensures AllEvolve(db.attempts, RecordEventTx(db, e, checkpoint, now, clock).db.attempts)
  {
    UpdateEvolves(db, ReportableAttempt(db, e, clock), ReportAttempt(e, now));
    ReportRows(db, e, checkpoint, now, clock);
  }

  lemma ClaimEvolves(db: Db, i: AttemptId, r: RunnerId, c: ClaimId, lease: Time, now: Time)
    requires i in db.attempts && db.attempts[i].prompt in db.prompts && db.prompts[db.attempts[i].prompt].task in db.tasks
    requires ClaimTx(db, i, r, c, lease, now).Committed?
    ensures AllEvolve(db.attempts, ClaimTx(db, i, r, c, lease, now).db.attempts)
  {
    UpdateEvolves(db, PendingAttempt(db, i), ClaimAttempt(r, c, now + lease, now));
  }

  lemma ReaperEvolves(db: Db, now: Time, clock: Time)
    ensures AllEvolve(db.attempts, ReapPinnedTx(db, now, clock).attempts) && AllEvolve(db.attempts, ReapIsolationTx(db, now, clock).attempts)
    ensures AllEvolve(db.attempts, ReapOverrunTx(db, now, clock).attempts) && AllEvolve(db.attempts, ClearQueueTx(db, now).attempts)
  {
    UpdateEvolves(db, AttemptsMissingRunner(db, clock), FailAttempt(RunnerUnavailable, now));
    UpdateEvolves(db, AttemptsWithoutIsolation(db, clock), FailAttempt(IsolationUnavailable, now));
    UpdateEvolves(db, OverrunAttempts(db, clock), FailAttempt(Timeout, now));
    UpdateEvolves(db, PendingAttempts(db), CancelAttempt(now));
  }

  lemma StatementEvolves(db: Db, i: AttemptId, t: TaskId, r: RunnerId, c: ClaimId, seconds: int, ttl: int, now: Time)
    ensures AllEvolve(db.attempts, RenewStmt(db, i, r, c, now).attempts) && AllEvolve(db.attempts, ExtendStmt(db, t, seconds).attempts)
    ensures AllEvolve(db.attempts, CollectAttemptsStmt(db, now, ttl).attempts)
    ensures CancelTx(db, t, now).Committed? ==> AllEvolve(db.attempts, CancelTx(db, t, now).db.attempts)
  {
    UpdateEvolves(db, RenewableAttempt(db, i, r, c), RenewAttempt(now + TASK_LEASE));
    UpdateEvolves(db, ActiveAttemptsOf(db, t), ExtendAttempt(seconds));
    UpdateEvolves(db, CollectableAttempts(db, now, ttl), DropAttemptExport);
    UpdateEvolves(db, ActiveAttemptsOf(db, t), CancelAttempt(now));
  }

  lemma RunnerStepEvolves(db: Db, step: Step)
    requires Enabled(db, step) && (step.Claim? || step.Report? || step.Renew?) && Apply(db, step).Committed?
    ensures AllEvolve(db.attempts, Apply(db, step).db.attempts)
  {
    match step
    case Claim(i, r, capable, locked, c, lease, now) => ClaimEvolves(db, i, r, c, lease, now);
    case Report(e, checkpoint, now, clock) => ReportEvolves(db, e, checkpoint, now, clock);
    case Renew(i, r, c, now) => StatementEvolves(db, i, 0, r, c, 0, 0, now);
  }

  lemma ReaperStepEvolves(db: Db, step: Step)
    requires Enabled(db, step) && Apply(db, step).Committed?
    requires step.ReapLeases? || step.ReapPinned? || step.ReapIsolation? || step.ReapOverrun? || step.ClearQueue?
    ensures AllEvolve(db.attempts, Apply(db, step).db.attempts)
  {
    match step
    case ReapLeases(auto, order, drawn, now) => ReapLeasesEvolves(db, auto, order, drawn, now);
    case ReapPinned(now, clock) => ReaperEvolves(db, now, clock);
    case ReapIsolation(now, clock) => ReaperEvolves(db, now, clock);
    case ReapOverrun(now, clock) => ReaperEvolves(db, now, clock);
    case ClearQueue(now) => ReaperEvolves(db, now, 0);
  }

  lemma InsertEvolves(db: Db, ids: Ids, session: Session, timeout: int, now: Time)
    requires InsertChain(db, ids, session, timeout, now).Committed?
    ensures AllEvolve(db.attempts, InsertChain(db, ids, session, timeout, now).db.attempts)
  {
  }

  lemma ResumeEvolves(db: Db, s: SessionId, t: TaskId, r: RunnerId, p: PromptId, i: AttemptId, timeout: int, now: Time)
    requires ResumeTx(db, s, t, r, p, i, timeout, now).Committed?
    ensures AllEvolve(db.attempts, ResumeTx(db, s, t, r, p, i, timeout, now).db.attempts)
  {
  }

  lemma RecoverEvolves(db: Db, t: TaskId, ids: Ids, timeout: int, now: Time)
    requires RecoverTx(db, t, ids, timeout, now).Committed?
    ensures AllEvolve(db.attempts, RecoverTx(db, t, ids, timeout, now).db.attempts)
  {
  }

  lemma QueueStepEvolves(db: Db, step: Step)
    requires Enabled(db, step) && Apply(db, step).Committed? && (step.Submit? || step.Recover? || step.Resume?)
    ensures AllEvolve(db.attempts, Apply(db, step).db.attempts)
  {
    match step
    case Submit(t, ids, mode, isolated, expires, timeout, maxAttempts, now) =>
      InsertEvolves(db.(tasks := db.tasks[t := Task(TaskStatus.Pending, None, maxAttempts)]), ids,
                    NewSession(t, 1, mode, isolated, expires, now), timeout, now);
    case Recover(t, ids, timeout, now) => RecoverEvolves(db, t, ids, timeout, now);
    case Resume(s, t, r, p, i, timeout, now) => ResumeEvolves(db, s, t, r, p, i, timeout, now);
  }

  lemma OtherStepEvolves(db: Db, step: Step)
    requires Enabled(db, step) && Apply(db, step).Committed?
    requires !step.Submit? && !step.Recover? && !step.Resume? && !step.Claim? && !step.Report? && !step.Renew?
    requires !step.ReapLeases? && !step.ReapPinned? && !step.ReapIsolation? && !step.ReapOverrun? && !step.ClearQueue?
    ensures AllEvolve(db.attempts, Apply(db, step).db.attempts)
  {
    match step
    case Extend(t, seconds) => StatementEvolves(db, 0, t, 0, 0, seconds, 0, 0);
    case CollectAttempts(clock, ttl) => StatementEvolves(db, 0, 0, 0, 0, 0, ttl, clock);
    case Cancel(t, now) => StatementEvolves(db, 0, t, 0, 0, 0, 0, now);
    case _ =>
  }

  lemma StepEvolves(db: Db, step: Step)
    requires Enabled(db, step)
    ensures AllEvolve(db.attempts, Next(db, step).attempts)
  {
    if Apply(db, step).Committed? {
      if step.Claim? || step.Report? || step.Renew? {
        RunnerStepEvolves(db, step);
      } else if step.Submit? || step.Recover? || step.Resume? {
        QueueStepEvolves(db, step);
      } else if step.ReapLeases? || step.ReapPinned? || step.ReapIsolation? || step.ReapOverrun? || step.ClearQueue? {
        ReaperStepEvolves(db, step);
      } else {
        OtherStepEvolves(db, step);
      }
    }
  }

  // ----------------------------------------------------------------------- runs

  /** Over any run an attempt is kept and only evolves. */
  lemma {:induction false} AttemptsEvolve(db: Db, steps: seq<Step>, last: Db)
    requires Run(db, steps, last)
    ensures AllEvolve(db.attempts, last.attempts)
    decreases |steps|
  {
    if steps != [] {
      StepEvolves(db, steps[0]);
      AttemptsEvolve(Next(db, steps[0]), steps[1..], last);
      AllEvolveTransitive(db.attempts, Next(db, steps[0]).attempts, last.attempts);
    }
  }

  /** The runner and the claim of an attempt are assigned at most once. */
  lemma AssignedAtMostOnce(before: seq<Step>, db: Db, after: seq<Step>, last: Db, i: AttemptId)
    requires Run(Empty, before, db) && Run(db, after, last)
    requires i in db.attempts && (db.attempts[i].runner.Some? || db.attempts[i].claim.Some?)
    ensures i in last.attempts && last.attempts[i].runner == db.attempts[i].runner && last.attempts[i].claim == db.attempts[i].claim
  {
    AttemptsEvolve(Empty, before, db);
    AttemptsEvolve(db, after, last);
    assert Unassigned(db.attempts[i]);
  }

  /** Once an attempt is finished, no renewal and no event in its name changes
      anything, at any later time, under whatever claim. */
  lemma FinishedAttemptIsFenced(db: Db, steps: seq<Step>, last: Db, i: AttemptId, e: Event, checkpoint: CheckpointId, now: Time, clock: Time)
    requires Run(db, steps, last) && i in db.attempts && Finished(db.attempts[i]) && e.attempt == i
    ensures RenewStmt(last, i, e.runner, e.claim, now) == last
    ensures RecordEventTx(last, e, checkpoint, now, clock) == RolledBack
  {
    AttemptsEvolve(db, steps, last);
    assert Finished(last.attempts[i]);
    assert RenewableAttempt(last, i, e.runner, e.claim) == {} && ReportableAttempt(last, e, clock) == {};
    assert RenewStmt(last, i, e.runner, e.claim, now).attempts == last.attempts;
  }
}
