/** The MySQL and the PostgreSQL texts of the statements that differ. */
module Dialects {
  import opened Basics
  import opened Tables
  import opened Transactions

  // ----------------------------------------------------------- the claim query

  /** What both claim queries ask of the attempt and its task. */
  predicate Queued(db: Db, i: AttemptId, r: RunnerId) {
    i in db.attempts && db.attempts[i].prompt in db.prompts
    && var t := db.prompts[db.attempts[i].prompt].task;
       t in db.tasks && db.tasks[t].status.Pending?
       && db.attempts[i].status.Pending?
       && (db.attempts[i].required == Anyone || db.attempts[i].required == Blank || db.attempts[i].required == Only(r))
  }

  /** MySQL: no session row of the prompt requires isolation, or the runner has it. */
  predicate ClaimableMySql(db: Db, i: AttemptId, r: RunnerId, capable: bool) {
    Queued(db, i, r)
    && (!(exists s :: s in db.sessions && s == db.prompts[db.attempts[i].prompt].session && db.sessions[s].isolated) || capable)
  }

  /** PostgreSQL: an inner join with the session row. */
  predicate ClaimablePostgres(db: Db, i: AttemptId, r: RunnerId, capable: bool) {
    Queued(db, i, r)
    && exists s :: s in db.sessions && s == db.prompts[db.attempts[i].prompt].session && (!db.sessions[s].isolated || capable)
  }

  /** The claim predicate of the model is the MySQL one. */
  lemma ClaimableIsMySql(db: Db, i: AttemptId, r: RunnerId, capable: bool)
    ensures Claimable(db, i, r, capable) <==> ClaimableMySql(db, i, r, capable)
  {
    if Queued(db, i, r) {
      var s := db.prompts[db.attempts[i].prompt].session;
      assert NeedsIsolation(db, i) <==> (exists q :: q in db.sessions && q == s && db.sessions[q].isolated);
    }
  }

  /** The two queries select the same attempts exactly when every queued attempt
      the runner could otherwise take has its session row. The model's claim query is
      the MySQL one. */
  lemma ClaimsAgreeIff(db: Db, r: RunnerId, capable: bool)
    ensures forall i :: Claimable(db, i, r, capable) <==> ClaimableMySql(db, i, r, capable)
    ensures (forall i :: ClaimableMySql(db, i, r, capable) <==> ClaimablePostgres(db, i, r, capable))
       <==> (forall i :: Queued(db, i, r) ==> db.prompts[db.attempts[i].prompt].session in db.sessions)
  {
    forall i ensures Claimable(db, i, r, capable) <==> ClaimableMySql(db, i, r, capable) {
      ClaimableIsMySql(db, i, r, capable);
    }
    forall i | Queued(db, i, r)
      ensures (ClaimableMySql(db, i, r, capable) <==> ClaimablePostgres(db, i, r, capable))
         <==> db.prompts[db.attempts[i].prompt].session in db.sessions
    {
      var s := db.prompts[db.attempts[i].prompt].session;
      if s in db.sessions {
        assert (exists q :: q in db.sessions && q == s && db.sessions[q].isolated) <==> db.sessions[s].isolated;
        assert (exists q :: q in db.sessions && q == s && (!db.sessions[q].isolated || capable)) <==> (!db.sessions[s].isolated || capable);
      }
    }
    if forall i :: ClaimableMySql(db, i, r, capable) <==> ClaimablePostgres(db, i, r, capable) {
      forall i | Queued(db, i, r) ensures db.prompts[db.attempts[i].prompt].session in db.sessions {
        assert ClaimableMySql(db, i, r, capable) <==> ClaimablePostgres(db, i, r, capable);
      }
    }
  }

  // ------------------------------------------------------------ missing runners

  /** What both texts ask of the attempt and its session. */
  predicate Pinned(db: Db, i: AttemptId) {
    i in db.attempts && db.attempts[i].prompt in db.prompts
    && var s := db.prompts[db.attempts[i].prompt].session;
       s in db.sessions && db.sessions[s].status.Resuming? && db.attempts[i].status.Pending? && db.attempts[i].required.Only?
  }

  /** MySQL: LEFT JOIN the runner; it is NULL, not active, or not seen lately. */
  predicate MissingMySql(db: Db, i: AttemptId, clock: Time, stale: int) {
    Pinned(db, i)
    && var r := db.attempts[i].required.runner;
       (r !in db.runners || !db.runners[r].status.Active? || db.runners[r].seen <= clock - stale)
  }

  /** PostgreSQL: NOT EXISTS an active runner seen lately. */
  predicate MissingPostgres(db: Db, i: AttemptId, clock: Time, stale: int) {
    Pinned(db, i)
    && !exists r :: r in db.runners && r == db.attempts[i].required.runner
         && db.runners[r].status.Active? && db.runners[r].seen > clock - stale
  }

  lemma MissingRunnersAgree(db: Db, i: AttemptId, clock: Time)
    ensures MissingMySql(db, i, clock, RUNNER_PRESENCE) <==> MissingPostgres(db, i, clock, RUNNER_PRESENCE)
    ensures MissingMySql(db, i, clock, RUNNER_PRESENCE) <==> MissingRunner(db, i, clock)
  {
    if Pinned(db, i) {
      var q := db.attempts[i].required.runner;
      assert (exists r :: r in db.runners && r == q && db.runners[r].status.Active? && db.runners[r].seen > clock - RUNNER_PRESENCE)
        <==> (q in db.runners && db.runners[q].status.Active? && db.runners[q].seen > clock - RUNNER_PRESENCE);
    }
  }

  // ------------------------------------------------------------- overrun attempts

  const MICROS := 1_000_000

  /** TIMESTAMPDIFF(SECOND, ...) > limit: whole seconds, truncated toward zero. */
  predicate OverMySql(elapsedMicros: int, limit: int) {
    (if elapsedMicros >= 0 then elapsedMicros / MICROS else -(-elapsedMicros / MICROS)) > limit
  }

  /** EXTRACT(EPOCH ...) > limit: fractions count. */
  predicate OverPostgres(elapsedMicros: int, limit: int) {
    elapsedMicros > limit * MICROS
  }

  /** PostgreSQL reaps an overrun attempt up to a second earlier: the two texts
      differ exactly strictly between the limit and the next whole second. */
  lemma OverrunsDifferIff(elapsedMicros: int, limit: int)
    requires 0 <= limit
    ensures OverMySql(elapsedMicros, limit) ==> OverPostgres(elapsedMicros, limit)
    ensures OverMySql(elapsedMicros, limit) != OverPostgres(elapsedMicros, limit)
       <==> limit * MICROS < elapsedMicros < (limit + 1) * MICROS
  {
  }
}
