/** What one pass of the artifact collector clears, and what it leaves. */
module Collection {
  import opened Basics
  import opened Tables
  import opened Transactions
  import opened Sessions

  /** The statements of one pass, in order. */
  function Collected(db: Db, clock: Time, ttl: int): Db {
    CollectAttemptsStmt(CollectPromptsStmt(CollectCheckpointsStmt(db, clock, ttl), clock, ttl), clock, ttl)
  }

  /** Session s is over, and nothing happened to it for longer than ttl. */
  predicate LongOver(db: Db, s: SessionId, clock: Time, ttl: int) {
    s in db.sessions
    && (db.sessions[s].status.Completed? || db.sessions[s].status.Failed? || db.sessions[s].status.Cancelled?
        || db.sessions[s].status.TimedOut? || db.sessions[s].status.Expired? || db.sessions[s].status.Abandoned?
        || db.sessions[s].status.Error?)
    && ttl < clock - db.sessions[s].updated
  }

  /** The session of prompt p is long over. */
  predicate PromptLongOver(db: Db, p: PromptId, clock: Time, ttl: int) {
    p in db.prompts && LongOver(db, db.prompts[p].session, clock, ttl)
  }

  lemma CollectableIsLongOver(db: Db, clock: Time, ttl: int, s: SessionId)
    ensures s in CollectableSessions(db, clock, ttl) <==> LongOver(db, s, clock, ttl)
  {
  }

  lemma CheckpointsPass(db: Db, clock: Time, ttl: int, db1: Db)
    requires db1 == CollectCheckpointsStmt(db, clock, ttl)
    ensures db1 == db.(checkpoints := db1.checkpoints) && db1.checkpoints.Keys == db.checkpoints.Keys
    ensures forall k :: k in db.checkpoints ==>
      db1.checkpoints[k] == db.checkpoints[k].(path := db.checkpoints[k].path && !LongOver(db, db.checkpoints[k].session, clock, ttl))
  {
    forall s ensures s in CollectableSessions(db, clock, ttl) <==> LongOver(db, s, clock, ttl) {
      CollectableIsLongOver(db, clock, ttl, s);
    }
  }

  lemma PromptsPass(db: Db, clock: Time, ttl: int, db1: Db)
    requires db1 == CollectPromptsStmt(db, clock, ttl)
    ensures db1 == db.(prompts := db1.prompts) && db1.prompts.Keys == db.prompts.Keys
    ensures forall p :: p in db.prompts ==>
      db1.prompts[p] == db.prompts[p].(transcript := db.prompts[p].transcript && !PromptLongOver(db, p, clock, ttl))
  {
    forall s ensures s in CollectableSessions(db, clock, ttl) <==> LongOver(db, s, clock, ttl) {
      CollectableIsLongOver(db, clock, ttl, s);
    }
  }

  lemma AttemptsPass(db: Db, clock: Time, ttl: int, db1: Db)
    requires db1 == CollectAttemptsStmt(db, clock, ttl)
    ensures db1 == db.(attempts := db1.attempts) && db1.attempts.Keys == db.attempts.Keys
    ensures forall i :: i in db.attempts ==>
      db1.attempts[i] == db.attempts[i].(transcript := db.attempts[i].transcript && !PromptLongOver(db, db.attempts[i].prompt, clock, ttl))
  {
    forall s ensures s in CollectableSessions(db, clock, ttl) <==> LongOver(db, s, clock, ttl) {
      CollectableIsLongOver(db, clock, ttl, s);
    }
  }

  /** A pass clears exactly the paths and the exports of sessions that are over and
      were last updated more than ttl before the clock; it changes nothing else, and
      in particular nothing of a session updated within the ttl, or open or parked. */
  lemma PassClearsExactly(db: Db, clock: Time, ttl: int)
    ensures var db' := Collected(db, clock, ttl);
      && db' == db.(checkpoints := db'.checkpoints, prompts := db'.prompts, attempts := db'.attempts)
      && db'.checkpoints.Keys == db.checkpoints.Keys && db'.prompts.Keys == db.prompts.Keys && db'.attempts.Keys == db.attempts.Keys
      && (forall k :: k in db.checkpoints ==>
            db'.checkpoints[k] == db.checkpoints[k].(path := db.checkpoints[k].path && !LongOver(db, db.checkpoints[k].session, clock, ttl)))
      && (forall p :: p in db.prompts ==>
            db'.prompts[p] == db.prompts[p].(transcript := db.prompts[p].transcript && !PromptLongOver(db, p, clock, ttl)))
      && (forall i :: i in db.attempts ==>
            db'.attempts[i] == db.attempts[i].(transcript := db.attempts[i].transcript && !PromptLongOver(db, db.attempts[i].prompt, clock, ttl)))
  {
    var db1 := CollectCheckpointsStmt(db, clock, ttl);
    var db2 := CollectPromptsStmt(db1, clock, ttl);
    CheckpointsPass(db, clock, ttl, db1);
    PromptsPass(db1, clock, ttl, db2);
    AttemptsPass(db2, clock, ttl, Collected(db, clock, ttl));
  }

  /** What a pass clears was of no more use: no later run resumes the session. */
  lemma ClearedIsNeverResumed(db: Db, clock: Time, ttl: int, k: CheckpointId, steps: seq<Step>, last: Db,
                              t: TaskId, r: RunnerId, p: PromptId, i: AttemptId, timeout: int, later: Time)
    requires k in db.checkpoints && Collected(db, clock, ttl).checkpoints[k] != db.checkpoints[k]
    requires Run(Collected(db, clock, ttl), steps, last) && clock <= later
    ensures ResumeTx(last, db.checkpoints[k].session, t, r, p, i, timeout, later) == RolledBack
  {
    PassClearsExactly(db, clock, ttl);
    var s := db.checkpoints[k].session;
    CollectableIsLongOver(Collected(db, clock, ttl), clock, ttl, s);
    CollectedIsNeverResumed(Collected(db, clock, ttl), clock, ttl, steps, last, s, t, r, p, i, timeout, later);
  }
}
