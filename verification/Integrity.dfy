/** References between the tables, and what no update changes. */
module Integrity {
  import opened Basics
  import opened Tables
  import opened Transactions

  predicate PromptRefs(db: Db, p: PromptId)
    requires p in db.prompts
  {
    && db.prompts[p].task in db.tasks && db.prompts[p].session in db.sessions
    && db.sessions[db.prompts[p].session].task == db.prompts[p].task
  }

  /** Every attempt has a prompt, every prompt a task and a session of that task. */
  ghost predicate Refs(db: Db) {
    && (forall i :: i in db.attempts ==> db.attempts[i].prompt in db.prompts)
    && (forall p :: p in db.prompts ==> PromptRefs(db, p))
    && (forall s :: s in db.sessions ==> db.sessions[s].task in db.tasks)
  }

  /** The same rows with the same parents. */
  ghost predicate SameChain(db: Db, db': Db) {
    && db'.tasks.Keys == db.tasks.Keys && db'.sessions.Keys == db.sessions.Keys
    && db'.prompts.Keys == db.prompts.Keys && db'.attempts.Keys == db.attempts.Keys
    && (forall i :: i in db.attempts ==> db'.attempts[i].prompt == db.attempts[i].prompt)
    && (forall p :: p in db.prompts ==> db'.prompts[p].task == db.prompts[p].task && db'.prompts[p].session == db.prompts[p].session)
    && (forall s :: s in db.sessions ==> db'.sessions[s].task == db.sessions[s].task)
  }

  lemma SameChainFacts(db: Db, db': Db)
    requires SameChain(db, db')
    ensures Refs(db) ==> Refs(db')
    ensures forall t, i :: Owns(db', t, i) <==> Owns(db, t, i)
  {
  }

  lemma SameChainTransitive(a: Db, b: Db, c: Db)
    requires SameChain(a, b) && SameChain(b, c)
    ensures SameChain(a, c)
  {
  }

  lemma AttemptsKeepChain(db: Db, hits: set<AttemptId>, clause: SetAttempt)
    ensures SameChain(db, UpdateAttempts(db, hits, clause))
  {
  }

  lemma PromptsKeepChain(db: Db, hits: set<PromptId>, clause: SetPrompt)
    ensures SameChain(db, UpdatePrompts(db, hits, clause))
  {
  }

  lemma SessionsKeepChain(db: Db, hits: set<SessionId>, clause: SetSession)
    ensures SameChain(db, UpdateSessions(db, hits, clause))
  {
  }

  lemma TasksKeepChain(db: Db, hits: set<TaskId>, clause: SetTask)
    ensures SameChain(db, UpdateTasks(db, hits, clause))
  {
  }

  lemma AttemptsThenTasks(db: Db, a: set<AttemptId>, sa: SetAttempt, t: set<TaskId>, st: SetTask)
    ensures SameChain(db, UpdateTasks(UpdateAttempts(db, a, sa), t, st))
  {
  }

  /** One new chain under task t, which may itself be new. */
  lemma InsertChainFacts(db: Db, ids: Ids, session: Session, timeout: int, now: Time)
    requires Refs(db) && session.task in db.tasks
    requires InsertChain(db, ids, session, timeout, now).Committed?
    ensures var db' := InsertChain(db, ids, session, timeout, now).db;
      && Refs(db') && db'.tasks == db.tasks
      && db'.attempts == db.attempts[ids.attempt := NewAttempt(ids.prompt, Anyone, timeout, now)]
      && ids.attempt !in db.attempts
      && (forall t, i :: Owns(db', t, i) <==> Owns(db, t, i) || (t == session.task && i == ids.attempt))
  {
  }

  /** One new prompt with its attempt under an existing session. */
  lemma InsertPromptFacts(db: Db, p: PromptId, i: AttemptId, prompt: Prompt, row: Attempt)
    requires Refs(db) && p !in db.prompts && i !in db.attempts && row.prompt == p
    requires prompt.task in db.tasks && prompt.session in db.sessions && db.sessions[prompt.session].task == prompt.task
    ensures var db' := db.(prompts := db.prompts[p := prompt], attempts := db.attempts[i := row]);
      Refs(db') && forall t, k :: Owns(db', t, k) <==> Owns(db, t, k) || (t == prompt.task && k == i)
  {
    var db' := db.(prompts := db.prompts[p := prompt], attempts := db.attempts[i := row]);
    forall q | q in db'.prompts ensures PromptRefs(db', q) {
      assert q != p ==> PromptRefs(db, q);
    }
  }
}
