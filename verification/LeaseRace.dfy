/** What the lease reaper does with each expired attempt, when its pass commits, and
    how it races with a renewal of the same lease. */
module LeaseRace {
  import opened Basics
  import opened Tables
  import opened Transactions
  import opened Integrity
  import opened OneAttempt
  import opened Rollups
  import opened Fencing

  // -------------------------------------------------------- reclaims keep apart

  /** What the reaper reads and writes of task t and its attempts. */
  ghost predicate SameCase(db: Db, db': Db, t: TaskId) {
    && t in db.tasks && t in db'.tasks && db'.tasks[t] == db.tasks[t]
    && (forall k :: Owns(db', t, k) <==> Owns(db, t, k))
    && (forall k :: Owns(db, t, k) ==> db'.attempts[k] == db.attempts[k])
    && db'.runners == db.runners
  }

  lemma SameCaseFacts(db: Db, db': Db, t: TaskId)
    requires SameCase(db, db', t)
    ensures AttemptsOf(db', t) == AttemptsOf(db, t)
    ensures forall i :: Owns(db, t, i) ==> (Spared(db', i) <==> Spared(db, i)) && (Exhausted(db', i) <==> Exhausted(db, i))
    ensures forall now :: TimedOutBefore(db', t, now) <==> TimedOutBefore(db, t, now)
    ensures forall i :: Current(db', t, i) <==> Current(db, t, i)
  {
    assert AttemptsOf(db', t) == AttemptsOf(db, t) by {
      forall k ensures k in AttemptsOf(db', t) <==> k in AttemptsOf(db, t) {
        assert Owns(db', t, k) <==> Owns(db, t, k);
      }
    }
    forall now ensures TimedOutBefore(db', t, now) <==> TimedOutBefore(db, t, now) {
      SameTimeouts(db, db', t, now);
    }
  }

  lemma SameTimeouts(db: Db, db': Db, t: TaskId, now: Time)
    requires SameCase(db, db', t)
    ensures TimedOutBefore(db', t, now) <==> TimedOutBefore(db, t, now)
  {
    if TimedOutBefore(db, t, now) {
      var k :| Owns(db, t, k) && FailedByTimeout(db.attempts[k]) && db.attempts[k].lease.Some? && db.attempts[k].lease.value < now;
      assert Owns(db', t, k);
    }
    if TimedOutBefore(db', t, now) {
      var k :| Owns(db', t, k) && FailedByTimeout(db'.attempts[k]) && db'.attempts[k].lease.Some? && db'.attempts[k].lease.value < now;
      assert Owns(db, t, k);
    }
  }

  /** Reclaiming an attempt of another task leaves the case of task t alone. */
  lemma ReclaimOfAnother(db: Db, t: TaskId, k: AttemptId, ids: Ids, now: Time)
    requires Refs(db) && t in db.tasks && !Owns(db, t, k) && ReclaimOne(db, k, ids, now).Committed?
    ensures SameCase(db, ReclaimOne(db, k, ids, now).db, t) && Refs(ReclaimOne(db, k, ids, now).db)
  {
    if !Spared(db, k) {
      var u, row := db.prompts[db.attempts[k].prompt].task, NewAttempt(ids.prompt, Anyone, db.attempts[k].timeout, now);
      ReclaimRows(db, k, ids, now);
      ReclaimedElsewhere(db, t, u, k, ids.attempt, row, now, ReclaimOne(db, k, ids, now).db);
    }
  }

  lemma ReclaimedElsewhere(db: Db, t: TaskId, u: TaskId, k: AttemptId, n: AttemptId, row: Attempt, now: Time, db': Db)
    requires Reclaimed(db, u, k, n, row, now, db') && t in db.tasks && t != u
    ensures SameCase(db, db', t)
  {
    forall j | Owns(db, t, j) ensures db'.attempts[j] == db.attempts[j] {
      assert j != k && j != n;
    }
  }

  lemma SameCaseTransitive(a: Db, b: Db, c: Db, t: TaskId)
    requires SameCase(a, b, t) && SameCase(b, c, t)
    ensures SameCase(a, c, t)
  {
  }

  /** A list of candidates of other tasks. */
  lemma {:induction false} ReclaimsOfOthers(db: Db, order: seq<AttemptId>, drawn: seq<Ids>, now: Time, t: TaskId)
    requires Refs(db) && t in db.tasks && |order| == |drawn| && ReclaimAll(db, order, drawn, now).Committed?
    requires forall k :: k in order ==> !Owns(db, t, k)
    ensures SameCase(db, ReclaimAll(db, order, drawn, now).db, t) && Refs(ReclaimAll(db, order, drawn, now).db)
    decreases |order|
  {
    if order != [] {
      var db1 := ReclaimOne(db, order[0], drawn[0], now).db;
      ReclaimOfAnother(db, t, order[0], drawn[0], now);
      forall k | k in order[1..] ensures !Owns(db1, t, k) {
        assert k in order;
      }
      ReclaimsOfOthers(db1, order[1..], drawn[1..], now, t);
      SameCaseTransitive(db, db1, ReclaimAll(db, order, drawn, now).db, t);
    }
  }

  // ----------------------------------------------------------- each one's fate

  /** What becomes of an expired attempt. */
  datatype Fate = Retried | FailedForGood | LeftRunning

  function FateOf(db: Db, t: TaskId, i: AttemptId): Fate
    requires t in db.tasks && i in db.attempts
  {
    if |AttemptsOf(db, t)| >= db.tasks[t].maxAttempts then FailedForGood
    else if DeliberatelyDrained(db, db.attempts[i].runner) then LeftRunning
    else Retried
  }

  /** The successor of a lost attempt: new, pending, with the same timeout. */
  ghost predicate Replaced(db: Db, db': Db, t: TaskId, i: AttemptId)
    requires i in db.attempts
  {
    exists n :: n !in db.attempts && Owns(db', t, n) && db'.attempts[n].status.Pending?
      && db'.attempts[n].required.Anyone? && db'.attempts[n].timeout == db.attempts[i].timeout
  }

  /** A drained runner's attempt stays, but its task fails when another of its
      attempts once timed out under a lease. */
  ghost predicate Meets(fate: Fate, db: Db, db': Db, t: TaskId, i: AttemptId, now: Time)
    requires t in db.tasks && i in db.attempts
  {
    && t in db'.tasks && i in db'.attempts
    && match fate
       case Retried => db'.attempts[i].status.Lost? && db'.tasks[t].status.Pending? && Replaced(db, db', t, i)
       case FailedForGood => FailedByTimeout(db'.attempts[i]) && db'.tasks[t].status.Error?
       case LeftRunning =>
         && db'.attempts[i] == db.attempts[i]
         && if TimedOutBefore(db, t, now) then db'.tasks[t].status.Error? else db'.tasks[t] == db.tasks[t]
  }

  /** After the loop a retried attempt is lost, and any other is as it was. */
  ghost predicate LoopLeaves(db: Db, db': Db, t: TaskId, i: AttemptId) {
    t in db.tasks && Owns(db, t, i)
    && if FateOf(db, t, i).Retried?
       then t in db'.tasks && db'.tasks[t].status.Pending? && Owns(db', t, i) && db'.attempts[i].status.Lost? && Replaced(db, db', t, i)
       else SameCase(db, db', t)
  }

  lemma SparedIffNotRetried(db: Db, t: TaskId, i: AttemptId)
    requires Owns(db, t, i) && t in db.tasks
    ensures Spared(db, i) <==> !FateOf(db, t, i).Retried?
  {
  }

  lemma ReclaimOfThis(db: Db, t: TaskId, i: AttemptId, ids: Ids, now: Time)
    requires Refs(db) && Owns(db, t, i) && t in db.tasks && ReclaimOne(db, i, ids, now).Committed?
    ensures var db' := ReclaimOne(db, i, ids, now).db;
      Refs(db') && LoopLeaves(db, db', t, i) && forall k :: k in db.attempts && Owns(db', t, k) ==> Owns(db, t, k)
  {
    SparedIffNotRetried(db, t, i);
    if !Spared(db, i) {
      ReclaimRows(db, i, ids, now);
      ReclaimedHere(db, t, i, ids.attempt, NewAttempt(ids.prompt, Anyone, db.attempts[i].timeout, now), now, ReclaimOne(db, i, ids, now).db);
    }
  }

  lemma ReclaimedHere(db: Db, t: TaskId, i: AttemptId, n: AttemptId, row: Attempt, now: Time, db': Db)
    requires Reclaimed(db, t, i, n, row, now, db') && FateOf(db, t, i).Retried?
    requires row.required.Anyone? && row.timeout == db.attempts[i].timeout
    ensures LoopLeaves(db, db', t, i) && forall k :: k in db.attempts && Owns(db', t, k) ==> Owns(db, t, k)
  {
    assert Owns(db', t, i) && Owns(db', t, n) && i != n;
  }

  lemma LeavesThenSame(a: Db, b: Db, c: Db, t: TaskId, i: AttemptId)
    requires LoopLeaves(a, b, t, i) && SameCase(b, c, t)
    ensures LoopLeaves(a, c, t, i)
  {
    if FateOf(a, t, i).Retried? {
      var n :| n !in a.attempts && Owns(b, t, n) && b.attempts[n].status.Pending?
            && b.attempts[n].required.Anyone? && b.attempts[n].timeout == a.attempts[i].timeout;
      assert Owns(c, t, n) && Owns(c, t, i);
    }
  }

  lemma SameThenLeaves(a: Db, b: Db, c: Db, t: TaskId, i: AttemptId)
    requires SameCase(a, b, t) && LoopLeaves(b, c, t, i) && a.attempts.Keys <= b.attempts.Keys
    ensures LoopLeaves(a, c, t, i)
  {
    SameCaseFacts(a, b, t);
    if FateOf(a, t, i).Retried? {
      var n :| n !in b.attempts && Owns(c, t, n) && c.attempts[n].status.Pending?
            && c.attempts[n].required.Anyone? && c.attempts[n].timeout == b.attempts[i].timeout;
      assert n !in a.attempts;
    }
  }

  /** Distinct candidates, of which i is task t's. */
  ghost predicate OneCandidate(db: Db, order: seq<AttemptId>, t: TaskId, i: AttemptId) {
    && (forall k, l :: 0 <= k < l < |order| ==> order[k] != order[l])
    && (forall k :: k in order ==> k in db.attempts && (Owns(db, t, k) ==> k == i))
  }

  lemma {:induction false} LoopSettles(db: Db, order: seq<AttemptId>, drawn: seq<Ids>, now: Time, t: TaskId, i: AttemptId)
    requires Refs(db) && Owns(db, t, i) && t in db.tasks
    requires |order| == |drawn| && ReclaimAll(db, order, drawn, now).Committed?
    requires OneCandidate(db, order, t, i) && i in order
    ensures LoopLeaves(db, ReclaimAll(db, order, drawn, now).db, t, i) && Refs(ReclaimAll(db, order, drawn, now).db)
    decreases |order|
  {
    var db1 := ReclaimOne(db, order[0], drawn[0], now).db;
    if order[0] == i {
      ReclaimOfThis(db, t, i, drawn[0], now);
      RestIsOthers(db, db1, order, t, i);
      ReclaimsOfOthers(db1, order[1..], drawn[1..], now, t);
      LeavesThenSame(db, db1, ReclaimAll(db, order, drawn, now).db, t, i);
    } else {
      ReclaimOfAnother(db, t, order[0], drawn[0], now);
      ReclaimEvolves(db, order[0], drawn[0], now);
      RestHasIt(db, db1, order, t, i);
      LoopSettles(db1, order[1..], drawn[1..], now, t, i);
      SameThenLeaves(db, db1, ReclaimAll(db, order, drawn, now).db, t, i);
    }
  }

  lemma RestIsOthers(db: Db, db1: Db, order: seq<AttemptId>, t: TaskId, i: AttemptId)
    requires OneCandidate(db, order, t, i) && order != [] && order[0] == i
    requires forall k :: k in db.attempts && Owns(db1, t, k) ==> Owns(db, t, k)
    ensures forall k :: k in order[1..] ==> !Owns(db1, t, k)
  {
    forall k | k in order[1..] ensures !Owns(db1, t, k) {
      OtherInRest(order, i, k);
    }
  }

  lemma RestHasIt(db: Db, db1: Db, order: seq<AttemptId>, t: TaskId, i: AttemptId)
    requires OneCandidate(db, order, t, i) && i in order && order[0] != i && SameCase(db, db1, t)
    requires AllEvolve(db.attempts, db1.attempts)
    ensures OneCandidate(db1, order[1..], t, i) && i in order[1..]
  {
    forall k | k in order[1..] ensures k in db1.attempts && (Owns(db1, t, k) ==> k == i) {
      assert k in order;
    }
  }

  lemma OtherInRest(order: seq<AttemptId>, i: AttemptId, k: AttemptId)
    requires order != [] && order[0] == i && k in order[1..]
    requires forall l, m :: 0 <= l < m < |order| ==> order[l] != order[m]
    ensures k in order && k != i
  {
  }

  /** The statements after the loop fail an exhausted attempt with its task. */
  lemma ExhaustedFails(db: Db, t: TaskId, i: AttemptId, now: Time)
    requires Owns(db, t, i) && t in db.tasks && db.tasks[t].status.Running?
    requires LeaseExpired(db.attempts[i], now) && Exhausted(db, i)
    ensures Meets(FailedForGood, db, FailExpired(db, true, now), t, i, now)
  {
    ExpiredIsRolledUp(db, ExhaustedAttempts(db, now), now, t, i);
  }

  /** They leave an attempt that is not exhausted as it was. */
  lemma NotExhaustedStays(db: Db, t: TaskId, i: AttemptId, now: Time)
    requires SoleActive(db, t, i) && db.attempts[i].status.Running? && !Exhausted(db, i)
    ensures Meets(LeftRunning, db, FailExpired(db, true, now), t, i, now)
  {
    var hits := LeaseHits(db, true, now);
    LeaseRollupIff(db, hits, now, t, i, UpdateAttempts(db, hits, FailAttempt(Timeout, now)));
  }

  lemma FailExpiredPassesLost(db: Db, t: TaskId, i: AttemptId, n: AttemptId, now: Time)
    requires t in db.tasks && db.tasks[t].status.Pending? && i in db.attempts && db.attempts[i].status.Lost?
    requires Owns(db, t, n) && db.attempts[n].status.Pending?
    ensures var db' := FailExpired(db, true, now);
      && t in db'.tasks && db'.tasks[t] == db.tasks[t] && i in db'.attempts && db'.attempts[i] == db.attempts[i]
      && Owns(db', t, n) && db'.attempts[n] == db.attempts[n]
  {
  }

  lemma CandidatesAreCurrent(db: Db, order: seq<AttemptId>, now: Time, t: TaskId, i: AttemptId)
    requires Refs(db) && IsListing(db, now, order) && Owns(db, t, i) && LeaseExpired(db.attempts[i], now)
    requires t in db.tasks && TaskOk(db, t)
    ensures OneCandidate(db, order, t, i) && i in order && SoleActive(db, t, i) && db.tasks[t].status.Running?
  {
    assert Current(db, t, i) && i in Candidates(db, now);
    forall k | k in order ensures k in db.attempts && (Owns(db, t, k) ==> k == i) {
      assert k in Candidates(db, now);
      assert Owns(db, t, k) ==> Current(db, t, k);
    }
  }

  lemma FateAfterLoop(db: Db, db1: Db, t: TaskId, i: AttemptId, now: Time)
    requires LoopLeaves(db, db1, t, i) && SoleActive(db, t, i) && LeaseExpired(db.attempts[i], now)
    ensures Meets(FateOf(db, t, i), db, FailExpired(db1, true, now), t, i, now)
  {
    if FateOf(db, t, i).Retried? {
      var n :| n !in db.attempts && Owns(db1, t, n) && db1.attempts[n].status.Pending?
            && db1.attempts[n].required.Anyone? && db1.attempts[n].timeout == db.attempts[i].timeout;
      FailExpiredPassesLost(db1, t, i, n, now);
    } else {
      SameCaseFacts(db, db1, t);
      assert SoleActive(db1, t, i);
      if FateOf(db, t, i).FailedForGood? {
        ExhaustedFails(db1, t, i, now);
      } else {
        NotExhaustedStays(db1, t, i, now);
      }
    }
  }

  /** One committed pass of the lease reaper decides every expired attempt of a task
      in order, whatever the other tasks look like: it fails for good when the task
      has used all its attempts; otherwise it stays running when its runner was
      drained on purpose; otherwise it is lost and a successor queued. */
  lemma EveryExpiredAttemptMeetsItsFate(db: Db, order: seq<AttemptId>, drawn: seq<Ids>, now: Time, t: TaskId, i: AttemptId)
    requires Refs(db) && t in db.tasks && TaskOk(db, t)
    requires IsListing(db, now, order) && |order| == |drawn| && ReapLeasesTx(db, true, order, drawn, now).Committed?
    requires Owns(db, t, i) && LeaseExpired(db.attempts[i], now)
    ensures Meets(FateOf(db, t, i), db, ReapLeasesTx(db, true, order, drawn, now).db, t, i, now)
  {
    CandidatesAreCurrent(db, order, now, t, i);
    LoopSettles(db, order, drawn, now, t, i);
    FateAfterLoop(db, ReclaimAll(db, order, drawn, now).db, t, i, now);
  }

  /** The same in the words of the tables: an expired attempt is lost, and so retried,
      exactly when its task may have another one and its runner was not drained on
      purpose; it fails exactly when its task may have no more. */
  lemma ExpiredAttemptIsLostIff(db: Db, order: seq<AttemptId>, drawn: seq<Ids>, now: Time, t: TaskId, i: AttemptId)
    requires Refs(db) && t in db.tasks && TaskOk(db, t)
    requires IsListing(db, now, order) && |order| == |drawn| && ReapLeasesTx(db, true, order, drawn, now).Committed?
    requires Owns(db, t, i) && LeaseExpired(db.attempts[i], now)
    ensures var db' := ReapLeasesTx(db, true, order, drawn, now).db;
      var more := |set k | k in db.attempts && Owns(db, t, k)| < db.tasks[t].maxAttempts;
      var drained := exists r :: db.attempts[i].runner == Some(r) && r in db.runners
                                 && db.runners[r].status in {RunnerStatus.Draining, RunnerStatus.Stopping};
      && i in db'.attempts
      && (db'.attempts[i].status.Lost? <==> more && !drained)
      && (db'.attempts[i].status.Error? && db'.attempts[i].category == Some(Timeout) <==> !more)
      && (db'.attempts[i].status.Running? <==> more && drained)
  {
    EveryExpiredAttemptMeetsItsFate(db, order, drawn, now, t, i);
    assert AttemptsOf(db, t) == set k | k in db.attempts && Owns(db, t, k);
  }

  // -------------------------------------------------------- when a pass commits

  /** Ids that no row has, each drawn once. */
  predicate Unused(db: Db, drawn: seq<Ids>) {
    && (forall k :: 0 <= k < |drawn| ==>
          drawn[k].session !in db.sessions && drawn[k].prompt !in db.prompts && drawn[k].attempt !in db.attempts)
    && (forall k, l :: 0 <= k < l < |drawn| ==>
          drawn[k].session != drawn[l].session && drawn[k].prompt != drawn[l].prompt && drawn[k].attempt != drawn[l].attempt)
  }

  /** Task t is running, and i is its only candidate to be reclaimed, unless losing
      i uses up its attempts. */
  predicate MayBeLost(db: Db, order: seq<AttemptId>, t: TaskId, i: AttemptId) {
    && t in db.tasks && db.tasks[t].status.Running?
    && (|AttemptsOf(db, t)| + 1 >= db.tasks[t].maxAttempts
        || forall k :: k in order && Owns(db, t, k) && !Spared(db, k) ==> k == i)
  }

  ghost predicate AllMayBeLost(db: Db, order: seq<AttemptId>) {
    forall t, i :: i in order && Owns(db, t, i) && !Spared(db, i) ==> MayBeLost(db, order, t, i)
  }

  /** An attempt that refers to rows has a latest session and prompt to give up. */
  lemma ReclaimCommitsIff(db: Db, i: AttemptId, ids: Ids, now: Time)
    requires Refs(db) && i in db.attempts && db.attempts[i].status.Running? && !Spared(db, i)
    requires ids.session !in db.sessions && ids.prompt !in db.prompts && ids.attempt !in db.attempts
    ensures ReclaimOne(db, i, ids, now).Committed? <==>
            db.tasks[db.prompts[db.attempts[i].prompt].task].status.Running?
  {
    var p := db.attempts[i].prompt;
    var t := db.prompts[p].task;
    assert PromptRefs(db, p);
    assert db.prompts[p].session in SessionRanks(db, t) && p in PromptRanks(db, t);
    assert i in RunningAttempt(db, i);
    assert t in RunningTaskRow(db, t) <==> db.tasks[t].status.Running?;
  }

  /** A spared candidate takes no part. */
  lemma SparedFirst(db: Db, order: seq<AttemptId>)
    requires order != [] && (forall k :: k in order ==> k in db.attempts) && Spared(db, order[0])
    ensures AllMayBeLost(db, order) <==> AllMayBeLost(db, order[1..])
  {
    var rest := order[1..];
    assert forall k :: k in order <==> k == order[0] || k in rest;
    forall t, i | i in rest && Owns(db, t, i) && !Spared(db, i) ensures MayBeLost(db, order, t, i) <==> MayBeLost(db, rest, t, i) {
      assert i in order;
    }
  }

  /** A reclaim of t's attempt i as the rest of the list sees it. */
  lemma RestAfterReclaim(db: Db, t: TaskId, i: AttemptId, n: AttemptId, row: Attempt, now: Time, db': Db, u: TaskId, k: AttemptId)
    requires Reclaimed(db, t, i, n, row, now, db') && Owns(db, u, k) && u in db.tasks && k != i
    ensures Owns(db', u, k) && db'.attempts[k] == db.attempts[k]
    ensures u != t ==> (Spared(db', k) <==> Spared(db, k)) && |AttemptsOf(db', u)| == |AttemptsOf(db, u)| && db'.tasks[u] == db.tasks[u]
    ensures u == t ==> (Spared(db', k) <==>
                        |AttemptsOf(db, t)| + 1 >= db.tasks[t].maxAttempts || DeliberatelyDrained(db, db.attempts[k].runner))
  {
    if u != t {
      ReclaimedElsewhere(db, u, t, i, n, row, now, db');
      SameCaseFacts(db, db', u);
    } else {
      assert AttemptsOf(db', t) == AttemptsOf(db, t) + {n} by {
        forall j ensures j in AttemptsOf(db', t) <==> j in AttemptsOf(db, t) + {n} {
          assert Owns(db', t, j) <==> Owns(db, t, j) || j == n;
        }
      }
    }
  }

  /** Candidates of other tasks: nothing changes for them. */
  lemma OtherTurns(db: Db, order: seq<AttemptId>, t: TaskId, n: AttemptId, row: Attempt, now: Time, db': Db, u: TaskId, k: AttemptId)
    requires Refs(db) && order != [] && (forall j :: j in order ==> j in db.attempts)
    requires Reclaimed(db, t, order[0], n, row, now, db') && order[0] !in order[1..]
    requires k in order[1..] && Owns(db, u, k) && u != t
    ensures u in db.tasks && (MayBeLost(db', order[1..], u, k) <==> MayBeLost(db, order, u, k))
  {
    assert PromptRefs(db, db.attempts[k].prompt) && k in order;
    RestAfterReclaim(db, t, order[0], n, row, now, db', u, k);
    forall j | Owns(db, u, j) ensures (j in order <==> j in order[1..]) && (Spared(db', j) <==> Spared(db, j)) && Owns(db', u, j) {
      assert j != order[0];
      RestAfterReclaim(db, t, order[0], n, row, now, db', u, j);
    }
  }

  /** Candidates of the same task: its first one leaves it pending. */
  lemma SameTurns(db: Db, order: seq<AttemptId>, t: TaskId, n: AttemptId, row: Attempt, now: Time, db': Db)
    requires Refs(db) && order != [] && (forall j :: j in order ==> j in db.attempts)
    requires Reclaimed(db, t, order[0], n, row, now, db') && order[0] !in order[1..] && !Spared(db, order[0])
    ensures MayBeLost(db, order, t, order[0]) <==> forall k :: k in order[1..] && Owns(db', t, k) ==> Spared(db', k)
  {
    forall k | k in order[1..] && Owns(db', t, k)
      ensures k in order && k != order[0] && Owns(db, t, k)
      ensures Spared(db', k) <==> |AttemptsOf(db, t)| + 1 >= db.tasks[t].maxAttempts || Spared(db, k)
    {
      assert k in order && k in db.attempts && k != n;
      RestAfterReclaim(db, t, order[0], n, row, now, db', t, k);
      assert !Exhausted(db, order[0]) && (Exhausted(db, k) <==> Exhausted(db, order[0]));
    }
    forall k | k in order && Owns(db, t, k) ensures k == order[0] || (k in order[1..] && Owns(db', t, k)) {
      assert k != order[0] ==> k in order[1..];
    }
  }

  lemma ReclaimedFirst(db: Db, order: seq<AttemptId>, t: TaskId, n: AttemptId, row: Attempt, now: Time, db': Db)
    requires Refs(db) && order != [] && (forall j :: j in order ==> j in db.attempts)
    requires Reclaimed(db, t, order[0], n, row, now, db') && order[0] !in order[1..] && !Spared(db, order[0])
    ensures AllMayBeLost(db, order) <==> AllMayBeLost(db', order[1..])
  {
    var rest := order[1..];
    SameTurns(db, order, t, n, row, now, db');
    forall u, k | k in rest && Owns(db', u, k) && u != t
      ensures Owns(db, u, k) && (Spared(db', k) <==> Spared(db, k)) && (MayBeLost(db', rest, u, k) <==> MayBeLost(db, order, u, k))
    {
      OtherTurns(db, order, t, n, row, now, db', u, k);
      RestAfterReclaim(db, t, order[0], n, row, now, db', u, k);
    }
    if AllMayBeLost(db, order) {
      assert MayBeLost(db, order, t, order[0]);
      forall u, k | k in rest && Owns(db', u, k) && !Spared(db', k) ensures MayBeLost(db', rest, u, k) {
        assert u != t && k in order;
      }
    }
    if AllMayBeLost(db', rest) {
      forall k | k in rest && Owns(db', t, k) ensures Spared(db', k) {
        assert !MayBeLost(db', rest, t, k);
      }
      forall u, k | k in order && Owns(db, u, k) && !Spared(db, k) ensures MayBeLost(db, order, u, k) {
        if u == t {
          FirstSpeaksForTheTask(db, order, t, k);
        } else {
          assert k in rest && Owns(db', u, k);
        }
      }
    }
  }

  lemma FirstSpeaksForTheTask(db: Db, order: seq<AttemptId>, t: TaskId, k: AttemptId)
    requires order != [] && (forall j :: j in order ==> j in db.attempts) && MayBeLost(db, order, t, order[0])
    requires k in order && Owns(db, t, k) && !Spared(db, k)
    ensures MayBeLost(db, order, t, k)
  {
  }

  ghost predicate Listed(db: Db, order: seq<AttemptId>) {
    && (forall k, l :: 0 <= k < l < |order| ==> order[k] != order[l])
    && (forall k :: k in order ==> k in db.attempts && db.attempts[k].status.Running?)
  }

  /** The first candidate, when it is not spared. */
  lemma FirstTurn(db: Db, order: seq<AttemptId>, ids: Ids, now: Time, db1: Db)
    requires Refs(db) && order != [] && Listed(db, order) && !Spared(db, order[0])
    requires ReclaimOne(db, order[0], ids, now) == Committed(db1)
    ensures Refs(db1) && Listed(db1, order[1..])
    ensures AllMayBeLost(db, order) <==> AllMayBeLost(db1, order[1..])
  {
    var i := order[0];
    var t, row := db.prompts[db.attempts[i].prompt].task, NewAttempt(ids.prompt, Anyone, db.attempts[i].timeout, now);
    ReclaimRows(db, i, ids, now);
    RestIsListed(db, order, t, ids.attempt, row, now, db1);
    ReclaimedFirst(db, order, t, ids.attempt, row, now, db1);
  }

  lemma RestIsListed(db: Db, order: seq<AttemptId>, t: TaskId, n: AttemptId, row: Attempt, now: Time, db1: Db)
    requires order != [] && Listed(db, order) && Reclaimed(db, t, order[0], n, row, now, db1)
    ensures Listed(db1, order[1..]) && order[0] !in order[1..]
  {
    forall k | k in order[1..] ensures k in db1.attempts && db1.attempts[k].status.Running? && k != order[0] {
      OtherInRest(order, order[0], k);
    }
  }

  lemma FirstTurnFails(db: Db, order: seq<AttemptId>, ids: Ids, now: Time)
    requires Refs(db) && order != [] && Listed(db, order) && !Spared(db, order[0])
    requires ids.session !in db.sessions && ids.prompt !in db.prompts && ids.attempt !in db.attempts
    requires ReclaimOne(db, order[0], ids, now).RolledBack?
    ensures !AllMayBeLost(db, order)
  {
    ReclaimCommitsIff(db, order[0], ids, now);
    var t := db.prompts[db.attempts[order[0]].prompt].task;
    assert order[0] in order && Owns(db, t, order[0]) && !MayBeLost(db, order, t, order[0]);
  }

  lemma {:induction false} LoopCommitsIff(db: Db, order: seq<AttemptId>, drawn: seq<Ids>, now: Time)
    requires Refs(db) && |order| == |drawn| && Unused(db, drawn) && Listed(db, order)
    ensures ReclaimAll(db, order, drawn, now).Committed? <==> AllMayBeLost(db, order)
    decreases |order|
  {
    if order != [] {
      if Spared(db, order[0]) {
        SparedFirst(db, order);
        LoopCommitsIff(db, order[1..], drawn[1..], now);
      } else {
        match ReclaimOne(db, order[0], drawn[0], now)
        case RolledBack => FirstTurnFails(db, order, drawn[0], now);
        case Committed(db1) =>
          FirstTurn(db, order, drawn[0], now, db1);
          ReclaimDraws(db, order[0], drawn[0], now, db1);
          UnusedRest(db, drawn, db1);
          LoopCommitsIff(db1, order[1..], drawn[1..], now);
      }
    }
  }

  ghost predicate Draws(db: Db, ids: Ids, db1: Db) {
    && db1.sessions.Keys == db.sessions.Keys + {ids.session}
    && db1.prompts.Keys == db.prompts.Keys + {ids.prompt}
    && db1.attempts.Keys == db.attempts.Keys + {ids.attempt}
  }

  lemma ReclaimDraws(db: Db, i: AttemptId, ids: Ids, now: Time, db1: Db)
    requires Refs(db) && i in db.attempts && !Spared(db, i) && ReclaimOne(db, i, ids, now) == Committed(db1)
    ensures Draws(db, ids, db1)
  {
    var t := db.prompts[db.attempts[i].prompt].task;
    var s, p := LatestSession(db, t).value, LatestPrompt(db, t).value;
    var before, db4 := db.sessions[s], GiveUp(db, i, t, p, s, now);
    assert RunningAttempt(db, i) != {} && RunningTaskRow(db, t) != {};
    AbandonedFacts(db, i, t, p, s, now);
    var session := NewSession(t, NextSessionNumber(db, t), before.mode, before.isolated, before.expires, now);
    InsertDraws(db, db4, ids, session, db.attempts[i].timeout, now);
  }

  lemma InsertDraws(db: Db, db4: Db, ids: Ids, session: Session, timeout: int, now: Time)
    requires SameChain(db, db4) && InsertChain(db4, ids, session, timeout, now).Committed?
    ensures Draws(db, ids, InsertChain(db4, ids, session, timeout, now).db)
  {
  }

  lemma UnusedRest(db: Db, drawn: seq<Ids>, db1: Db)
    requires drawn != [] && Unused(db, drawn) && Draws(db, drawn[0], db1)
    ensures Unused(db1, drawn[1..])
  {
  }

  /** A pass of the lease reaper with unused ids commits exactly when the task of
      every candidate it would reclaim is running and has no other such candidate,
      unless the first one lost uses up its attempts. */
  lemma ReapLeasesCommitsIff(db: Db, order: seq<AttemptId>, drawn: seq<Ids>, now: Time)
    requires Refs(db) && IsListing(db, now, order) && |order| == |drawn| && Unused(db, drawn)
    ensures ReapLeasesTx(db, true, order, drawn, now).Committed? <==> AllMayBeLost(db, order)
  {
    forall k | k in order ensures k in db.attempts && db.attempts[k].status.Running? {
      assert k in Candidates(db, now);
    }
    LoopCommitsIff(db, order, drawn, now);
  }

  /** One expired attempt that runs on under a task that does not, and is not spared,
      rolls the pass back for every task. */
  lemma StrayStopsThePass(db: Db, order: seq<AttemptId>, drawn: seq<Ids>, now: Time, t: TaskId, i: AttemptId)
    requires Refs(db) && IsListing(db, now, order) && |order| == |drawn| && Unused(db, drawn)
    requires Owns(db, t, i) && LeaseExpired(db.attempts[i], now) && !Spared(db, i)
    requires t in db.tasks && !db.tasks[t].status.Running?
    ensures ReapLeasesTx(db, true, order, drawn, now) == RolledBack
  {
    ReapLeasesCommitsIff(db, order, drawn, now);
    assert i in Candidates(db, now) && !MayBeLost(db, order, t, i);
  }

  /** On mirrored tables every pass commits and decides every expired attempt. */
  lemma MirroredPassDecidesAll(db: Db, order: seq<AttemptId>, drawn: seq<Ids>, now: Time)
    requires Mirrored(db) && IsListing(db, now, order) && |order| == |drawn| && Unused(db, drawn)
    ensures ReapLeasesTx(db, true, order, drawn, now).Committed?
    ensures forall t, i :: Owns(db, t, i) && LeaseExpired(db.attempts[i], now) ==>
              t in db.tasks && Meets(FateOf(db, t, i), db, ReapLeasesTx(db, true, order, drawn, now).db, t, i, now)
  {
    forall t, i | i in order && Owns(db, t, i) && !Spared(db, i) ensures MayBeLost(db, order, t, i) {
      assert i in Candidates(db, now);
      OwnerMirrors(db, t, i);
      CandidatesAreCurrent(db, order, now, t, i);
    }
    ReapLeasesCommitsIff(db, order, drawn, now);
    forall t, i | Owns(db, t, i) && LeaseExpired(db.attempts[i], now)
      ensures t in db.tasks && Meets(FateOf(db, t, i), db, ReapLeasesTx(db, true, order, drawn, now).db, t, i, now)
    {
      OwnerMirrors(db, t, i);
      EveryExpiredAttemptMeetsItsFate(db, order, drawn, now, t, i);
    }
  }

  // ------------------------------------------------------ a pass and the invariant

  /** The pass leaves attempt n running: its lease is live, or its runner was drained
      on purpose while its task has attempts left. */
  predicate LeftByPass(db: Db, n: AttemptId, now: Time) {
    n in db.attempts && db.attempts[n].status.Running?
    && (LeaseExpired(db.attempts[n], now) ==> !Exhausted(db, n) && DeliberatelyDrained(db, db.attempts[n].runner))
  }

  /** No task that once timed out under a lease owns an attempt the pass leaves. */
  ghost predicate PassCovered(db: Db, now: Time) {
    forall t, n :: Current(db, t, n) && LeftByPass(db, n, now) ==> !TimedOutBefore(db, t, now)
  }

  /** The loop either queues task t again or does not touch it. */
  lemma TaskAfterLoop(db: Db, order: seq<AttemptId>, drawn: seq<Ids>, now: Time, t: TaskId)
    requires Mirrored(db) && t in db.tasks && IsListing(db, now, order)
    requires |order| == |drawn| && ReclaimAll(db, order, drawn, now).Committed?
    ensures var db1 := ReclaimAll(db, order, drawn, now).db;
      if exists n :: Current(db, t, n) && LeaseExpired(db.attempts[n], now) && !Spared(db, n)
      then t in db1.tasks && db1.tasks[t].status.Pending?
      else SameCase(db, db1, t)
  {
    if n :| Current(db, t, n) && LeaseExpired(db.attempts[n], now) {
      CandidatesAreCurrent(db, order, now, t, n);
      LoopSettles(db, order, drawn, now, t, n);
      SparedIffNotRetried(db, t, n);
    } else {
      forall k | k in order ensures !Owns(db, t, k) {
        assert k in Candidates(db, now);
        assert Owns(db, t, k) ==> Current(db, t, k);
      }
      ReclaimsOfOthers(db, order, drawn, now, t);
    }
  }

  lemma {:induction false} LoopKeepsTasks(db: Db, order: seq<AttemptId>, drawn: seq<Ids>, now: Time)
    requires Refs(db) && |order| == |drawn| && ReclaimAll(db, order, drawn, now).Committed?
    ensures ReclaimAll(db, order, drawn, now).db.tasks.Keys == db.tasks.Keys
    decreases |order|
  {
    if order != [] {
      if !Spared(db, order[0]) {
        ReclaimRows(db, order[0], drawn[0], now);
      }
      LoopKeepsTasks(ReclaimOne(db, order[0], drawn[0], now).db, order[1..], drawn[1..], now);
    }
  }

  /** What is left after the loop for the failing statements to cover. */
  lemma CoveredAfterLoop(db: Db, order: seq<AttemptId>, drawn: seq<Ids>, now: Time, db1: Db)
    requires Mirrored(db) && IsListing(db, now, order) && |order| == |drawn|
    requires ReclaimAll(db, order, drawn, now) == Committed(db1) && Mirrored(db1)
    ensures LeasesCovered(db1, true, now) <==> PassCovered(db, now)
  {
    LoopKeepsTasks(db, order, drawn, now);
    if PassCovered(db, now) {
      forall t, n | Current(db1, t, n) && db1.attempts[n].status.Running? && n !in LeaseHits(db1, true, now)
        ensures !TimedOutBefore(db1, t, now)
      {
        OwnerMirrors(db1, t, n);
        TaskAfterLoop(db, order, drawn, now, t);
        assert SameCase(db, db1, t);
        SameCaseFacts(db, db1, t);
        assert Current(db, t, n) && LeftByPass(db, n, now);
      }
    }
    if LeasesCovered(db1, true, now) {
      forall t, n | Current(db, t, n) && LeftByPass(db, n, now) ensures !TimedOutBefore(db, t, now) {
        LeftAfterLoop(db, order, drawn, now, db1, t, n);
        assert Current(db1, t, n);
      }
    }
  }

  lemma LeftAfterLoop(db: Db, order: seq<AttemptId>, drawn: seq<Ids>, now: Time, db1: Db, t: TaskId, n: AttemptId)
    requires Mirrored(db) && IsListing(db, now, order) && |order| == |drawn|
    requires ReclaimAll(db, order, drawn, now) == Committed(db1)
    requires Current(db, t, n) && LeftByPass(db, n, now)
    ensures Current(db1, t, n) && db1.attempts[n].status.Running? && n !in LeaseHits(db1, true, now)
    ensures TimedOutBefore(db1, t, now) <==> TimedOutBefore(db, t, now)
  {
    CurrentIsSole(db, t, n);
    TaskAfterLoop(db, order, drawn, now, t);
    assert SameCase(db, db1, t);
    SameCaseFacts(db, db1, t);
  }

  /** A committed pass keeps the tables mirrored exactly when no task that once
      timed out owns an attempt the pass leaves running. */
  lemma PassKeepsMirroredIff(db: Db, order: seq<AttemptId>, drawn: seq<Ids>, now: Time)
    requires Mirrored(db) && IsListing(db, now, order) && |order| == |drawn| && ReapLeasesTx(db, true, order, drawn, now).Committed?
    ensures var db' := ReapLeasesTx(db, true, order, drawn, now).db;
      && (Mirrored(db') <==> PassCovered(db, now))
      && (Mirrored(db') && Unscarred(db) ==> Unscarred(db'))
  {
    var db1 := ReclaimAll(db, order, drawn, now).db;
    ReclaimAllKeeps(db, order, drawn, now);
    CoveredAfterLoop(db, order, drawn, now, db1);
    FailExpiredKeepsMirroredIff(db1, true, now);
  }

  // --------------------------------------------------------- renewals and reaps

  /** A renewal that comes first keeps the attempt: until the renewed lease runs
      out, no pass of the reaper touches it. */
  lemma RenewalFirst(db: Db, i: AttemptId, r: RunnerId, c: ClaimId, renewed: Time,
                     auto: bool, order: seq<AttemptId>, drawn: seq<Ids>, now: Time)
    requires HeldBy(db, i, r, c) && now <= renewed + TASK_LEASE
    requires var db1 := RenewStmt(db, i, r, c, renewed);
      IsListing(db1, now, order) && |order| == |drawn| && ReapLeasesTx(db1, auto, order, drawn, now).Committed?
    ensures var db1 := RenewStmt(db, i, r, c, renewed);
      i in db1.attempts && db1.attempts[i] == db.attempts[i].(lease := Some(renewed + TASK_LEASE))
      && i in ReapLeasesTx(db1, auto, order, drawn, now).db.attempts
      && ReapLeasesTx(db1, auto, order, drawn, now).db.attempts[i] == db1.attempts[i]
  {
    var db1 := RenewStmt(db, i, r, c, renewed);
    assert i in RenewableAttempt(db, i, r, c) && !LeaseExpired(db1.attempts[i], now);
    if auto {
      UnlistedIsKept(db1, order, drawn, now, i);
    }
  }

  lemma {:induction false} UnlistedIsKept(db: Db, order: seq<AttemptId>, drawn: seq<Ids>, now: Time, i: AttemptId)
    requires |order| == |drawn| && ReclaimAll(db, order, drawn, now).Committed? && i in db.attempts && i !in order
    ensures i in ReclaimAll(db, order, drawn, now).db.attempts && ReclaimAll(db, order, drawn, now).db.attempts[i] == db.attempts[i]
    decreases |order|
  {
    if order != [] {
      if !Spared(db, order[0]) {
        ReclaimedRows(db, order[0], drawn[0], now);
      }
      UnlistedIsKept(ReclaimOne(db, order[0], drawn[0], now).db, order[1..], drawn[1..], now, i);
    }
  }

  /** A reap that comes first and takes the attempt defeats every later renewal of
      the old claim: exactly one of the two wins. */
  lemma ReapFirst(db: Db, t: TaskId, i: AttemptId, r: RunnerId, c: ClaimId, order: seq<AttemptId>, drawn: seq<Ids>, now: Time, renewed: Time)
    requires Refs(db) && t in db.tasks && TaskOk(db, t)
    requires IsListing(db, now, order) && |order| == |drawn| && ReapLeasesTx(db, true, order, drawn, now).Committed?
    requires Owns(db, t, i) && LeaseExpired(db.attempts[i], now) && HeldBy(db, i, r, c)
    ensures RenewableAttempt(ReapLeasesTx(db, true, order, drawn, now).db, i, r, c) ==
            if FateOf(db, t, i).LeftRunning? then {i} else {}
  {
    EveryExpiredAttemptMeetsItsFate(db, order, drawn, now, t, i);
  }
}
