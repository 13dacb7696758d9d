/** A run from empty tables after which a task over its limit blocks the queue. */
module BlockedRun {
  import opened Basics
  import opened Tables
  import opened Transactions
  import opened Integrity
  import opened SmallTables
  import opened DoubleRun
  import Accounting
  import Relapse

  /** One recovery more than the limit allows. */
  lemma OverLimitStage() returns (moves: seq<Move>, o: Small)
    ensures Played(First, moves, o) && NextRound(o, LIMIT + 1)
  {
    var spent: Small;
    moves, spent := RoundStage(LIMIT);
    var recover := RecoverMove(LIMIT - 1, 2 * LIMIT);
    RecoverStartsRound(spent, LIMIT, 2 * LIMIT);
    PlayThen(First, moves, spent, recover);
    moves, o := moves + [recover], Play(spent, recover);
  }

  /** A claim of the runner, while no other transaction holds the row of attempt i,
      can only select that attempt, and changes nothing. */
  ghost predicate Fails(db: Db, i: AttemptId, locked: set<AttemptId>, k: AttemptId, c: ClaimId, lease: Time, now: Time) {
    i !in locked && IsNext(db, RUNNER, true, locked, k) ==> k == i && Next(db, Claim(k, RUNNER, true, locked, c, lease, now)) == db
  }

  ghost predicate BlockedBy(db: Db, i: AttemptId) {
    forall locked, k, c, lease, now :: Fails(db, i, locked, k, c, lease, now)
  }

  lemma OverLimitBlocks(o: Small, locked: set<AttemptId>, k: AttemptId, c: ClaimId, lease: Time, now: Time)
    requires NextRound(o, LIMIT + 1) && Refs(Of(o))
    ensures Fails(Of(o), LIMIT, locked, k, c, lease, now)
  {
    if LIMIT !in locked && IsNext(Of(o), RUNNER, true, locked, k) {
      OwnsAll(o);
      LastIsClaimable(o);
      Relapse.OverLimitBlocksTheQueue(Of(o), 0, LIMIT, RUNNER, true, Claim(k, RUNNER, true, locked, c, lease, now));
    }
  }

  lemma LastIsClaimable(o: Small)
    requires NextRound(o, LIMIT + 1)
    ensures forall j :: Claimable(Of(o), j, RUNNER, true) <==> j == LIMIT
  {
  }

  /** RecoverTask takes a task over its limit: after this run, of steps as the
      service issues them, task 0 is pending with one attempt more than it is allowed,
      and blocks the queue. */
  lemma TaskOverItsLimit() returns (steps: seq<Step>, last: Db)
    ensures ServedRun(Empty, steps, last)
    ensures 0 in last.tasks && last.tasks[0].status.Pending? && |AttemptsOf(last, 0)| == last.tasks[0].maxAttempts + 1
    ensures BlockedBy(last, LIMIT)
  {
    var moves, o := OverLimitStage();
    var rest := PlayedIsRun(First, moves, o);
    steps := FromEmpty(rest, o);
    last := Of(o);
    ServedRunIsRun(Empty, steps, last);
    Accounting.UsageIsConserved(Empty, steps, last, 0);
    OwnsAll(o);
    Blocked(o);
  }

  lemma Blocked(o: Small)
    requires NextRound(o, LIMIT + 1) && Refs(Of(o))
    ensures BlockedBy(Of(o), LIMIT)
  {
    forall locked, k, c, lease, now ensures Fails(Of(o), LIMIT, locked, k, c, lease, now) {
      OverLimitBlocks(o, locked, k, c, lease, now);
    }
  }
}
