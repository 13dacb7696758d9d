/** A run from empty tables after which one task has two running attempts. */
module DoubleRun {
  import opened Basics
  import opened Tables
  import opened Transactions
  import opened Integrity
  import opened SmallTables
  import Accounting
  import LeaseRace
  import Relapse

  // --------------------------------------------------- moves on tables of one task

  datatype Move =
    | ClaimMove(k: nat, p: nat, c: ClaimId, now: Time)
    | DoneMove(k: nat, p: nat, now: Time)
    | RecoverMove(p: nat, now: Time)
    | ResumeMove(s: nat, q: nat, now: Time)
    | BeatMove(now: Time)
    | OverrunMove(k: nat, now: Time)
    | ReapMove(k: nat, now: Time)

  predicate Legal(o: Small, m: Move) {
    match m
    case ClaimMove(k, p, c, now) => Waiting(o, k) && Top(o, p)
    case DoneMove(k, p, now) => Sound(o) && o.status.Running? && Live(o, k, now) && Top(o, p) && Finishing(o)
    case RecoverMove(p, now) => MayRecover(o, p)
    case ResumeMove(s, q, now) => CanResume(o, s, q, now)
    case BeatMove(now) => Sound(o)
    case OverrunMove(k, now) =>
      Sound(o) && o.status.Running? && k < |o.attempts| && Overrun(o.attempts[k], now)
      && forall l :: 0 <= l < |o.attempts| && l != k ==> !o.attempts[l].status.Running?
    case ReapMove(k, now) =>
      Sound(o) && o.status.Running? && k < |o.attempts|
      && FailedByTimeout(o.attempts[k]) && o.attempts[k].lease.Some? && o.attempts[k].lease.value < now
      && forall l :: 0 <= l < |o.attempts| ==> !LeaseExpired(o.attempts[l], now)
  }

  /** Attempt k waits for the runner. */
  predicate Waiting(o: Small, k: nat) {
    && Sound(o) && o.status.Pending? && k < |o.attempts| <= LIMIT
    && o.attempts[k].status.Pending? && (o.attempts[k].required.Only? ==> o.attempts[k].required.runner == RUNNER)
  }

  function Play(o: Small, m: Move): Small
    requires Legal(o, m)
  {
    match m
    case ClaimMove(k, p, c, now) => AfterClaim(o, k, p, c, now)
    case DoneMove(k, p, now) => AfterDone(o, k, p, now)
    case RecoverMove(p, now) => Recovered(o, now)
    case ResumeMove(s, q, now) => AfterResume(o, s, q, now)
    case BeatMove(now) => o.(seen := now)
    case OverrunMove(k, now) => FailedOver(o, k, now)
    case ReapMove(k, now) => TaskAfter(o, FailTask(Timeout))
  }

  /** The step of the service that a move stands for. */
  function StepOf(o: Small, m: Move): Step
    requires Legal(o, m)
  {
    match m
    case ClaimMove(k, p, c, now) => ClaimOf(o, k, c, now)
    case DoneMove(k, p, now) => Report(DoneEvent(o, k), 0, now, now)
    case RecoverMove(p, now) => Recover(0, Fresh(o), TIMEOUT, now)
    case ResumeMove(s, q, now) => ResumeOf(o, s, now)
    case BeatMove(now) => Heartbeat(RUNNER, Beat(now))
    case OverrunMove(k, now) => ReapOverrun(now, now)
    case ReapMove(k, now) => ReapLeases(true, [], [], now)
  }

  lemma RequestIsStep(o: Small, m: Move)
    requires Legal(o, m) && (m.RecoverMove? || m.ResumeMove?)
    ensures Leads(Of(o), StepOf(o, m), Of(Play(o, m))) && Served(Of(o), StepOf(o, m))
  {
    match m
    case RecoverMove(p, now) => RecoverLeads(o, p, now);
    case ResumeMove(s, q, now) =>
      ResumeLeads(o, s, q, now);
      ReadyMayResume(o, s, now);
  }

  lemma ReaperIsStep(o: Small, m: Move)
    requires Legal(o, m) && (m.OverrunMove? || m.ReapMove?)
    ensures Leads(Of(o), StepOf(o, m), Of(Play(o, m)))
  {
    match m
    case OverrunMove(k, now) => OverrunLeads(o, k, now);
    case ReapMove(k, now) => ReapLeads(o, k, now);
  }

  lemma RunnerIsStep(o: Small, m: Move)
    requires Legal(o, m) && (m.ClaimMove? || m.DoneMove? || m.BeatMove?)
    ensures Leads(Of(o), StepOf(o, m), Of(Play(o, m))) && Served(Of(o), StepOf(o, m))
  {
    match m
    case ClaimMove(k, p, c, now) => ClaimLeads(o, k, p, c, now);
    case DoneMove(k, p, now) => DoneLeads(o, k, p, now);
    case BeatMove(now) => BeatLeads(o, now);
  }

  /** Every legal move is a step as the service issues it. */
  lemma MoveIsStep(o: Small, m: Move)
    requires Legal(o, m)
    ensures Leads(Of(o), StepOf(o, m), Of(Play(o, m))) && Served(Of(o), StepOf(o, m))
  {
    match m
    case RecoverMove(_, _) => RequestIsStep(o, m);
    case ResumeMove(_, _, _) => RequestIsStep(o, m);
    case OverrunMove(_, _) => ReaperIsStep(o, m);
    case ReapMove(_, _) => ReaperIsStep(o, m);
    case _ => RunnerIsStep(o, m);
  }

  predicate Played(o: Small, moves: seq<Move>, last: Small)
    decreases |moves|
  {
    if moves == [] then o == last else Legal(o, moves[0]) && Played(Play(o, moves[0]), moves[1..], last)
  }

  lemma {:induction false} PlayThen(o: Small, moves: seq<Move>, mid: Small, m: Move)
    requires Played(o, moves, mid) && Legal(mid, m)
    ensures Played(o, moves + [m], Play(mid, m))
    decreases |moves|
  {
    if moves == [] {
      assert [] + [m] == [m] && [m][1..] == [];
    } else {
      assert (moves + [m])[1..] == moves[1..] + [m];
      PlayThen(Play(o, moves[0]), moves[1..], mid, m);
    }
  }

  /** A run of steps as the service issues them. */
  ghost predicate ServedRun(db: Db, steps: seq<Step>, last: Db)
    decreases |steps|
  {
    if steps == [] then db == last
    else Enabled(db, steps[0]) && Served(db, steps[0]) && ServedRun(Next(db, steps[0]), steps[1..], last)
  }

  lemma {:induction false} ServedRunIsRun(db: Db, steps: seq<Step>, last: Db)
    requires ServedRun(db, steps, last)
    ensures Run(db, steps, last)
    decreases |steps|
  {
    if steps != [] {
      ServedRunIsRun(Next(db, steps[0]), steps[1..], last);
    }
  }

  lemma Prepend(db: Db, step: Step, mid: Db, steps: seq<Step>, last: Db)
    requires Leads(db, step, mid) && Served(db, step) && ServedRun(mid, steps, last)
    ensures ServedRun(db, [step] + steps, last)
  {
    assert ([step] + steps)[1..] == steps;
  }

  lemma {:induction false} PlayedIsRun(o: Small, moves: seq<Move>, last: Small) returns (steps: seq<Step>)
    requires Played(o, moves, last)
    ensures ServedRun(Of(o), steps, Of(last))
    decreases |moves|
  {
    if moves == [] {
      steps := [];
    } else {
      var rest := PlayedIsRun(Play(o, moves[0]), moves[1..], last);
      MoveIsStep(o, moves[0]);
      Prepend(Of(o), StepOf(o, moves[0]), Of(Play(o, moves[0])), rest, Of(last));
      steps := [StepOf(o, moves[0])] + rest;
    }
  }

  // ----------------------------------------------------------------- the stages

  /** Every attempt so far has the default timeout. */
  predicate Uniform(o: Small) {
    Sound(o) && forall k :: 0 <= k < |o.attempts| ==> o.attempts[k].timeout == TIMEOUT
  }

  /** What a claim and a done event leave of the tables. */
  ghost predicate Settled(o: Small, k: nat, p: nat, last: Small) {
    && k < |o.attempts| && p < |o.prompts| && o.sessions != []
    && Uniform(last) && last.status.Done?
    && |last.sessions| == |o.sessions| && |last.prompts| == |o.prompts| && |last.attempts| == |o.attempts|
    && (forall s :: 0 <= s < |o.sessions| - 1 ==> last.sessions[s] == o.sessions[s])
    && Ready(last.sessions[|o.sessions| - 1]) && last.seen == o.seen
    && (forall q :: 0 <= q < |o.prompts| ==> SamePlace(o.prompts[q], last.prompts[q]))
    && last.prompts[p].transcript
    && (forall l :: 0 <= l < |o.attempts| && l != k ==> last.attempts[l] == o.attempts[l])
    && last.attempts[k].status.Succeeded?
  }

  predicate SamePlace(a: Prompt, b: Prompt) {
    b.session == a.session && b.number == a.number && (a.transcript ==> b.transcript)
  }

  /** A waiting attempt of the latest prompt is claimed and reported done. */
  lemma RunnerFinishes(moves: seq<Move>, o: Small, k: nat, p: nat, c: ClaimId, now: Time) returns (more: seq<Move>, last: Small)
    requires Played(First, moves, o) && Uniform(o) && Waiting(o, k) && Top(o, p) && Finishing(o)
    ensures Played(First, more, last) && Settled(o, k, p, last)
  {
    var claim, done := ClaimMove(k, p, c, now), DoneMove(k, p, now);
    var claimed := AfterClaim(o, k, p, c, now);
    ClaimedMayFinish(o, k, p, c, now);
    PlayThen(First, moves, o, claim);
    PlayThen(First, moves + [claim], claimed, done);
    more, last := moves + [claim] + [done], AfterDone(claimed, k, p, now);
    DoneSettles(o, k, p, c, now, claimed, last);
  }

  lemma ClaimedMayFinish(o: Small, k: nat, p: nat, c: ClaimId, now: Time)
    requires Uniform(o) && Waiting(o, k) && Top(o, p) && Finishing(o)
    ensures Legal(AfterClaim(o, k, p, c, now), DoneMove(k, p, now)) && Uniform(AfterClaim(o, k, p, c, now))
  {
  }

  lemma DoneSettles(o: Small, k: nat, p: nat, c: ClaimId, now: Time, claimed: Small, last: Small)
    requires Uniform(o) && Waiting(o, k) && Top(o, p) && Finishing(o)
    requires claimed == AfterClaim(o, k, p, c, now) && Uniform(claimed) && Live(claimed, k, now)
    requires last == AfterDone(claimed, k, p, now)
    ensures Settled(o, k, p, last)
  {
  }

  /** n rounds were done, each under its own parked session with one prompt. */
  predicate Rounds(o: Small, n: nat) {
    && Uniform(o) && o.status.Done? && o.seen == 0
    && |o.sessions| == |o.prompts| == |o.attempts| == n
    && forall k :: 0 <= k < n ==>
         && Ready(o.sessions[k]) && o.attempts[k].status.Succeeded?
         && o.prompts[k].session == k && o.prompts[k].number == 1 && o.prompts[k].transcript
  }

  /** The tables on which round n is claimed: submitted or just recovered. */
  predicate NextRound(o: Small, n: nat) {
    && 0 < n && Uniform(o) && o.status.Pending? && o.seen == 0
    && |o.sessions| == |o.prompts| == |o.attempts| == n
    && Finishing(o) && o.attempts[n - 1].status.Pending? && o.attempts[n - 1].required.Anyone?
    && (forall k :: 0 <= k < n ==> o.prompts[k].session == k && o.prompts[k].number == 1)
    && (forall k :: 0 <= k < n - 1 ==> Ready(o.sessions[k]) && o.attempts[k].status.Succeeded? && o.prompts[k].transcript)
  }

  lemma RoundIsDone(o: Small, n: nat, last: Small)
    requires NextRound(o, n) && Settled(o, n - 1, n - 1, last)
    ensures Rounds(last, n)
  {
    forall k | 0 <= k < n ensures last.prompts[k].session == k && last.prompts[k].number == 1 && last.prompts[k].transcript {
      assert SamePlace(o.prompts[k], last.prompts[k]);
    }
  }

  /** Recovering after n rounds, within the limit or not. */
  lemma RecoverStartsRound(o: Small, n: nat, now: Time)
    requires 0 < n && Rounds(o, n)
    ensures Legal(o, RecoverMove(n - 1, now)) && NextRound(Play(o, RecoverMove(n - 1, now)), n + 1)
  {
  }

  /** Submitted, claimed and done; then recovered, claimed and done again. */
  lemma {:induction false} RoundStage(n: nat) returns (moves: seq<Move>, o: Small)
    requires 1 <= n <= LIMIT
    ensures Played(First, moves, o) && Rounds(o, n)
  {
    var now := 2 * (n - 1);
    var begun := First;
    moves := [];
    if n > 1 {
      var before: Small;
      moves, before := RoundStage(n - 1);
      var recover := RecoverMove(n - 2, now);
      RecoverStartsRound(before, n - 1, now);
      PlayThen(First, moves, before, recover);
      moves, begun := moves + [recover], Play(before, recover);
    }
    assert Played(First, moves, begun) && NextRound(begun, n);
    var done: Small;
    moves, done := RunnerFinishes(moves, begun, n - 1, n - 1, 99 + n, now);
    RoundIsDone(begun, n, done);
    o := done;
  }

  /** Session 0 resumed: its new attempt waits, prompt 1 is still the latest. */
  lemma ResumedStage() returns (moves: seq<Move>, o: Small)
    ensures Played(First, moves, o) && Uniform(o) && Waiting(o, 2) && Top(o, 1)
    ensures |o.sessions| == 2 && |o.prompts| == |o.attempts| == 3
    ensures Ready(o.sessions[1])
    ensures o.prompts[0].session == 0 && o.prompts[2].session == 0
    ensures o.prompts[1].session == 1 && o.prompts[1].number == 1 && o.prompts[1].transcript
    ensures o.attempts[0].status.Succeeded? && o.attempts[1].status.Succeeded?
  {
    var second: Small;
    moves, second := RoundStage(2);
    var resume := ResumeMove(0, 0, 4);
    PlayThen(First, moves, second, resume);
    moves, o := moves + [resume], Play(second, resume);
  }

  /** It is claimed and overruns. The task has failed, and its latest prompt still
      has the transcript. */
  lemma ThirdStage() returns (moves: seq<Move>, o: Small)
    ensures Played(First, moves, o) && Uniform(o) && o.status.Error?
    ensures |o.sessions| == 2 && |o.prompts| == |o.attempts| == 3
    ensures Ready(o.sessions[1])
    ensures o.prompts[0].session == 0 && o.prompts[2].session == 0
    ensures o.prompts[1].session == 1 && o.prompts[1].number == 1 && o.prompts[1].transcript
    ensures o.attempts[0].status.Succeeded? && o.attempts[1].status.Succeeded?
    ensures FailedByTimeout(o.attempts[2]) && o.attempts[2].lease == Some(124)
  {
    var resumed: Small;
    moves, resumed := ResumedStage();
    var claim, overrun := ClaimMove(2, 1, 102, 4), OverrunMove(2, 500);
    PlayThen(First, moves, resumed, claim);
    var claimed := Play(resumed, claim);
    PlayThen(First, moves + [claim], claimed, overrun);
    moves, o := moves + [claim] + [overrun], Play(claimed, overrun);
  }

  /** The runner is heard of again, and the task recovered: the new attempt waits
      under a third session. */
  lemma RecoveredStage() returns (moves: seq<Move>, o: Small)
    ensures Played(First, moves, o) && Uniform(o) && Waiting(o, 3) && Top(o, 3)
    ensures |o.sessions| == 3 && |o.prompts| == |o.attempts| == 4 && Ready(o.sessions[1]) && o.seen == 501
    ensures o.attempts[0].status.Succeeded? && o.attempts[1].status.Succeeded?
    ensures FailedByTimeout(o.attempts[2]) && o.attempts[2].lease == Some(124)
  {
    var third: Small;
    moves, third := ThirdStage();
    var beat, recover := BeatMove(501), RecoverMove(1, 501);
    PlayThen(First, moves, third, beat);
    var seen := Play(third, beat);
    PlayThen(First, moves + [beat], seen, recover);
    moves, o := moves + [beat] + [recover], Play(seen, recover);
  }

  /** Claimed, and failed by the lease reaper although the new lease is live. */
  lemma FourthStage() returns (moves: seq<Move>, o: Small)
    ensures Played(First, moves, o) && Uniform(o) && o.status.Error?
    ensures |o.sessions| == 3 && |o.prompts| == |o.attempts| == 4
    ensures Ready(o.sessions[1]) && o.seen == 501 && o.attempts[3].status.Running? && o.attempts[3].lease == Some(621)
  {
    var recovered: Small;
    moves, recovered := RecoveredStage();
    var claim, reap := ClaimMove(3, 3, 103, 501), ReapMove(2, 502);
    PlayThen(First, moves, recovered, claim);
    var claimed := Play(recovered, claim);
    PlayThen(First, moves + [claim], claimed, reap);
    moves, o := moves + [claim] + [reap], Play(claimed, reap);
  }

  lemma FourthStageIsReached() returns (steps: seq<Step>, o: Small)
    ensures ServedRun(Empty, steps, Of(o)) && Sound(o) && o.status.Error?
    ensures |o.sessions| == 3 && |o.prompts| == |o.attempts| == 4
    ensures Ready(o.sessions[1]) && o.seen == 501
    ensures o.attempts[3].status.Running? && o.attempts[3].lease == Some(621)
  {
    var moves;
    moves, o := FourthStage();
    var rest := PlayedIsRun(First, moves, o);
    steps := FromEmpty(rest, o);
  }

  /** The runner registers and the task is submitted first. */
  lemma FromEmpty(rest: seq<Step>, o: Small) returns (steps: seq<Step>)
    requires ServedRun(Of(First), rest, Of(o))
    ensures ServedRun(Empty, steps, Of(o))
  {
    RegisterLeads();
    SubmitLeads();
    Prepend(Registered, FirstSubmit, Of(First), rest, Of(o));
    Prepend(Empty, Heartbeat(RUNNER, Beat(0)), Registered, [FirstSubmit] + rest, Of(o));
    steps := [Heartbeat(RUNNER, Beat(0))] + ([FirstSubmit] + rest);
  }

  lemma {:induction false} RunThen(db: Db, steps: seq<Step>, mid: Db, step: Step, last: Db)
    requires ServedRun(db, steps, mid) && Leads(mid, step, last) && Served(mid, step)
    ensures ServedRun(db, steps + [step], last)
    decreases |steps|
  {
    if steps == [] {
      assert [] + [step] == [step];
      Prepend(db, step, last, [], last);
    } else {
      assert (steps + [step])[1..] == steps[1..] + [step];
      RunThen(Next(db, steps[0]), steps[1..], mid, step, last);
    }
  }

  /** The claim that a task never has two running attempts is false of the service
      as it is: this run of sixteen steps, each with the checks and reads the service
      makes before it, gives task 0 the running attempts 3 and 4. */
  lemma TwoRunningAttempts() returns (steps: seq<Step>, last: Db)
    ensures ServedRun(Empty, steps, last)
    ensures Owns(last, 0, 3) && last.attempts[3].status.Running?
    ensures Owns(last, 0, 4) && last.attempts[4].status.Running?
  {
    var o: Small;
    steps, o := FourthStageIsReached();
    OwnsAll(o);
    ServedRunIsRun(Empty, steps, Of(o));
    Accounting.UsageIsConserved(Empty, steps, Of(o), 0);
    ReadyMayResume(o, 1, 503);
    var db1, end := Relapse.StrayedTaskRunsTwice(Of(o), 0, 3, 1, RUNNER, 104, 4, 4, TIMEOUT, LEASE, 503);
    var resume, claim := Resume(1, 0, RUNNER, 4, 4, TIMEOUT, 503), Claim(4, RUNNER, true, db1.attempts.Keys - {4}, 104, LEASE, 503);
    RunThen(Empty, steps, Of(o), resume, db1);
    RunThen(Empty, steps + [resume], db1, claim, end);
    steps, last := steps + [resume] + [claim], end;
  }

  /** No pass of the lease reaper after this instant commits. */
  ghost predicate Stalled(db: Db, after: Time) {
    forall order, drawn, now ::
      after < now && IsListing(db, now, order) && |order| == |drawn| && LeaseRace.Unused(db, drawn)
      ==> ReapLeasesTx(db, true, order, drawn, now).RolledBack?
  }

  lemma LeftOverStalls(o: Small, k: nat)
    requires Sound(o) && Refs(Of(o)) && o.status.Error? && k < |o.attempts| < LIMIT
    requires o.attempts[k].status.Running? && o.attempts[k].lease.Some?
    ensures Stalled(Of(o), o.attempts[k].lease.value)
  {
    var db := Of(o);
    OwnsAll(o);
    forall order, drawn, now | o.attempts[k].lease.value < now && IsListing(db, now, order) && |order| == |drawn| && LeaseRace.Unused(db, drawn)
      ensures ReapLeasesTx(db, true, order, drawn, now).RolledBack?
    {
      LeaseRace.StrayStopsThePass(db, order, drawn, now, 0, k);
    }
  }

  /** Before its last two steps the run leaves task 0 failed and attempt 3 running
      under a lease until 621. From then on no pass of the lease reaper commits,
      until somebody ends the attempt. */
  lemma ReaperStalls() returns (steps: seq<Step>, last: Db)
    ensures ServedRun(Empty, steps, last) && Stalled(last, 621)
  {
    var o: Small;
    steps, o := FourthStageIsReached();
    last := Of(o);
    ServedRunIsRun(Empty, steps, last);
    Accounting.UsageIsConserved(Empty, steps, last, 0);
    LeftOverStalls(o, 3);
  }
}
