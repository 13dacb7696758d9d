/** Durable drain requests: internal/service/coordination.go. */
module Drain {
  import opened Basics

  type RunnerId = nat

  /** runner_drain_requests, and the last heartbeat of every known runner. */
  datatype State = State(requests: map<RunnerId, Time>, seen: map<RunnerId, Time>)

  const GRACE := 24 * 3600

  /** No heartbeat within the grace, or no runners row at all. */
  predicate Dead(st: State, r: RunnerId, now: Time) {
    r !in st.seen || st.seen[r] < now - GRACE
  }

  datatype Step =
    | Request(runner: RunnerId, now: Time)
    | Acknowledge(runner: RunnerId)
    | Reap(now: Time)
    | Heartbeat(runner: RunnerId, now: Time)
    | Forget(runner: RunnerId)

  function Next(st: State, step: Step): State {
    match step
    case Request(r, now) => if r in st.requests then st else st.(requests := st.requests[r := now])
    case Acknowledge(r) => st.(requests := st.requests - {r})
    case Reap(now) => st.(requests := map r | r in st.requests && !Dead(st, r, now) :: st.requests[r])
    case Heartbeat(r, now) => st.(seen := st.seen[r := now])
    case Forget(r) => st.(seen := st.seen - {r})
  }

  function After(st: State, steps: seq<Step>): State
    decreases |steps|
  {
    if steps == [] then st else After(Next(st, steps[0]), steps[1..])
  }

  /** The step takes the pending request of r away. */
  predicate Withdraws(st: State, step: Step, r: RunnerId) {
    step == Acknowledge(r) || (step.Reap? && Dead(st, r, step.now))
  }

  /** Some step of the run withdraws it. */
  predicate Withdrawn(st: State, steps: seq<Step>, r: RunnerId)
    decreases |steps|
  {
    steps != [] && (Withdraws(st, steps[0], r) || Withdrawn(Next(st, steps[0]), steps[1..], r))
  }

  /** A pending request is delivered at every peek, with its first date, until the
      runner acknowledges it or is reaped as dead: no request is lost otherwise,
      however long the runner is offline and however often it is requested again. */
  lemma {:induction false} RequestSurvives(st: State, steps: seq<Step>, r: RunnerId)
    requires r in st.requests && !Withdrawn(st, steps, r)
    ensures r in After(st, steps).requests && After(st, steps).requests[r] == st.requests[r]
    decreases |steps|
  {
    if steps != [] {
      RequestSurvives(Next(st, steps[0]), steps[1..], r);
    }
  }

  /** Conversely a withdrawal ends it: without a new request it stays gone. */
  lemma {:induction false} WithdrawnStaysGone(st: State, steps: seq<Step>, r: RunnerId)
    requires Withdrawn(st, steps, r) || r !in st.requests
    requires forall k :: 0 <= k < |steps| ==> !(steps[k].Request? && steps[k].runner == r)
    ensures r !in After(st, steps).requests
    decreases |steps|
  {
    if steps != [] {
      assert !(steps[0].Request? && steps[0].runner == r);
      WithdrawnStaysGone(Next(st, steps[0]), steps[1..], r);
    }
  }

  /** A reap keeps exactly the requests of known runners heard of within a day. */
  lemma ReapKeepsExactly(st: State, now: Time, r: RunnerId)
    ensures var st' := Next(st, Reap(now));
      && st'.seen == st.seen
      && (r in st'.requests <==> r in st.requests && r in st.seen && now - st.seen[r] <= 86400)
      && (r in st'.requests ==> st'.requests[r] == st.requests[r])
  {
  }

  class DrainQueue {
    var requests: map<RunnerId, Time>

    constructor ()
      ensures requests == map[]
    {
      requests := map[];
    }

    /** requestRunnerDrainDB: INSERT IGNORE. */
    method RequestDrain(r: RunnerId, seen: map<RunnerId, Time>, now: Time)
      modifies this
      ensures State(requests, seen) == Next(State(old(requests), seen), Request(r, now))
    {
      if r !in requests {
        requests := requests[r := now];
      }
    }

    /** peekRunnerDrainDB leaves the row in place. */
    method Peek(r: RunnerId) returns (pending: bool)
      ensures pending <==> r in requests
    {
      pending := r in requests;
    }

    /** ackRunnerDrainDB. */
    method Acknowledge(r: RunnerId, seen: map<RunnerId, Time>)
      modifies this
      ensures State(requests, seen) == Next(State(old(requests), seen), Step.Acknowledge(r))
    {
      requests := requests - {r};
    }

    /** reapStaleRunnerDrains: first the unknown runners, then the silent ones. */
    method ReapStale(seen: map<RunnerId, Time>, now: Time)
      modifies this
      ensures State(requests, seen) == Next(State(old(requests), seen), Reap(now))
    {
      requests := requests - (requests.Keys - seen.Keys);
      requests := requests - set r | r in requests && r in seen && seen[r] < now - GRACE;
      assert requests == Next(State(old(requests), seen), Reap(now)).requests;
    }
  }
}
