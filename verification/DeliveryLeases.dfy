/** The attempt bound and the exclusivity of delivery leases: what they need and
    what happens without it. */
module DeliveryLeases {
  import opened Basics
  import opened Deliveries
  import opened DeliveryRuns

  /** The attempts a row in each status can have used. */
  predicate AttemptsOk(row: Row) {
    match row.status
    case Pending => row.attempts == 0 && 0 < row.maxAttempts
    case InFlight => 0 <= row.attempts < row.maxAttempts
    case Failed => 1 <= row.attempts < row.maxAttempts
    case Completed => 0 <= row.attempts < row.maxAttempts
    case DeadLetter => 1 <= row.attempts <= row.maxAttempts
  }

  ghost predicate AllAttemptsOk(rows: Rows) {
    forall r :: r in rows ==> AttemptsOk(rows[r])
  }

  /** Settling an item keeps its row within the attempt bound exactly when it does
      not schedule a retry, computed from the item's own count, that the row's
      count no longer allows. */
  lemma SettleKeepsBoundIff(rows: Rows, id: RowId, item: Row, outcome: Outcome, now: Time)
    requires id in rows && AllAttemptsOk(rows) && item.maxAttempts == rows[id].maxAttempts
    ensures AllAttemptsOk(Settle(rows, id, item, outcome, now)) <==>
      (rows[id].status.InFlight? && outcome.Transient? && item.attempts + 1 < item.maxAttempts ==>
         rows[id].attempts + 1 < rows[id].maxAttempts)
  {
    assert AttemptsOk(rows[id]);
    var settled := Settle(rows, id, item, outcome, now);
    assert forall r :: r in settled && r != id ==> settled[r] == rows[r];
    assert AllAttemptsOk(settled) <==> AttemptsOk(settled[id]);
  }

  // ------------------------------------------------------------ bounded runs

  /** A settlement schedules no retry that the row's own count forbids. */
  ghost predicate KeepsBound(st: State, step: Step)
    requires Enabled(st, step)
  {
    step.Finish? && st.held[step.token].row in st.rows ==>
      var h := st.held[step.token];
      var row := st.rows[h.row];
      row.status.InFlight? && step.outcome.Transient? && h.item.attempts + 1 < h.item.maxAttempts ==> row.attempts + 1 < row.maxAttempts
  }

  lemma OtherStepKeepsBound(st: State, step: Step)
    requires Inv(st) && AllAttemptsOk(st.rows) && Enabled(st, step) && !step.Finish?
    ensures AllAttemptsOk(Next(st, step).rows)
  {
    if step.Claim? {
      ClaimBatchEffect(st.rows, step.batch, step.now);
    }
  }

  lemma StepKeepsBoundIff(st: State, step: Step)
    requires Inv(st) && AllAttemptsOk(st.rows) && Enabled(st, step)
    ensures AllAttemptsOk(Next(st, step).rows) <==> KeepsBound(st, step)
  {
    if step.Finish? {
      var h := st.held[step.token];
      assert ItemOk(h, st.rows, st.tasks);
      SettleKeepsBoundIff(st.rows, h.row, h.item, step.outcome, step.now);
    } else {
      OtherStepKeepsBound(st, step);
    }
  }

  /** A run all of whose states respect the attempt bound. */
  ghost predicate BoundedThroughout(st: State, steps: seq<Step>)
    decreases |steps|
  {
    AllAttemptsOk(st.rows) && (steps == [] || (Enabled(st, steps[0]) && BoundedThroughout(Next(st, steps[0]), steps[1..])))
  }

  /** A run each of whose settlements keeps the bound. */
  ghost predicate BoundKeepingRun(st: State, steps: seq<Step>)
    decreases |steps|
  {
    steps == [] || (Enabled(st, steps[0]) && KeepsBound(st, steps[0]) && BoundKeepingRun(Next(st, steps[0]), steps[1..]))
  }

  /** A run respects the attempt bound exactly when each settlement schedules no
      retry that the row's own count forbids. */
  lemma {:induction false} RunIsBoundedIff(st: State, steps: seq<Step>)
    requires Inv(st) && AllAttemptsOk(st.rows)
    ensures BoundedThroughout(st, steps) <==> BoundKeepingRun(st, steps)
    decreases |steps|
  {
    if steps != [] && Enabled(st, steps[0]) {
      StepKeepsBoundIff(st, steps[0]);
      StepKeepsInv(st, steps[0]);
      if AllAttemptsOk(Next(st, steps[0]).rows) {
        RunIsBoundedIff(Next(st, steps[0]), steps[1..]);
      }
    }
  }

  // ------------------------------------------------------------- timely holders

  /** When a claim or a settlement takes effect. */
  function EffectTime(step: Step): Option<Time> {
    match step
    case Claim(_, at, _, _) => Some(at)
    case Finish(_, _, _, at) => Some(at)
    case _ => None
  }

  /** Claims and settlements take effect in the order of the clock, no earlier than
      the worker read it, and a holder settles an item no later than its lease
      expires (or never). Other workers may step between the reading and the effect. */
  ghost predicate Timely(st: State, clock: Time, step: Step) {
    && Enabled(st, step)
    && (step.Claim? ==> clock <= step.at && step.now <= step.at)
    && (step.Finish? ==> clock <= step.at && step.now <= step.at <= st.held[step.token].lease)
  }

  function Tick(clock: Time, step: Step): Time {
    if EffectTime(step).Some? then EffectTime(step).value else clock
  }

  ghost predicate TimelyRun(st: State, clock: Time, steps: seq<Step>, last: State, end: Time)
    decreases |steps|
  {
    if steps == [] then st == last && clock == end
    else Timely(st, clock, steps[0]) && TimelyRun(Next(st, steps[0]), Tick(clock, steps[0]), steps[1..], last, end)
  }

  /** The holder's lease has not expired. */
  predicate Live(st: State, clock: Time, t: Token) {
    t in st.held && clock <= st.held[t].lease
  }

  /** A live holder owns its row: the row is in flight under the holder's lease
      and still has the attempts the holder read. */
  predicate Owns(h: Held, rows: Rows) {
    && h.row in rows
    && rows[h.row].status.InFlight?
    && rows[h.row].lease == Some(h.lease)
    && rows[h.row].attempts == h.item.attempts
  }

  ghost predicate LeaseInv(st: State, clock: Time) {
    && Inv(st)
    && AllAttemptsOk(st.rows)
    && (forall t :: Live(st, clock, t) ==> Owns(st.held[t], st.rows))
    && (forall t, u :: Live(st, clock, t) && Live(st, clock, u) && st.held[t].row == st.held[u].row ==> t == u)
  }

  /** What a claim leaves a token holding: a fresh item under the new lease, or
      what it held before. */
  lemma HeldAfterClaim(st: State, step: Step, t: Token)
    requires Enabled(st, step) && step.Claim? && t in Next(st, step).held
    ensures var h, n := Next(st, step).held[t], t - st.tokens;
      if 0 <= n < |step.batch| then h.row == step.batch[n] && h.item == st.rows[h.row] && h.lease == step.now + LEASE
      else t in st.held && h == st.held[t]
  {
    var taken := Taken(st.rows, step.batch, st.tokens, step.now);
    if t in taken {
      assert taken[t] == HeldUnder(st.rows, step.batch, st.tokens, step.now, t);
    }
  }

  /** A live holder's row is not due, so a claim does not take it. */
  lemma OwnedIsNotClaimed(st: State, clock: Time, step: Step, t: Token)
    requires LeaseInv(st, clock) && Timely(st, clock, step) && step.Claim?
    requires t in st.held && step.at <= st.held[t].lease
    ensures Live(st, clock, t) && Owns(st.held[t], st.rows) && st.held[t].row !in step.batch
  {
    assert Live(st, clock, t);
    assert !Due(st.rows[st.held[t].row], step.now);
  }

  lemma ClaimKeepsOwners(st: State, clock: Time, step: Step, t: Token)
    requires LeaseInv(st, clock) && Timely(st, clock, step) && step.Claim?
    requires Live(Next(st, step), step.at, t)
    ensures Owns(Next(st, step).held[t], Next(st, step).rows)
  {
    HeldAfterClaim(st, step, t);
    ClaimBatchEffect(st.rows, step.batch, step.now);
    var h, rows := Next(st, step).held[t], Next(st, step).rows;
    if 0 <= t - st.tokens < |step.batch| {
      assert h.row in step.batch && rows[h.row] == InHand(st.rows[h.row], step.now);
    } else {
      OwnedIsNotClaimed(st, clock, step, t);
      assert rows[h.row] == st.rows[h.row];
    }
  }

  lemma ClaimKeepsExclusion(st: State, clock: Time, step: Step, t: Token, u: Token)
    requires LeaseInv(st, clock) && Timely(st, clock, step) && step.Claim?
    requires Live(Next(st, step), step.at, t) && Live(Next(st, step), step.at, u)
    requires Next(st, step).held[t].row == Next(st, step).held[u].row
    ensures t == u
  {
    HeldAfterClaim(st, step, t);
    HeldAfterClaim(st, step, u);
    var i, j := t - st.tokens, u - st.tokens;
    if !(0 <= i < |step.batch|) {
      OwnedIsNotClaimed(st, clock, step, t);
    }
    if !(0 <= j < |step.batch|) {
      OwnedIsNotClaimed(st, clock, step, u);
    }
  }

  lemma ClaimKeepsLeases(st: State, clock: Time, step: Step)
    requires LeaseInv(st, clock) && Timely(st, clock, step) && step.Claim?
    ensures LeaseInv(Next(st, step), Tick(clock, step))
  {
    var st', at := Next(st, step), step.at;
    StepKeepsInv(st, step);
    assert AllAttemptsOk(st'.rows) by {
      ClaimBatchEffect(st.rows, step.batch, step.now);
    }
    forall t | Live(st', at, t) ensures Owns(st'.held[t], st'.rows) {
      ClaimKeepsOwners(st, clock, step, t);
    }
    forall t, u | Live(st', at, t) && Live(st', at, u) && st'.held[t].row == st'.held[u].row ensures t == u {
      ClaimKeepsExclusion(st, clock, step, t, u);
    }
  }

  lemma FinishKeepsLeases(st: State, clock: Time, step: Step)
    requires LeaseInv(st, clock) && Timely(st, clock, step) && step.Finish?
    ensures LeaseInv(Next(st, step), Tick(clock, step))
  {
    StepKeepsInv(st, step);
    var h := st.held[step.token];
    assert Live(st, clock, step.token);
    assert ItemOk(h, st.rows, st.tasks);
    SettleKeepsBoundIff(st.rows, h.row, h.item, step.outcome, step.now);
    var st' := Next(st, step);
    forall t | Live(st', step.at, t) ensures Live(st, clock, t) && Owns(st'.held[t], st'.rows) {
    }
  }

  lemma OtherStepKeepsLeases(st: State, clock: Time, step: Step)
    requires LeaseInv(st, clock) && Timely(st, clock, step) && !step.Claim? && !step.Finish?
    ensures LeaseInv(Next(st, step), Tick(clock, step))
  {
    StepKeepsInv(st, step);
    var st' := Next(st, step);
    forall t | Live(st', Tick(clock, step), t)
      ensures Live(st, clock, t) && Owns(st'.held[t], st'.rows) && st'.held[t].row == st.held[t].row
    {
    }
  }

  lemma {:induction false} TimelyRunKeepsLeases(st: State, clock: Time, steps: seq<Step>, last: State, end: Time)
    requires LeaseInv(st, clock) && TimelyRun(st, clock, steps, last, end)
    ensures LeaseInv(last, end)
    decreases |steps|
  {
    if steps != [] {
      var step := steps[0];
      if step.Claim? {
        ClaimKeepsLeases(st, clock, step);
      } else if step.Finish? {
        FinishKeepsLeases(st, clock, step);
      } else {
        OtherStepKeepsLeases(st, clock, step);
      }
      TimelyRunKeepsLeases(Next(st, step), Tick(clock, step), steps[1..], last, end);
    }
  }

  /** If every settlement takes effect no later than the holder's lease expires,
      however long ago the holder read the clock and whoever steps in between, each
      row has at most one live holder, the holder knows the row's attempts, and
      attempts never exceed the maximum. */
  lemma TimelyHoldersAreExclusive(steps: seq<Step>, st: State, start: Time, end: Time, t: Token, u: Token)
    requires TimelyRun(Initial, start, steps, st, end)
    requires Live(st, end, t)
    ensures st.held[t].row in st.rows && st.held[t].item.attempts == st.rows[st.held[t].row].attempts
    ensures Live(st, end, u) && st.held[u].row == st.held[t].row ==> u == t
  {
    TimelyRunKeepsLeases(Initial, start, steps, st, end);
  }

  lemma TimelyAttemptsAreBounded(steps: seq<Step>, st: State, start: Time, end: Time, r: RowId)
    requires TimelyRun(Initial, start, steps, st, end) && r in st.rows
    ensures 0 <= st.rows[r].attempts <= st.rows[r].maxAttempts
    ensures st.rows[r].status.Failed? ==> 1 <= st.rows[r].attempts < st.rows[r].maxAttempts
  {
    TimelyRunKeepsLeases(Initial, start, steps, st, end);
    assert AttemptsOk(st.rows[r]);
  }

  // -------------------------------------------------------------- stale holders

  lemma {:induction false} RunThenStep(st: State, steps: seq<Step>, mid: State, step: Step)
    requires Run(st, steps, mid) && Enabled(mid, step)
    ensures Run(st, steps + [step], Next(mid, step))
    decreases |steps|
  {
    if steps != [] {
      RunThenStep(Next(st, steps[0]), steps[1..], mid, step);
      assert (steps + [step])[1..] == steps[1..] + [step];
    }
  }

  /** One row, in flight under the newest claim, that has used `failed` attempts;
      holders failed to n still carry the count zero they once read. */
  ghost predicate Stale(st: State, failed: nat, n: nat, clock: Time) {
    && failed <= n <= st.tokens
    && st.rows.Keys == {0}
    && st.rows[0].status.InFlight? && st.rows[0].lease == Some(clock + LEASE)
    && st.rows[0].attempts == failed && st.rows[0].maxAttempts == MAX_ATTEMPTS
    && (forall t :: failed <= t < n ==> t in st.held && ReadFresh(st.held[t]))
  }

  predicate ReadFresh(h: Held) {
    h.row == 0 && h.item.attempts == 0 && h.item.maxAttempts == MAX_ATTEMPTS && h.item.action.Send?
  }

  /** Claiming the only row. */
  lemma ClaimOnly(st: State, now: Time)
    requires st.rows.Keys == {0} && Due(st.rows[0], now) && st.tokens !in st.held
    ensures Enabled(st, Claim(now, now, {}, [0]))
    ensures Next(st, Claim(now, now, {}, [0])) ==
      st.(rows := map[0 := InHand(st.rows[0], now)], tokens := st.tokens + 1,
          held := st.held[st.tokens := Held(0, st.rows[0], now + LEASE, false)])
  {
    var batch: seq<RowId> := [0];
    assert DueIds(st.rows, {}, now) == {0};
    assert IsBatch(st.rows, {}, now, batch);
    ClaimBatchEffect(st.rows, batch, now);
    var taken := Taken(st.rows, batch, st.tokens, now);
    assert taken.Keys == {st.tokens};
    assert taken[st.tokens] == HeldUnder(st.rows, batch, st.tokens, now, st.tokens);
    assert st.held + taken == st.held[st.tokens := Held(0, st.rows[0], now + LEASE, false)];
    assert ClaimBatch(st.rows, batch, now) == map[0 := InHand(st.rows[0], now)];
  }

  /** n workers in turn claim the row and outlive their leases. */
  lemma {:induction false} StaleHolders(n: nat) returns (steps: seq<Step>, st: State, clock: Time)
    requires 0 < n
    ensures Run(Initial, steps, st) && Stale(st, 0, n, clock) && st.rows[0].action.Send? && st.tokens == n
  {
    var claim: Step;
    if n == 1 {
      steps, clock := [Enqueue(0, 0, 0, Send, false, 0)], 0;
      st := Next(Initial, steps[0]);
    } else {
      steps, st, clock := StaleHolders(n - 1);
      clock := clock + LEASE + 1;
    }
    RunKeepsInv(Initial, steps, st);
    claim := Claim(clock, clock, {}, [0]);
    HolderJoins(st, n - 1, clock);
    RunThenStep(Initial, steps, st, claim);
    steps, st := steps + [claim], Next(st, claim);
  }

  /** One more claim of a row that never failed. */
  lemma HolderJoins(st: State, n: nat, clock: Time)
    requires Inv(st) && st.rows.Keys == {0} && Due(st.rows[0], clock) && st.tokens == n && ReadFresh(Held(0, st.rows[0], clock, false))
    requires forall t :: 0 <= t < n ==> t in st.held && ReadFresh(st.held[t])
    ensures Enabled(st, Claim(clock, clock, {}, [0]))
    ensures var st' := Next(st, Claim(clock, clock, {}, [0]));
      Stale(st', 0, n + 1, clock) && st'.rows[0].action.Send? && st'.tokens == n + 1
  {
    ClaimOnly(st, clock);
  }

  /** A stale failure schedules a retry whatever the row's count is. */
  lemma StaleFailure(st: State, failed: nat, n: nat, clock: Time)
    requires Stale(st, failed, n, clock) && failed < n
    ensures Enabled(st, Finish(failed, Transient, clock, clock))
    ensures var st' := Next(st, Finish(failed, Transient, clock, clock));
      && st'.held == st.held - {failed} && st'.tokens == st.tokens
      && st'.rows == map[0 := st.rows[0].(status := Failed, attempts := failed + 1, lease := None, nextAt := Some(clock + 1))]
  {
    assert ReadFresh(st.held[failed]);
  }

  lemma StaleClaim(st: State, failed: nat, n: nat, now: Time)
    requires st.rows.Keys == {0} && Due(st.rows[0], now) && st.tokens !in st.held
    requires st.rows[0].attempts == failed <= n <= st.tokens && st.rows[0].maxAttempts == MAX_ATTEMPTS
    requires forall t :: failed <= t < n ==> t in st.held && ReadFresh(st.held[t])
    ensures Enabled(st, Claim(now, now, {}, [0])) && Stale(Next(st, Claim(now, now, {}, [0])), failed, n, now)
  {
    ClaimOnly(st, now);
  }

  /** They then fail one after another, another worker claiming in between. */
  lemma {:induction false} StaleFailures(failed: nat, n: nat) returns (steps: seq<Step>, st: State, clock: Time)
    requires failed <= n && 0 < n
    ensures Run(Initial, steps, st) && Inv(st) && Stale(st, failed, n, clock)
  {
    if failed == 0 {
      steps, st, clock := StaleHolders(n);
      RunKeepsInv(Initial, steps, st);
    } else {
      steps, st, clock := StaleFailures(failed - 1, n);
      steps, st := StaleRound(steps, st, failed - 1, n, clock);
      clock := clock + 30;
    }
  }

  lemma StaleRound(steps: seq<Step>, st: State, failed: nat, n: nat, clock: Time) returns (steps': seq<Step>, st': State)
    requires Run(Initial, steps, st) && Inv(st) && Stale(st, failed, n, clock) && failed < n
    ensures Run(Initial, steps', st') && Inv(st') && Stale(st', failed + 1, n, clock + 30)
  {
    var fail, claim := Finish(failed, Transient, clock, clock), Claim(clock + 30, clock + 30, {}, [0]);
    StaleFailure(st, failed, n, clock);
    RunThenStep(Initial, steps, st, fail);
    StepKeepsInv(st, fail);
    var mid := Next(st, fail);
    StaleClaim(mid, failed + 1, n, clock + 30);
    RunThenStep(Initial, steps + [fail], mid, claim);
    StepKeepsInv(mid, claim);
    steps', st' := steps + [fail] + [claim], Next(mid, claim);
  }

  /** Without the assumption no bound holds at all: holders that outlive their
      leases can make a row with three allowed attempts use any number n. */
  lemma AttemptsAreUnbounded(n: nat)
    ensures exists steps, st :: Run(Initial, steps, st) && 0 in st.rows
              && st.rows[0].maxAttempts == MAX_ATTEMPTS && st.rows[0].attempts == n
  {
    var steps, st, clock := StaleFailures(n, n + 1);
  }
}
