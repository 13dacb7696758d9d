/** Whole runs of the callback outbox: any number of workers holding snapshots,
    crashes, lease takeovers and operator retries, interleaved in any order. */
module DeliveryRuns {
  import opened Basics
  import opened Deliveries

  /** One claimed item in a worker's hands: the row as it was read, the lease the
      claim wrote, and whether its child task is known to exist. */
  datatype Held = Held(row: RowId, item: Row, lease: Time, spawned: bool)

  type Token = nat

  /** tokens counts the items ever claimed; log lists the child tasks created,
      each with the row it was created for. */
  datatype State = State(rows: Rows, tasks: set<TaskId>, held: map<Token, Held>, tokens: nat, log: seq<RowId>)

  const Initial := State(map[], {}, map[], 0, [])

  /** A worker reads the clock, now, before its statement takes effect, at: a claim
      before its transaction, a settlement before the delivery is even sent. */
  datatype Step =
    | Enqueue(id: RowId, callback: CallbackId, event: EventId, action: Action, broken: bool, now: Time)
    | Claim(now: Time, at: Time, locked: set<RowId>, batch: seq<RowId>)
    | Spawn(token: Token, confirmed: bool)
    | Finish(token: Token, outcome: Outcome, now: Time, at: Time)
    | Crash(token: Token)
    | Retry(id: RowId, now: Time)

  ghost predicate Enabled(st: State, step: Step) {
    match step
    case Claim(now, _, locked, batch) => IsBatch(st.rows, locked, now, batch)
    case Spawn(token, confirmed) => token in st.held && st.held[token].item.action.CreateTask?
    case Finish(token, outcome, now, _) =>
      token in st.held
      && (outcome.Delivered? && st.held[token].item.action.CreateTask? ==> st.held[token].spawned)
    case Crash(token) => token in st.held
    case _ => true
  }

  /** The item a claim hands out under one token. */
  function HeldUnder(rows: Rows, batch: seq<RowId>, tokens: nat, now: Time, t: Token): Held
    requires tokens <= t < tokens + |batch| && batch[t - tokens] in rows
  {
    Held(batch[t - tokens], rows[batch[t - tokens]], now + LEASE, false)
  }

  /** The items a batch puts in the claimer's hands. */
  function Taken(rows: Rows, batch: seq<RowId>, tokens: nat, now: Time): map<Token, Held>
    requires forall i :: 0 <= i < |batch| ==> batch[i] in rows
  {
    map t | tokens <= t < tokens + |batch| :: HeldUnder(rows, batch, tokens, now, t)
  }

  ghost function Next(st: State, step: Step): State
    requires Enabled(st, step)
  {
    match step
    case Enqueue(id, callback, event, action, broken, now) =>
      st.(rows := Insert(st.rows, id, NewRow(callback, event, action, broken, now)))
    case Claim(now, _, locked, batch) =>
      st.(rows := ClaimBatch(st.rows, batch, now),
          held := st.held + Taken(st.rows, batch, st.tokens, now),
          tokens := st.tokens + |batch|)
    case Spawn(token, confirmed) =>
      var h := st.held[token];
      st.(tasks := st.tasks + {ChildOf(h.row)},
          log := if ChildOf(h.row) in st.tasks then st.log else st.log + [h.row],
          held := st.held[token := h.(spawned := h.spawned || confirmed)])
    case Finish(token, outcome, now, _) =>
      var h := st.held[token];
      st.(rows := Settle(st.rows, h.row, h.item, outcome, now), held := st.held - {token})
    case Crash(token) => st.(held := st.held - {token})
    case Retry(id, now) => st.(rows := ResetForRetry(st.rows, id, now))
  }

  ghost predicate Run(st: State, steps: seq<Step>, last: State)
    decreases |steps|
  {
    if steps == [] then st == last
    else Enabled(st, steps[0]) && Run(Next(st, steps[0]), steps[1..], last)
  }

  // --------------------------------------------------------- claiming a batch

  /** A row as the claim leaves it. */
  function InHand(row: Row, now: Time): Row {
    row.(status := InFlight, lease := Some(now + LEASE))
  }

  lemma {:induction false} ClaimBatchEffect(rows: Rows, batch: seq<RowId>, now: Time)
    requires Distinct(batch) && forall i :: 0 <= i < |batch| ==> batch[i] in rows && Due(rows[batch[i]], now)
    ensures ClaimBatch(rows, batch, now).Keys == rows.Keys
    ensures forall r :: r in rows ==>
      ClaimBatch(rows, batch, now)[r] == (if r in batch then InHand(rows[r], now) else rows[r])
  {
    if batch != [] {
      var n := |batch| - 1;
      ClaimBatchEffect(rows, batch[..n], now);
      assert batch == batch[..n] + [batch[n]];
      assert batch[n] !in batch[..n];
    }
  }

  // ------------------------------------------------------------- the invariant

  /** Which columns are set in which status. */
  predicate ColumnsOk(row: Row) {
    match row.status
    case Pending => row.nextAt.Some? && row.lease.None?
    case Failed => row.nextAt.Some? && row.lease.None?
    case InFlight => row.nextAt.Some? && row.lease.Some?
    case Completed => row.nextAt.None? && row.lease.None?
    case DeadLetter => row.nextAt.None? && row.lease.None?
  }

  /** A recorded child is the row's own, exists, and is recorded exactly by the
      completed create_task rows. */
  predicate ChildOk(id: RowId, row: Row, tasks: set<TaskId>) {
    && (row.child.Some? <==> row.status.Completed? && row.action.CreateTask?)
    && (row.child.Some? ==> row.child.value == ChildOf(id) && ChildOf(id) in tasks)
  }

  ghost predicate RowsOk(st: State) {
    && (forall r :: r in st.rows ==> ColumnsOk(st.rows[r]) && ChildOk(r, st.rows[r], st.tasks))
    && (forall r, q :: r in st.rows && q in st.rows && SameKey(st.rows[r], st.rows[q]) ==> r == q)
  }

  /** An item in hand still describes its row. */
  predicate ItemOk(h: Held, rows: Rows, tasks: set<TaskId>) {
    && h.row in rows
    && SameDelivery(h.item, rows[h.row])
    && (h.spawned ==> ChildOf(h.row) in tasks)
  }

  /** What no statement changes in a row. */
  predicate SameDelivery(a: Row, b: Row) {
    SameKey(a, b) && a.action == b.action && a.maxAttempts == b.maxAttempts
  }

  /** Rows change only in columns that do not say what they deliver. */
  ghost predicate SameDeliveries(rows: Rows, rows': Rows) {
    rows.Keys == rows'.Keys && forall r :: r in rows ==> SameDelivery(rows[r], rows'[r])
  }

  ghost predicate HeldOk(st: State) {
    forall t :: t in st.held ==> t < st.tokens && ItemOk(st.held[t], st.rows, st.tasks)
  }

  ghost predicate LogOk(st: State) {
    && (forall i :: 0 <= i < |st.log| ==> st.log[i] in st.rows && ChildOf(st.log[i]) in st.tasks)
    && (forall i, j :: 0 <= i < j < |st.log| ==> st.log[i] != st.log[j])
  }

  ghost predicate Inv(st: State) {
    RowsOk(st) && HeldOk(st) && LogOk(st)
  }

  lemma EnqueueKeepsInv(st: State, step: Step)
    requires Inv(st) && step.Enqueue?
    ensures Inv(Next(st, step))
  {
  }

  /** A step that keeps deliveries, the tasks and the log, and hands out no item
      keeps the invariant if it keeps every row in order. */
  lemma QuietStepKeepsInv(st: State, st': State)
    requires Inv(st) && SameDeliveries(st.rows, st'.rows)
    requires st'.tasks == st.tasks && st'.log == st.log && st'.tokens == st.tokens
    requires forall t :: t in st'.held ==> t in st.held && st'.held[t] == st.held[t]
    requires forall r :: r in st'.rows ==> ColumnsOk(st'.rows[r]) && ChildOk(r, st'.rows[r], st'.tasks)
    ensures Inv(st')
  {
    assert RowsOk(st') by {
      forall r, q | r in st'.rows && q in st'.rows && SameKey(st'.rows[r], st'.rows[q]) ensures r == q {
        assert SameKey(st.rows[r], st.rows[q]);
      }
    }
  }

  lemma ClaimKeepsInv(st: State, step: Step)
    requires Inv(st) && Enabled(st, step) && step.Claim?
    ensures Inv(Next(st, step))
  {
    ClaimBatchEffect(st.rows, step.batch, step.now);
    var st' := Next(st, step);
    QuietStepKeepsInv(st, st.(rows := st'.rows));
    forall t | t in st'.held ensures t < st'.tokens && ItemOk(st'.held[t], st'.rows, st'.tasks) {
      if t in Taken(st.rows, step.batch, st.tokens, step.now) {
        assert st'.held[t] == HeldUnder(st.rows, step.batch, st.tokens, step.now, t);
      } else {
        assert ItemOk(st.held[t], st.rows, st.tasks);
      }
    }
  }

  lemma SpawnKeepsInv(st: State, step: Step)
    requires Inv(st) && Enabled(st, step) && step.Spawn?
    ensures Inv(Next(st, step))
  {
    var h := st.held[step.token];
    if h.row in st.log {
      var i :| 0 <= i < |st.log| && st.log[i] == h.row;
    }
  }

  /** A settlement writes one row in flight. */
  lemma SettledRow(id: RowId, row: Row, item: Row, outcome: Outcome, now: Time, tasks: set<TaskId>, settled: Row)
    requires ColumnsOk(row) && ChildOk(id, row, tasks) && row.status.InFlight? && item.action == row.action
    requires outcome.Delivered? && item.action.CreateTask? ==> ChildOf(id) in tasks
    requires settled == Settle(map[id := row], id, item, outcome, now)[id]
    ensures ColumnsOk(settled) && ChildOk(id, settled, tasks) && SameDelivery(row, settled)
  {
  }

  lemma SettleIsLocal(rows: Rows, id: RowId, item: Row, outcome: Outcome, now: Time)
    requires id in rows
    ensures Settle(rows, id, item, outcome, now) ==
      if rows[id].status.InFlight? then rows[id := Settle(map[id := rows[id]], id, item, outcome, now)[id]] else rows
  {
  }

  lemma FinishKeepsInv(st: State, step: Step)
    requires Inv(st) && Enabled(st, step) && step.Finish?
    ensures Inv(Next(st, step))
  {
    var h := st.held[step.token];
    assert ItemOk(h, st.rows, st.tasks);
    var row := st.rows[h.row];
    SettleIsLocal(st.rows, h.row, h.item, step.outcome, step.now);
    if row.status.InFlight? {
      var settled := Settle(map[h.row := row], h.row, h.item, step.outcome, step.now)[h.row];
      SettledRow(h.row, row, h.item, step.outcome, step.now, st.tasks, settled);
      RowReplaced(st, h.row, settled, Next(st, step), step.token);
    } else {
      QuietStepKeepsInv(st, Next(st, step));
    }
  }

  lemma RowReplaced(st: State, id: RowId, row: Row, st': State, t: Token)
    requires Inv(st) && id in st.rows && ColumnsOk(row) && ChildOk(id, row, st.tasks) && SameDelivery(st.rows[id], row)
    requires st' == st.(rows := st.rows[id := row], held := st.held - {t})
    ensures Inv(st')
  {
    QuietStepKeepsInv(st, st');
  }

  lemma RetryOrCrashKeepsInv(st: State, step: Step)
    requires Inv(st) && Enabled(st, step) && (step.Crash? || step.Retry?)
    ensures Inv(Next(st, step))
  {
    QuietStepKeepsInv(st, Next(st, step));
  }

  lemma StepKeepsInv(st: State, step: Step)
    requires Inv(st) && Enabled(st, step)
    ensures Inv(Next(st, step))
  {
    match step
    case Enqueue(_, _, _, _, _, _) => EnqueueKeepsInv(st, step);
    case Claim(_, _, _, _) => ClaimKeepsInv(st, step);
    case Spawn(_, _) => SpawnKeepsInv(st, step);
    case Finish(_, _, _, _) => FinishKeepsInv(st, step);
    case _ => RetryOrCrashKeepsInv(st, step);
  }

  lemma {:induction false} RunKeepsInv(st: State, steps: seq<Step>, last: State)
    requires Inv(st) && Run(st, steps, last)
    ensures Inv(last)
    decreases |steps|
  {
    if steps != [] {
      StepKeepsInv(st, steps[0]);
      RunKeepsInv(Next(st, steps[0]), steps[1..], last);
    }
  }

  // --------------------------------------------------- exactly-once child tasks

  /** However workers crash, lose their leases and are taken over, and whatever
      operators retry, at most one child task is ever created for one callback
      and event. */
  lemma AtMostOneChild(steps: seq<Step>, st: State, i: nat, j: nat)
    requires Run(Initial, steps, st)
    requires i < |st.log| && j < |st.log|
    ensures st.log[i] in st.rows && st.log[j] in st.rows
    ensures SameKey(st.rows[st.log[i]], st.rows[st.log[j]]) ==> i == j
  {
    RunKeepsInv(Initial, steps, st);
  }

  /** A completed create_task row names an existing task, its deterministic
      child, and no two rows name the same one. */
  lemma CompletedNamesItsChild(steps: seq<Step>, st: State, r: RowId, q: RowId)
    requires Run(Initial, steps, st)
    requires r in st.rows && st.rows[r].action.CreateTask? && st.rows[r].status.Completed?
    ensures st.rows[r].child == Some(ChildOf(r)) && ChildOf(r) in st.tasks
    ensures q in st.rows && st.rows[q].child == st.rows[r].child ==> q == r
  {
    RunKeepsInv(Initial, steps, st);
  }

  // ----------------------------------------------------------- nothing stranded

  /** completed is left by no step, operator retries included, and a row never
      changes what it delivers. */
  lemma {:induction false} CompletedIsAbsorbing(st: State, steps: seq<Step>, last: State, r: RowId)
    requires Run(st, steps, last) && r in st.rows
    ensures r in last.rows && SameKey(last.rows[r], st.rows[r]) && last.rows[r].action == st.rows[r].action
    ensures st.rows[r].status.Completed? ==> last.rows[r] == st.rows[r]
    decreases |steps|
  {
    if steps != [] {
      var step := steps[0];
      if step.Claim? {
        ClaimBatchEffect(st.rows, step.batch, step.now);
      }
      CompletedIsAbsorbing(Next(st, step), steps[1..], last, r);
    }
  }

  /** The instant after which the claim query selects a row. */
  function DueFrom(row: Row): Time
    requires ColumnsOk(row) && !row.status.Completed? && !row.status.DeadLetter?
  {
    if row.status.InFlight? then row.lease.value + 1 else row.nextAt.value
  }

  /** No delivery is stranded: every reachable row that is not terminal is
      selected by the claim query exactly from some instant on, and a terminal
      row never is. */
  lemma NothingStranded(steps: seq<Step>, st: State, r: RowId, now: Time)
    requires Run(Initial, steps, st) && r in st.rows
    ensures ColumnsOk(st.rows[r])
    ensures if st.rows[r].status.Completed? || st.rows[r].status.DeadLetter? then !Due(st.rows[r], now)
            else Due(st.rows[r], now) <==> DueFrom(st.rows[r]) <= now
  {
    RunKeepsInv(Initial, steps, st);
  }

  // ------------------------------------------------- claims partition the queue

  /** The batch moved by one claim is exactly the set that leaves the due rows,
      and every moved row is leased for a minute. */
  lemma ClaimMovesItsBatch(rows: Rows, locked: set<RowId>, batch: seq<RowId>, now: Time)
    requires IsBatch(rows, locked, now, batch)
    ensures var after := ClaimBatch(rows, batch, now);
      && (forall r :: r in batch ==> r in after && after[r].status == InFlight && after[r].lease == Some(now + 60))
      && (forall r :: r in rows && r !in batch ==> r in after && after[r] == rows[r])
      && DueIds(after, {}, now) == DueIds(rows, {}, now) - Members(batch)
  {
    ClaimBatchEffect(rows, batch, now);
  }

  /** Two claims at one instant take disjoint batches. */
  lemma ClaimsAreDisjoint(rows: Rows, locked: set<RowId>, first: seq<RowId>, locked': set<RowId>, second: seq<RowId>, now: Time)
    requires IsBatch(rows, locked, now, first)
    requires IsBatch(ClaimBatch(rows, first, now), locked', now, second)
    ensures forall r :: r in first ==> r !in second
  {
    ClaimMovesItsBatch(rows, locked, first, now);
    forall r | r in first ensures r !in second {
      assert r !in DueIds(ClaimBatch(rows, first, now), {}, now);
    }
  }

  /** A chain of claims at one instant, none of them empty, that leaves nothing due. */
  ghost predicate Drains(rows: Rows, batches: seq<seq<RowId>>, now: Time)
    decreases |batches|
  {
    if batches == [] then DueIds(rows, {}, now) == {}
    else batches[0] != [] && IsBatch(rows, {}, now, batches[0])
         && Drains(ClaimBatch(rows, batches[0], now), batches[1..], now)
  }

  function Members(batch: seq<RowId>): set<RowId> {
    set r | r in batch
  }

  lemma {:induction false} DistinctSize(batch: seq<RowId>)
    requires Distinct(batch)
    ensures |Members(batch)| == |batch|
  {
    if batch != [] {
      DistinctSize(batch[1..]);
      assert batch[0] !in Members(batch[1..]);
      assert Members(batch) == Members(batch[1..]) + {batch[0]};
    }
  }

  lemma SubsetSize(part: set<RowId>, whole: set<RowId>)
    requires part <= whole
    ensures |whole - part| == |whole| - |part|
  {
    assert part + (whole - part) == whole;
  }

  /** A batch takes the limit, or all that is due. */
  lemma BatchSize(rows: Rows, batch: seq<RowId>, now: Time)
    requires IsBatch(rows, {}, now, batch)
    ensures |batch| == if |DueIds(rows, {}, now)| < CLAIM_LIMIT then |DueIds(rows, {}, now)| else CLAIM_LIMIT
  {
    var due, taken := DueIds(rows, {}, now), Members(batch);
    DistinctSize(batch);
    SubsetSize(taken, due);
    if |batch| < CLAIM_LIMIT {
      assert due == taken;
    }
  }

  /** n due rows are drained by exactly n/50 claims, rounded up. */
  lemma {:induction false} DrainedInExactlyThisManyClaims(rows: Rows, batches: seq<seq<RowId>>, now: Time)
    requires Drains(rows, batches, now)
    ensures |batches| == (|DueIds(rows, {}, now)| + 49) / 50
    decreases |batches|
  {
    if batches != [] {
      var batch := batches[0];
      BatchSize(rows, batch, now);
      DistinctSize(batch);
      ClaimMovesItsBatch(rows, {}, batch, now);
      SubsetSize(Members(batch), DueIds(rows, {}, now));
      DrainedInExactlyThisManyClaims(ClaimBatch(rows, batch, now), batches[1..], now);
    }
  }

  // ------------------------------------------------------------ a drain exists

  lemma {:induction false} Earliest(rows: Rows, ids: set<RowId>) returns (first: RowId)
    requires ids <= rows.Keys && ids != {}
    ensures first in ids && forall r :: r in ids ==> Earlier(rows[first], rows[r])
    decreases |ids|
  {
    var any :| any in ids;
    var rest := ids - {any};
    first := any;
    if rest != {} {
      var other := Earliest(rows, rest);
      first := if Earlier(rows[any], rows[other]) then any else other;
      forall r | r in ids ensures Earlier(rows[first], rows[r]) {
        assert r == any || (r in rest && Earlier(rows[other], rows[r]));
      }
    } else {
      assert forall r :: r in ids ==> r == any || r in rest;
    }
  }

  /** The rows in the order of their next attempt. */
  lemma {:induction false} Ordered(rows: Rows, ids: set<RowId>) returns (order: seq<RowId>)
    requires ids <= rows.Keys
    ensures Distinct(order) && Members(order) == ids && |order| == |ids|
    ensures forall i, j :: 0 <= i < j < |order| ==> Earlier(rows[order[i]], rows[order[j]])
    decreases |ids|
  {
    if ids == {} {
      order := [];
    } else {
      var first := Earliest(rows, ids);
      var rest := Ordered(rows, ids - {first});
      order := [first] + rest;
      assert forall j :: 0 <= j < |rest| ==> rest[j] in Members(rest);
      assert Members(order) == {first} + Members(rest);
    }
  }

  /** The claim query has a result, empty only when nothing is due. */
  lemma SomeBatch(rows: Rows, now: Time) returns (batch: seq<RowId>)
    ensures IsBatch(rows, {}, now, batch) && (batch == [] <==> DueIds(rows, {}, now) == {})
  {
    var due := DueIds(rows, {}, now);
    var order := Ordered(rows, due);
    batch := if |order| <= CLAIM_LIMIT then order else order[..CLAIM_LIMIT];
    forall i | 0 <= i < |batch| ensures batch[i] in due {
      assert order[i] in Members(order);
    }
    forall i, r | 0 <= i < |batch| && r in due && r !in batch ensures Earlier(rows[batch[i]], rows[r]) {
      assert r in Members(order);
      var j :| 0 <= j < |order| && order[j] == r;
      assert j >= |batch|;
    }
    forall r | r in due ensures r in order {
      assert r in Members(order);
    }
  }

  /** Claims at one instant can always drain what is due, and then need exactly n/50
      of them, rounded up. */
  lemma {:induction false} SomeDrain(rows: Rows, now: Time) returns (batches: seq<seq<RowId>>)
    ensures Drains(rows, batches, now)
    ensures |batches| == (|DueIds(rows, {}, now)| + 49) / 50
    decreases |DueIds(rows, {}, now)|
  {
    batches := [];
    var batch := SomeBatch(rows, now);
    if batch != [] {
      var after := ClaimBatch(rows, batch, now);
      DistinctSize(batch);
      ClaimMovesItsBatch(rows, {}, batch, now);
      SubsetSize(Members(batch), DueIds(rows, {}, now));
      var rest := SomeDrain(after, now);
      batches := [batch] + rest;
      assert batches[1..] == rest;
    }
    DrainedInExactlyThisManyClaims(rows, batches, now);
  }
}
