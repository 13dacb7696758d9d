/** The durable callback outbox: internal/repository/callback_deliveries.sql.go
    and internal/service/callback_deliveries.go. Instants are in seconds. */
module Deliveries {
  import opened Basics

  type RowId = nat
  type CallbackId = nat
  type EventId = nat

  /** Task ids: the deterministic child of a delivery row, or a random id. */
  datatype TaskId = ChildOf(row: RowId) | Random(n: nat)

  datatype Status = Pending | InFlight | Completed | Failed | DeadLetter

  /** create_task deliveries spawn a task; webhook and slack ones send a request. */
  datatype Action = CreateTask | Send

  datatype Row = Row(
    callback: CallbackId,
    event: EventId,
    action: Action,
    status: Status,
    attempts: int,
    maxAttempts: int,
    child: Option<TaskId>,
    lease: Option<Time>,
    nextAt: Option<Time>)

  type Rows = map<RowId, Row>

  const MAX_ATTEMPTS := 3
  const LEASE := 60
  const CLAIM_LIMIT := 50

  // ------------------------------------------------------------ pure decisions

  /** callbackDeliveryBackoff. */
  function Backoff(attempts: int): (delay: Time)
    ensures 1 <= delay <= 30
  {
    if attempts >= 4 then 30
    else if attempts == 3 then 15
    else if attempts == 2 then 5
    else 1
  }

  lemma BackoffGrows(fewer: int, more: int)
    requires fewer <= more
    ensures Backoff(fewer) <= Backoff(more)
    ensures Backoff(fewer) == Backoff(more) <==> fewer == more || more <= 1 || 4 <= fewer
  {
  }

  /** nextCallbackDeliveryAttempt: the status and next instant after a failure. */
  function NextAttempt(now: Time, attemptsAfter: int, maxAttempts: int): (r: (Status, Option<Time>))
    ensures r.0 == DeadLetter <==> attemptsAfter >= maxAttempts
    ensures r.0 == DeadLetter || r.0 == Failed
    ensures r.1.Some? <==> r.0 == Failed
    ensures r.1.Some? ==> now < r.1.value <= now + 30
  {
    if attemptsAfter >= maxAttempts then (DeadLetter, None)
    else (Failed, Some(now + Backoff(attemptsAfter)))
  }

  // ---------------------------------------------------------------- statements

  predicate SameKey(a: Row, b: Row) {
    a.callback == b.callback && a.event == b.event
  }

  /** INSERT ... ON DUPLICATE KEY UPDATE id = id, with the primary key and the
      unique (callback_id, event_id) key. */
  function Insert(rows: Rows, id: RowId, row: Row): Rows {
    if id in rows || exists r :: r in rows && SameKey(rows[r], row) then rows else rows[id := row]
  }

  predicate Claimable(row: Row, now: Time) {
    || row.status.Pending? || row.status.Failed?
    || (row.status.InFlight? && row.lease.Some? && row.lease.value < now)
  }

  function MarkInFlight(rows: Rows, id: RowId, lease: Time, now: Time): Rows {
    if id in rows && Claimable(rows[id], now)
    then rows[id := rows[id].(status := InFlight, lease := Some(lease))]
    else rows
  }

  function MarkSucceeded(rows: Rows, id: RowId, child: Option<TaskId>): Rows {
    if id in rows && rows[id].status.InFlight?
    then rows[id := rows[id].(status := Completed, lease := None, nextAt := None, child := child)]
    else rows
  }

  function MarkFailed(rows: Rows, id: RowId, status: Status, nextAt: Option<Time>): Rows {
    if id in rows && rows[id].status.InFlight?
    then rows[id := rows[id].(status := status, attempts := rows[id].attempts + 1, lease := None, nextAt := nextAt)]
    else rows
  }

  predicate Resettable(rows: Rows, id: RowId) {
    id in rows && (rows[id].status.Failed? || rows[id].status.DeadLetter?)
  }

  function ResetForRetry(rows: Rows, id: RowId, now: Time): Rows {
    if Resettable(rows, id)
    then rows[id := rows[id].(status := Pending, attempts := 0, lease := None, nextAt := Some(now))]
    else rows
  }

  // ------------------------------------------------------------------- enqueue

  /** The row for one callback and event: pending, or directly dead-lettered when
      its configuration can never produce a delivery. */
  function NewRow(callback: CallbackId, event: EventId, action: Action, broken: bool, now: Time): Row {
    if broken then Row(callback, event, action, DeadLetter, 1, MAX_ATTEMPTS, None, None, None)
    else Row(callback, event, action, Pending, 0, MAX_ATTEMPTS, None, None, Some(now))
  }

  // --------------------------------------------------------------------- claim

  /** The predicate of the claim query. */
  predicate Due(row: Row, now: Time) {
    || ((row.status.Pending? || row.status.Failed?) && row.nextAt.Some? && row.nextAt.value <= now)
    || (row.status.InFlight? && row.lease.Some? && row.lease.value < now)
  }

  function DueIds(rows: Rows, locked: set<RowId>, now: Time): set<RowId> {
    set r | r in rows && r !in locked && Due(rows[r], now)
  }

  /** ORDER BY next_attempt_at ASC, with NULL first. */
  predicate Earlier(a: Row, b: Row) {
    a.nextAt.None? || (b.nextAt.Some? && a.nextAt.value <= b.nextAt.value)
  }

  predicate Distinct(batch: seq<RowId>) {
    forall i, j :: 0 <= i < j < |batch| ==> batch[i] != batch[j]
  }

  /** A possible result of the claim query: due, unlocked rows in order of their
      next attempt, none of them passed over for a later one, at most the limit. */
  ghost predicate IsBatch(rows: Rows, locked: set<RowId>, now: Time, batch: seq<RowId>) {
    && Distinct(batch)
    && (forall i :: 0 <= i < |batch| ==> batch[i] in DueIds(rows, locked, now))
    && |batch| <= CLAIM_LIMIT
    && (|batch| < CLAIM_LIMIT ==> forall r :: r in DueIds(rows, locked, now) ==> r in batch)
    && (forall i, j :: 0 <= i < j < |batch| ==> Earlier(rows[batch[i]], rows[batch[j]]))
    && (forall i, r :: 0 <= i < |batch| && r in DueIds(rows, locked, now) && r !in batch ==>
          Earlier(rows[batch[i]], rows[r]))
  }

  /** Marking every row of a batch in flight. */
  function ClaimBatch(rows: Rows, batch: seq<RowId>, now: Time): Rows {
    if batch == [] then rows
    else MarkInFlight(ClaimBatch(rows, batch[..|batch| - 1], now), batch[|batch| - 1], now + LEASE, now)
  }

  // -------------------------------------------------------------------- settle

  /** How one delivery attempt ends, as the code classifies it. */
  datatype Outcome = Delivered | Transient | Terminal

  /** The child recorded by a completed delivery. */
  function ChildFor(id: RowId, action: Action): Option<TaskId> {
    if action.CreateTask? then Some(ChildOf(id)) else None
  }

  /** Recording the outcome of a delivery from the item as it was claimed. */
  function Settle(rows: Rows, id: RowId, item: Row, outcome: Outcome, now: Time): Rows {
    match outcome
    case Delivered => MarkSucceeded(rows, id, ChildFor(id, item.action))
    case Transient =>
      var next := NextAttempt(now, item.attempts + 1, item.maxAttempts);
      MarkFailed(rows, id, next.0, next.1)
    case Terminal => MarkFailed(rows, id, DeadLetter, None)
  }

  // -------------------------------------------------------------------- outbox

  datatype RetryResult = Retried(row: Row) | NotAdmin | NotFound | NotRetryable(status: Status)

  /** What a task submission meets: it fails before the insert, or reaches it;
      the commit of a fresh insert is confirmed or its reply is lost; after a
      duplicate key the existing task is found or the lookup fails. */
  datatype Submission = FailsEarly | Reaches(confirmed: bool, found: bool)

  class Outbox {
    var rows: Rows
    var tasks: set<TaskId>

    constructor ()
      ensures rows == map[] && tasks == {}
    {
      rows, tasks := map[], {};
    }

    /** enqueueCallbackDelivery, enqueueCreateTaskCallbackDelivery and
        enqueueBrokenCallbackDelivery, within the caller's transaction. */
    method Enqueue(id: RowId, callback: CallbackId, event: EventId, action: Action, broken: bool, now: Time)
      modifies this`rows
      ensures rows == Insert(old(rows), id, NewRow(callback, event, action, broken, now))
    {
      var row := Row(callback, event, action, Pending, 0, MAX_ATTEMPTS, None, None, Some(now));
      if broken {
        row := row.(status := DeadLetter, attempts := 1, nextAt := None);
      }
      var duplicate, todo := id in rows, rows.Keys;
      while todo != {} && !duplicate
        invariant todo <= rows.Keys
        invariant duplicate ==> id in rows || exists r :: r in rows && SameKey(rows[r], row)
        invariant !duplicate ==> id !in rows && forall r :: r in rows.Keys - todo ==> !SameKey(rows[r], row)
        decreases todo, !duplicate
      {
        var r :| r in todo;
        todo := todo - {r};
        duplicate := rows[r].callback == callback && rows[r].event == event;
      }
      if !duplicate {
        rows := rows[id := row];
      }
    }

    /** The row a claim query would return next, among candidates. */
    method Earliest(candidates: set<RowId>) returns (first: RowId)
      requires candidates != {} && candidates <= rows.Keys
      ensures first in candidates && forall r :: r in candidates ==> Earlier(rows[first], rows[r])
    {
      first :| first in candidates;
      var todo := candidates - {first};
      while todo != {}
        invariant first in candidates && todo <= candidates
        invariant forall r :: r in candidates - todo ==> Earlier(rows[first], rows[r])
      {
        var r :| r in todo;
        todo := todo - {r};
        if !Earlier(rows[first], rows[r]) {
          first := r;
        }
      }
    }

    /** The claim query: SELECT ... ORDER BY next_attempt_at LIMIT 50 SKIP LOCKED. */
    method SelectDue(now: Time, locked: set<RowId>) returns (batch: seq<RowId>)
      ensures IsBatch(rows, locked, now, batch)
    {
      var left := DueIds(rows, locked, now);
      batch := [];
      while left != {} && |batch| < CLAIM_LIMIT
        invariant |batch| <= CLAIM_LIMIT && Distinct(batch)
        invariant left <= DueIds(rows, locked, now)
        invariant forall i :: 0 <= i < |batch| ==> batch[i] in DueIds(rows, locked, now) && batch[i] !in left
        invariant forall r :: r in DueIds(rows, locked, now) ==> r in left || r in batch
        invariant forall i, j :: 0 <= i < j < |batch| ==> Earlier(rows[batch[i]], rows[batch[j]])
        invariant forall i, r :: 0 <= i < |batch| && r in left ==> Earlier(rows[batch[i]], rows[r])
      {
        var first := Earliest(left);
        batch := batch + [first];
        left := left - {first};
      }
    }

    /** claimDueCallbackDeliveries: the claimed items are the rows as they were
        read, before they were marked. */
    method ClaimDueCallbackDeliveries(now: Time, locked: set<RowId>) returns (batch: seq<RowId>, items: seq<Row>)
      modifies this`rows
      ensures IsBatch(old(rows), locked, now, batch)
      ensures rows == ClaimBatch(old(rows), batch, now)
      ensures |items| == |batch| && forall i :: 0 <= i < |batch| ==> items[i] == old(rows)[batch[i]]
    {
      batch := SelectDue(now, locked);
      items := ReadItems(batch);
      MarkBatch(batch, now);
    }

    /** The rows of a batch as they are. */
    method ReadItems(batch: seq<RowId>) returns (items: seq<Row>)
      requires forall i :: 0 <= i < |batch| ==> batch[i] in rows
      ensures |items| == |batch| && forall i :: 0 <= i < |batch| ==> items[i] == rows[batch[i]]
    {
      items := [];
      for i := 0 to |batch|
        invariant |items| == i && forall k :: 0 <= k < i ==> items[k] == rows[batch[k]]
      {
        items := items + [rows[batch[i]]];
      }
    }

    /** MarkCallbackDeliveryInFlight for every row of a batch. */
    method MarkBatch(batch: seq<RowId>, now: Time)
      modifies this`rows
      ensures rows == ClaimBatch(old(rows), batch, now)
    {
      for i := 0 to |batch|
        invariant rows == ClaimBatch(old(rows), batch[..i], now)
      {
        assert batch[..i + 1][..i] == batch[..i];
        rows := MarkInFlight(rows, batch[i], now + LEASE, now);
      }
      assert batch[..|batch|] == batch;
    }

    /** completeCallbackDelivery. */
    method Complete(id: RowId, child: Option<TaskId>)
      modifies this`rows
      ensures rows == MarkSucceeded(old(rows), id, child)
    {
      if id in rows && rows[id].status.InFlight? {
        rows := rows[id := rows[id].(status := Completed, lease := None, nextAt := None, child := child)];
      }
    }

    /** failCallbackDelivery. */
    method Fail(id: RowId, item: Row, now: Time, terminal: bool)
      modifies this`rows
      ensures rows == Settle(old(rows), id, item, if terminal then Terminal else Transient, now)
    {
      var status, nextAt := DeadLetter, None;
      if !terminal {
        var next := NextAttempt(now, item.attempts + 1, item.maxAttempts);
        status, nextAt := next.0, next.1;
      }
      if id in rows && rows[id].status.InFlight? {
        rows := rows[id := rows[id].(status := status, attempts := rows[id].attempts + 1, lease := None, nextAt := nextAt)];
      }
    }

    /** deliverCallbackDelivery for a webhook or slack row, given what the send did. */
    method DeliverSend(id: RowId, item: Row, sent: Outcome, now: Time)
      requires item.action.Send?
      modifies this`rows
      ensures rows == Settle(old(rows), id, item, sent, now)
    {
      if sent.Delivered? {
        Complete(id, None);
      } else {
        Fail(id, item, now, sent.Terminal?);
      }
    }

    /** deliverCreateTaskCallback: spawn the deterministic child, adopt it when a
        previous attempt created it, record a failure otherwise. permanent says
        how a failure would be classified. */
    method DeliverCreateTask(id: RowId, item: Row, submission: Submission, permanent: bool, now: Time)
      returns (outcome: Outcome)
      requires item.action.CreateTask?
      modifies this
      ensures rows == Settle(old(rows), id, item, outcome, now)
      ensures tasks == if submission.Reaches? then old(tasks) + {ChildOf(id)} else old(tasks)
      ensures outcome.Delivered? <==>
        submission.Reaches? && if ChildOf(id) in old(tasks) then submission.found else submission.confirmed
      ensures !outcome.Delivered? ==> (outcome.Terminal? <==> permanent)
      ensures outcome.Delivered? ==> ChildOf(id) in tasks
    {
      var childTaskId := ChildOf(id);
      if submission.Reaches? {
        var duplicate := childTaskId in tasks;
        tasks := tasks + {childTaskId};
        if (duplicate && submission.found) || (!duplicate && submission.confirmed) {
          Complete(id, Some(childTaskId));
          return Delivered;
        }
      }
      Fail(id, item, now, permanent);
      return if permanent then Terminal else Transient;
    }

    /** RetryCallbackDelivery, the operator's redelivery. */
    method RetryCallbackDelivery(admin: bool, id: RowId, now: Time) returns (result: RetryResult)
      modifies this`rows
      ensures result.Retried? <==> admin && Resettable(old(rows), id)
      ensures rows == if result.Retried? then ResetForRetry(old(rows), id, now) else old(rows)
      ensures result.Retried? ==> result.row == rows[id] && Due(rows[id], now)
      ensures result.NotRetryable? ==> id in rows && result.status == rows[id].status
    {
      if !admin {
        return NotAdmin;
      }
      if id !in rows {
        return NotFound;
      }
      var previous := rows[id].status;
      if !(previous.Failed? || previous.DeadLetter?) {
        return NotRetryable(previous);
      }
      rows := rows[id := rows[id].(status := Pending, attempts := 0, lease := None, nextAt := Some(now))];
      return Retried(rows[id]);
    }
  }
}
