/** What a delivery row is after each operation of the outbox, in plain numbers. */
module DeliveryOutcomes {
  import opened Basics
  import opened Deliveries

  /** Seconds until the retry after the n-th failure. */
  function Wait(failures: int): int {
    if failures <= 1 then 1 else if failures == 2 then 5 else if failures == 3 then 15 else 30
  }

  /** Only the row with this id may differ. */
  ghost predicate OnlyRow(rows: Rows, rows': Rows, id: RowId) {
    rows'.Keys == rows.Keys && forall r :: r in rows && r != id ==> rows'[r] == rows[r]
  }

  /** The row a settlement leaves. An item that failed n times before and fails again
      with attempts left waits 1, 5, 15 and then 30 seconds. */
  function Settled(id: RowId, row: Row, item: Row, outcome: Outcome, now: Time): Row {
    match outcome
    case Delivered =>
      row.(status := Completed, lease := None, nextAt := None, child := if item.action.CreateTask? then Some(ChildOf(id)) else None)
    case Transient =>
      if item.attempts + 1 < item.maxAttempts
      then row.(status := Failed, attempts := row.attempts + 1, lease := None, nextAt := Some(now + Wait(item.attempts + 1)))
      else row.(status := DeadLetter, attempts := row.attempts + 1, lease := None, nextAt := None)
    case Terminal => row.(status := DeadLetter, attempts := row.attempts + 1, lease := None, nextAt := None)
  }

  /** A settlement touches only its row, and only while it is in flight. The row is due
      again exactly from the end of its wait, after a transient failure with attempts
      left, and never otherwise. */
  lemma SettledIsDueIff(rows: Rows, id: RowId, item: Row, outcome: Outcome, now: Time, later: Time)
    requires id in rows
    ensures var rows' := Settle(rows, id, item, outcome, now);
      && OnlyRow(rows, rows', id)
      && rows'[id] == (if rows[id].status.InFlight? then Settled(id, rows[id], item, outcome, now) else rows[id])
      && (rows[id].status.InFlight? ==>
            (Due(rows'[id], later) <==>
               outcome.Transient? && item.attempts + 1 < item.maxAttempts && now + Wait(item.attempts + 1) <= later))
  {
  }

  /** The same row claimed and failed again and again: its instants of retry. */
  ghost predicate FailsThrough(rows: Rows, id: RowId, fails: seq<Time>, last: Rows)
    decreases |fails|
  {
    if fails == [] then last == rows
    else
      && id in rows && rows[id].status.InFlight? && rows[id].attempts + 1 < rows[id].maxAttempts
      && var failed := Settle(rows, id, rows[id], Transient, fails[0]);
         var due := failed[id].nextAt;
         && due.Some?
         && FailsThrough(MarkInFlight(failed, id, due.value + LEASE, due.value), id, fails[1..], last)
  }

  /** How long the next failure at `now` makes a row in flight wait. */
  function Delay(rows: Rows, id: RowId, now: Time): int
    requires id in rows
  {
    var settled := Settle(rows, id, rows[id], Transient, now);
    if id in settled && settled[id].nextAt.Some? then settled[id].nextAt.value - now else 0
  }

  /** Over a run of failures the delays never shrink. */
  lemma {:induction false} DelaysNeverShrink(rows: Rows, id: RowId, fails: seq<Time>, last: Rows, first: Time, next: Time)
    requires FailsThrough(rows, id, fails, last) && id in rows && rows[id].status.InFlight?
    requires id in last && rows[id].attempts + 1 < rows[id].maxAttempts && last[id].attempts + 1 < last[id].maxAttempts
    ensures last[id].status.InFlight? && last[id].attempts == rows[id].attempts + |fails|
    ensures Delay(rows, id, first) <= Delay(last, id, next)
    decreases |fails|
  {
    SettledIsDueIff(rows, id, rows[id], Transient, first, first);
    if fails != [] {
      SettledIsDueIff(rows, id, rows[id], Transient, fails[0], fails[0]);
      var failed := Settle(rows, id, rows[id], Transient, fails[0]);
      var due := failed[id].nextAt.value;
      var again := MarkInFlight(failed, id, due + LEASE, due);
      assert again[id] == rows[id].(attempts := rows[id].attempts + 1, lease := Some(due + LEASE), nextAt := Some(due));
      if again[id].attempts + 1 < again[id].maxAttempts {
        DelaysNeverShrink(again, id, fails[1..], last, fails[0], next);
        SettledIsDueIff(again, id, again[id], Transient, fails[0], fails[0]);
      }
    } else {
      SettledIsDueIff(rows, id, rows[id], Transient, next, next);
    }
  }

  /** A new delivery is due from the instant it is enqueued, unless its configuration
      is broken: then it counts as failed once and is never due. */
  lemma EnqueuedIsDueIff(rows: Rows, id: RowId, callback: CallbackId, event: EventId, action: Action, broken: bool, now: Time, later: Time)
    requires id !in rows && forall r :: r in rows ==> rows[r].callback != callback || rows[r].event != event
    ensures var rows' := Insert(rows, id, NewRow(callback, event, action, broken, now));
      && rows'.Keys == rows.Keys + {id} && OnlyRow(rows[id := rows'[id]], rows', id)
      && rows'[id].callback == callback && rows'[id].event == event && rows'[id].action == action && rows'[id].child.None?
      && rows'[id].maxAttempts == 3 && rows'[id].attempts == (if broken then 1 else 0)
      && (Due(rows'[id], later) <==> !broken && now <= later)
      && (Resettable(rows', id) <==> broken)
  {
  }

  /** An operator's retry resets exactly a failed or dead-lettered row: it has all its
      attempts back and is due at once. */
  lemma RetryResetsExactly(rows: Rows, id: RowId, now: Time, later: Time)
    ensures var rows' := ResetForRetry(rows, id, now);
      if id in rows && (rows[id].status.Failed? || rows[id].status.DeadLetter?)
      then OnlyRow(rows, rows', id) && (Due(rows'[id], later) <==> now <= later)
           && rows'[id] == rows[id].(status := Pending, attempts := 0, lease := None, nextAt := Some(now))
      else rows' == rows
  {
  }

  /** One claim of a due row, followed by a transient failure. */
  ghost predicate ClaimedAndFailed(rows: Rows, id: RowId, claimed: Time, failed: Time, rows': Rows) {
    && id in rows && Due(rows[id], claimed)
    && var held := ClaimBatch(rows, [id], claimed);
       rows' == Settle(held, id, rows[id], Transient, failed)
  }

  lemma FailureOf(rows: Rows, id: RowId, claimed: Time, failed: Time, rows': Rows)
    requires ClaimedAndFailed(rows, id, claimed, failed, rows')
    requires rows[id].status.Pending? || rows[id].status.Failed?
    ensures OnlyRow(rows, rows', id)
    ensures rows'[id] == Settled(id, rows[id].(status := InFlight, lease := Some(claimed + LEASE)), rows[id], Transient, failed)
  {
    var held := ClaimBatch(rows, [id], claimed);
    var batch: seq<RowId> := [id];
    assert batch[..|batch| - 1] == [] && ClaimBatch(rows, batch, claimed) == MarkInFlight(rows, id, claimed + LEASE, claimed);
    assert held == rows[id := rows[id].(status := InFlight, lease := Some(claimed + LEASE))];
    SettledIsDueIff(held, id, rows[id], Transient, failed, failed);
  }

  /** A delivery that always fails: due at once, again one second after its first
      failure and five after its second, buried by its third, and due at once with all
      its attempts when an operator retries it. */
  lemma FailingDelivery(rows: Rows, id: RowId, callback: CallbackId, event: EventId, action: Action, now: Time,
                        c: seq<Time>, f: seq<Time>, one: Rows, two: Rows, three: Rows, retry: Time, later: Time)
    requires id !in rows && (forall r :: r in rows ==> rows[r].callback != callback || rows[r].event != event)
    requires |c| == |f| == 3
    requires var start := Insert(rows, id, NewRow(callback, event, action, false, now));
      ClaimedAndFailed(start, id, c[0], f[0], one) && ClaimedAndFailed(one, id, c[1], f[1], two) && ClaimedAndFailed(two, id, c[2], f[2], three)
    ensures now <= c[0] && f[0] + 1 <= c[1] && f[1] + 5 <= c[2]
    ensures id in three && three[id].status.DeadLetter? && three[id].attempts == 3 && !Due(three[id], later)
    ensures var again := ResetForRetry(three, id, retry);
      id in again && again[id].status.Pending? && again[id].attempts == 0 && (Due(again[id], later) <==> retry <= later)
  {
    EnqueuedIsDueIff(rows, id, callback, event, action, false, now, c[0]);
    var start := Insert(rows, id, NewRow(callback, event, action, false, now));
    FailureOf(start, id, c[0], f[0], one);
    FailureOf(one, id, c[1], f[1], two);
    FailureOf(two, id, c[2], f[2], three);
    RetryResetsExactly(three, id, retry, later);
  }
}
