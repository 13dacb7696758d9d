/** internal/service/coordination.go: one cron firing per schedule interval
    across replicas. */
module TriggerLock {
  import opened Basics

  type TriggerId = string

  /** One transaction opened by acquireTriggerLock and held by a finish closure. */
  type Handle = nat

  /** next(t) is the least tick after t. */
  ghost predicate IsSchedule(tick: Time -> bool, next: Time -> Time) {
    && (forall t :: t < next(t) && tick(next(t)))
    && (forall t, u :: t < u < next(t) ==> !tick(u))
  }

  datatype Lock = Lock(trigger: TriggerId, at: Time)

  /** rows is the trigger_locks table (last_triggered_at per trigger), open the
      transactions holding a row lock with an uncommitted marker, finished the
      closures whose flag is set, committed the markers committed so far. */
  datatype State = State(
    rows: map<TriggerId, Option<Time>>,
    open: map<Handle, Lock>,
    finished: set<Handle>,
    committed: seq<Lock>)

  const Initial := State(map[], map[], {}, [])

  predicate Held(st: State, trigger: TriggerId) {
    exists h :: h in st.open && st.open[h].trigger == trigger
  }

  function EnsureRow(st: State, trigger: TriggerId): State {
    if trigger in st.rows then st else st.(rows := st.rows[trigger := None])
  }

  /** The interval of the last committed marker is over at instant at. */
  predicate Due(last: Option<Time>, at: Time, next: Time -> Time) {
    last.None? || next(last.value) <= at
  }

  /** acquireTriggerLock: no closure when the row is locked elsewhere (lock wait
      timeout) or the interval has already been claimed. */
  predicate Acquires(st: State, trigger: TriggerId, at: Time, next: Time -> Time) {
    var st' := EnsureRow(st, trigger);
    !Held(st', trigger) && Due(st'.rows[trigger], at, next)
  }

  function Acquire(st: State, h: Handle, trigger: TriggerId, at: Time, next: Time -> Time): State {
    var st' := EnsureRow(st, trigger);
    if Acquires(st, trigger, at, next) then st'.(open := st'.open[h := Lock(trigger, at)]) else st'
  }

  /** finish(success): the first call ends the transaction, later ones do nothing. */
  function Finish(st: State, h: Handle, success: bool): State {
    if h in st.finished || h !in st.open then st
    else
      var lock := st.open[h];
      var ended := st.(open := st.open - {h}, finished := st.finished + {h});
      if success then ended.(rows := ended.rows[lock.trigger := Some(lock.at)], committed := ended.committed + [lock])
      else ended
  }

  datatype Step =
    | AcquireStep(h: Handle, trigger: TriggerId, at: Time)
    | FinishStep(h: Handle, success: bool)
    | CrashStep(h: Handle)

  /** A crashed replica's transaction is rolled back; its closure is never called. */
  function Crash(st: State, h: Handle): State {
    if h in st.open then st.(open := st.open - {h}, finished := st.finished + {h}) else st
  }

  /** Handles name transactions, so each is used once. */
  predicate Enabled(st: State, step: Step) {
    step.AcquireStep? ==> step.h !in st.open && step.h !in st.finished
  }

  function Next(st: State, step: Step, next: Time -> Time): State {
    match step
    case AcquireStep(h, trigger, at) => Acquire(st, h, trigger, at, next)
    case FinishStep(h, success) => Finish(st, h, success)
    case CrashStep(h) => Crash(st, h)
  }

  ghost predicate Run(st: State, steps: seq<Step>, next: Time -> Time, last: State)
    decreases |steps|
  {
    if steps == [] then st == last
    else Enabled(st, steps[0]) && Run(Next(st, steps[0], next), steps[1..], next, last)
  }

  // ------------------------------------------------------------- the database

  /** One replica's view: the shared table plus the closure it returns. */
  class Coordinator {
    const next: Time -> Time
    var rows: map<TriggerId, Option<Time>>
    var open: map<Handle, Lock>
    var finished: set<Handle>
    ghost var committed: seq<Lock>

    constructor (next: Time -> Time)
      ensures this.next == next && Value() == Initial
    {
      this.next := next;
      rows, open, finished, committed := map[], map[], {}, [];
    }

    ghost function Value(): State
      reads this
    {
      State(rows, open, finished, committed)
    }

    method AcquireTriggerLock(triggerId: TriggerId, triggeredAt: Time, tx: Handle) returns (finish: Option<Handle>)
      requires tx !in open && tx !in finished
      modifies this
      ensures Value() == Acquire(old(Value()), tx, triggerId, triggeredAt, next)
      ensures finish == if Acquires(old(Value()), triggerId, triggeredAt, next) then Some(tx) else None
    {
      if triggerId !in rows {
        rows := rows[triggerId := None];
      }
      var todo, locked := open.Keys, false;
      while todo != {} && !locked
        invariant todo <= open.Keys
        invariant locked ==> Held(Value(), triggerId)
        invariant !locked ==> forall h :: h in open.Keys - todo ==> open[h].trigger != triggerId
        decreases todo, !locked
      {
        var h :| h in todo;
        todo := todo - {h};
        locked := open[h].trigger == triggerId;
      }
      if locked {
        return None;
      }
      var lastTriggeredAt := rows[triggerId];
      if lastTriggeredAt.Some? && triggeredAt < next(lastTriggeredAt.value) {
        return None;
      }
      open := open[tx := Lock(triggerId, triggeredAt)];
      return Some(tx);
    }

    method FinishTx(h: Handle, success: bool)
      requires h in open || h in finished
      modifies this
      ensures Value() == Finish(old(Value()), h, success)
    {
      if h in finished {
        return;
      }
      var lock := open[h];
      finished := finished + {h};
      open := open - {h};
      if success {
        rows := rows[lock.trigger := Some(lock.at)];
        committed := committed + [lock];
      }
    }
  }

  // --------------------------------------------------------------- invariants

  /** The committed markers of one trigger, oldest first. */
  function Markers(committed: seq<Lock>, trigger: TriggerId): seq<Time> {
    if committed == [] then []
    else
      var last := committed[|committed| - 1];
      Markers(committed[..|committed| - 1], trigger) + (if last.trigger == trigger then [last.at] else [])
  }

  /** Consecutive markers lie in different schedule intervals. */
  ghost predicate Separated(markers: seq<Time>, next: Time -> Time) {
    forall i :: 0 <= i < |markers| - 1 ==> next(markers[i]) <= markers[i + 1]
  }

  ghost predicate LastMarker(last: Option<Time>, markers: seq<Time>) {
    if markers == [] then last.None? else last == Some(markers[|markers| - 1])
  }

  ghost predicate Inv(st: State, next: Time -> Time) {
    && (forall h :: h in st.open ==> h !in st.finished && st.open[h].trigger in st.rows)
    && (forall g, h :: g in st.open && h in st.open && st.open[g].trigger == st.open[h].trigger ==> g == h)
    && (forall h :: h in st.open ==> Due(st.rows[st.open[h].trigger], st.open[h].at, next))
    && (forall t :: t in st.rows ==> LastMarker(st.rows[t], Markers(st.committed, t)))
    && (forall t :: t !in st.rows ==> Markers(st.committed, t) == [])
    && (forall t :: Separated(Markers(st.committed, t), next))
  }

  lemma AcquireKeepsInv(st: State, h: Handle, trigger: TriggerId, at: Time, next: Time -> Time)
    requires Inv(st, next) && h !in st.open && h !in st.finished
    ensures Inv(Acquire(st, h, trigger, at, next), next)
  {
    EnsureRowKeepsInv(st, trigger, next);
    if Acquires(st, trigger, at, next) {
      OpenKeepsInv(EnsureRow(st, trigger), h, trigger, at, next);
    }
  }

  lemma OpenKeepsInv(st: State, h: Handle, trigger: TriggerId, at: Time, next: Time -> Time)
    requires Inv(st, next) && h !in st.open && h !in st.finished
    requires trigger in st.rows && !Held(st, trigger) && Due(st.rows[trigger], at, next)
    ensures Inv(st.(open := st.open[h := Lock(trigger, at)]), next)
  {
  }

  lemma EnsureRowKeepsInv(st: State, trigger: TriggerId, next: Time -> Time)
    requires Inv(st, next)
    ensures Inv(EnsureRow(st, trigger), next)
  {
  }

  lemma MarkersSnoc(committed: seq<Lock>, lock: Lock, t: TriggerId)
    ensures Markers(committed + [lock], t)
         == Markers(committed, t) + (if lock.trigger == t then [lock.at] else [])
  {
    assert (committed + [lock])[..|committed|] == committed;
  }

  /** The markers of one trigger after a commit. */
  lemma CommitKeepsMarkers(st: State, h: Handle, next: Time -> Time, t: TriggerId)
    requires Inv(st, next) && h in st.open
    ensures var st' := Finish(st, h, true);
      && Separated(Markers(st'.committed, t), next)
      && if t in st'.rows then LastMarker(st'.rows[t], Markers(st'.committed, t)) else Markers(st'.committed, t) == []
  {
    var lock := st.open[h];
    var markers := Markers(st.committed, t);
    MarkersSnoc(st.committed, lock, t);
    assert Separated(markers, next);
    assert t in st.rows ==> LastMarker(st.rows[t], markers);
    if t == lock.trigger {
      assert Due(st.rows[t], lock.at, next);
      SeparatedSnoc(markers, lock.at, next, st.rows[t]);
    } else {
      assert markers + [] == markers;
    }
  }

  lemma SeparatedSnoc(markers: seq<Time>, at: Time, next: Time -> Time, last: Option<Time>)
    requires Separated(markers, next) && LastMarker(last, markers) && Due(last, at, next)
    ensures Separated(markers + [at], next)
  {
  }

  lemma FinishKeepsInv(st: State, h: Handle, success: bool, next: Time -> Time)
    requires Inv(st, next)
    ensures Inv(Finish(st, h, success), next)
  {
    if h in st.open && success {
      var st' := Finish(st, h, success);
      forall t
        ensures Separated(Markers(st'.committed, t), next)
        ensures if t in st'.rows then LastMarker(st'.rows[t], Markers(st'.committed, t)) else Markers(st'.committed, t) == []
      {
        CommitKeepsMarkers(st, h, next, t);
      }
    }
  }

  lemma {:induction false} RunKeepsInv(st: State, steps: seq<Step>, next: Time -> Time, last: State)
    requires Inv(st, next) && Run(st, steps, next, last)
    ensures Inv(last, next)
    decreases |steps|
  {
    if steps != [] {
      match steps[0] {
        case AcquireStep(h, trigger, at) => AcquireKeepsInv(st, h, trigger, at, next);
        case FinishStep(h, success) => FinishKeepsInv(st, h, success, next);
        case CrashStep(h) =>
      }
      RunKeepsInv(Next(st, steps[0], next), steps[1..], next, last);
    }
  }

  // ------------------------------------------------------- one fire per interval

  /** Two committed markers of a trigger are separated by a tick of its schedule. */
  lemma {:induction false} TickBetween(markers: seq<Time>, i: nat, j: nat, tick: Time -> bool, next: Time -> Time)
    requires IsSchedule(tick, next) && Separated(markers, next) && i < j < |markers|
    ensures tick(next(markers[i])) && markers[i] < next(markers[i]) <= markers[j]
    decreases j
  {
    if i + 1 < j {
      TickBetween(markers, i, j - 1, tick, next);
      assert next(markers[j - 1]) <= markers[j];
    }
  }

  /** The ticks in the half-open interval (a, b]. */
  ghost function Ticks(tick: Time -> bool, a: Time, b: Time): set<Time> {
    set t | a < t <= b && tick(t)
  }

  /** How many markers lie in [a, b]. */
  function CountIn(markers: seq<Time>, a: Time, b: Time): nat {
    if markers == [] then 0
    else
      var n := |markers| - 1;
      CountIn(markers[..n], a, b) + (if a <= markers[n] <= b then 1 else 0)
  }

  /** Only the markers in reach of the interval count. */
  lemma {:induction false} CountTo(markers: seq<Time>, a: Time, b: Time, top: Time)
    requires top <= b && forall i :: 0 <= i < |markers| ==> markers[i] <= top
    ensures CountIn(markers, a, b) == CountIn(markers, a, top)
    ensures top < a ==> CountIn(markers, a, b) == 0
  {
    if markers != [] {
      CountTo(markers[..|markers| - 1], a, b, top);
    }
  }

  /** In plain terms. */
  lemma {:induction false} CountIs(markers: seq<Time>, a: Time, b: Time)
    ensures CountIn(markers, a, b) == |set k | 0 <= k < |markers| && a <= markers[k] <= b|
  {
    var all := set k | 0 <= k < |markers| && a <= markers[k] <= b;
    if markers == [] {
      assert all == {};
    } else {
      var n := |markers| - 1;
      var before := set k | 0 <= k < |markers[..n]| && a <= markers[..n][k] <= b;
      CountIs(markers[..n], a, b);
      assert all == if a <= markers[n] <= b then before + {n} else before;
    }
  }

  lemma {:induction false} MarkersVersusTicks(markers: seq<Time>, a: Time, b: Time, tick: Time -> bool, next: Time -> Time)
    requires IsSchedule(tick, next) && Separated(markers, next)
    ensures CountIn(markers, a, b) <= |Ticks(tick, a, b)| + 1
  {
    if markers != [] {
      var n := |markers| - 1;
      if !(a <= markers[n] <= b) {
        MarkersVersusTicks(markers[..n], a, b, tick, next);
      } else if n > 0 {
        var top := markers[n - 1];
        TickBetween(markers, n - 1, n, tick, next);
        MarkersUpTo(markers, n, tick, next);
        CountTo(markers[..n], a, b, top);
        if a <= top {
          MarkersVersusTicks(markers[..n], a, top, tick, next);
          OneMoreTick(a, top, next(top), b, tick);
        }
      }
    }
  }

  lemma OneMoreTick(a: Time, top: Time, fire: Time, b: Time, tick: Time -> bool)
    requires a <= top < fire <= b && tick(fire)
    ensures |Ticks(tick, a, top)| + 1 <= |Ticks(tick, a, b)|
  {
    assert fire in Ticks(tick, a, b) && fire !in Ticks(tick, a, top);
    SubsetSize(Ticks(tick, a, top) + {fire}, Ticks(tick, a, b));
  }

  /** The last marker is the latest. */
  lemma MarkersUpTo(markers: seq<Time>, n: nat, tick: Time -> bool, next: Time -> Time)
    requires IsSchedule(tick, next) && Separated(markers, next) && 0 < n < |markers|
    ensures forall i :: 0 <= i < n ==> markers[..n][i] <= markers[n - 1]
  {
    forall i | 0 <= i < n ensures markers[..n][i] <= markers[n - 1] {
      if i < n - 1 {
        TickBetween(markers, i, n - 1, tick, next);
      }
    }
  }

  lemma {:induction false} SubsetSize<T>(a: set<T>, b: set<T>)
    requires a <= b
    ensures |a| <= |b|
  {
    if a != {} {
      var x :| x in a;
      SubsetSize(a - {x}, b - {x});
    }
  }

  /** One fire per interval: over any run of any number of replicas, with any
      skew between their clocks, crashes and rollbacks, the commits of one
      trigger in [a, b] number at most one more than the ticks in (a, b]. */
  lemma OneFirePerInterval(
    steps: seq<Step>, st: State, trigger: TriggerId, a: Time, b: Time, tick: Time -> bool, next: Time -> Time)
    requires IsSchedule(tick, next) && Run(Initial, steps, next, st)
    ensures var markers := Markers(st.committed, trigger);
      |set k | 0 <= k < |markers| && a <= markers[k] <= b| <= |set t | a < t <= b && tick(t)| + 1
  {
    RunKeepsInv(Initial, steps, next, st);
    MarkersVersusTicks(Markers(st.committed, trigger), a, b, tick, next);
    CountIs(Markers(st.committed, trigger), a, b);
    assert Ticks(tick, a, b) == set t | a < t <= b && tick(t);
  }

  /** Any two committed markers of a trigger have a tick between them. */
  lemma CommitsSeparatedByTick(
    steps: seq<Step>, st: State, trigger: TriggerId, i: nat, j: nat, tick: Time -> bool, next: Time -> Time)
    requires IsSchedule(tick, next) && Run(Initial, steps, next, st)
    requires i < j < |Markers(st.committed, trigger)|
    ensures var markers := Markers(st.committed, trigger);
      exists t :: markers[i] < t <= markers[j] && tick(t)
  {
    RunKeepsInv(Initial, steps, next, st);
    TickBetween(Markers(st.committed, trigger), i, j, tick, next);
  }

  /** A rolled-back claim leaves the interval claimable: the same acquisition
      succeeds again with a new transaction. A crash is a rollback. */
  lemma RollbackLeavesClaimable(st: State, h: Handle, trigger: TriggerId, at: Time, next: Time -> Time)
    requires Inv(st, next) && h !in st.open && h !in st.finished
    requires Acquires(st, trigger, at, next)
    ensures Acquires(Finish(Acquire(st, h, trigger, at, next), h, false), trigger, at, next)
    ensures Finish(Acquire(st, h, trigger, at, next), h, false).rows == EnsureRow(st, trigger).rows
    ensures Crash(Acquire(st, h, trigger, at, next), h) == Finish(Acquire(st, h, trigger, at, next), h, false)
  {
    var st2 := Finish(Acquire(st, h, trigger, at, next), h, false);
    assert st2.open == st.open;
  }

  /** While one replica is inside its transaction no other acquires the trigger,
      and after it commits none does before the next tick. */
  lemma WinnerTakesInterval(
    st: State, h: Handle, trigger: TriggerId, at: Time, later: Time, tick: Time -> bool, next: Time -> Time)
    requires IsSchedule(tick, next) && Inv(st, next) && h !in st.open && h !in st.finished
    requires Acquires(st, trigger, at, next)
    ensures var inside := Acquire(st, h, trigger, at, next);
      && !Acquires(inside, trigger, later, next)
      && (Acquires(Finish(inside, h, true), trigger, later, next) <==> next(at) <= later)
  {
    var inside := Acquire(st, h, trigger, at, next);
    assert h in inside.open && inside.open[h].trigger == trigger;
  }

  /** In every reachable state a replica acquires a trigger exactly when no transaction
      holds that trigger and a tick came after its last committed marker, or nothing was
      ever committed for it: no interval is lost either. */
  lemma AcquiresExactlyWhenDue(
    steps: seq<Step>, st: State, trigger: TriggerId, at: Time, tick: Time -> bool, next: Time -> Time)
    requires IsSchedule(tick, next) && Run(Initial, steps, next, st)
    ensures var markers := Markers(st.committed, trigger);
      Acquires(st, trigger, at, next) <==>
        && (forall h :: h in st.open ==> st.open[h].trigger != trigger)
        && (markers == [] || TickIn(tick, markers[|markers| - 1], at))
  {
    var markers := Markers(st.committed, trigger);
    AcquiresAfter(steps, st, trigger, at, next, markers);
    if markers != [] {
      NextTick(markers[|markers| - 1], at, tick, next);
    }
  }

  lemma AcquiresAfter(
    steps: seq<Step>, st: State, trigger: TriggerId, at: Time, next: Time -> Time, markers: seq<Time>)
    requires Run(Initial, steps, next, st) && markers == Markers(st.committed, trigger)
    ensures Acquires(st, trigger, at, next) <==>
      && (forall h :: h in st.open ==> st.open[h].trigger != trigger)
      && (markers == [] || next(markers[|markers| - 1]) <= at)
  {
    RunKeepsInv(Initial, steps, next, st);
    assert trigger in st.rows ==> LastMarker(st.rows[trigger], markers);
    var st' := EnsureRow(st, trigger);
    assert Held(st', trigger) <==> exists h :: h in st.open && st.open[h].trigger == trigger;
  }

  ghost predicate TickIn(tick: Time -> bool, after: Time, upTo: Time) {
    exists t :: after < t <= upTo && tick(t)
  }

  /** The next tick has come exactly when any has. */
  lemma NextTick(t: Time, at: Time, tick: Time -> bool, next: Time -> Time)
    requires IsSchedule(tick, next)
    ensures next(t) <= at <==> TickIn(tick, t, at)
  {
    assert tick(next(t));
  }

  /** Repeated finish calls change nothing. */
  lemma FinishIsIdempotent(st: State, h: Handle, success: bool, again: bool)
    ensures h in st.open ==> Finish(Finish(st, h, success), h, again) == Finish(st, h, success)
  {
  }
}
