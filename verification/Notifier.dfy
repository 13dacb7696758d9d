/** internal/service/claim_notifier.go and the long poll that uses it. */
module Notifier {

  /** A Go channel used only for its closing. */
  class Channel {
    var open: bool

    constructor ()
      ensures open
    {
      open := true;
    }

    /** close(ch), which panics on a closed channel. */
    method Close()
      requires open
      modifies this
      ensures !open
    {
      open := false;
    }
  }

  class ClaimNotifier {
    var ch: Channel
    /** Every channel ever installed, oldest first. */
    ghost var installed: seq<Channel>

    /** The current channel is the last one installed, it is the only open one,
        and no channel was installed twice. */
    ghost predicate Valid()
      reads this, installed
    {
      && installed != []
      && ch == installed[|installed| - 1]
      && (forall i :: 0 <= i < |installed| ==> (installed[i].open <==> i == |installed| - 1))
      && (forall i, j :: 0 <= i < j < |installed| ==> installed[i] != installed[j])
    }

    constructor ()
      ensures Valid() && fresh(installed) && |installed| == 1
    {
      ch := new Channel();
      installed := [ch];
    }

    /** Closes the current channel, and no other, and installs a fresh one. */
    method Notify()
      requires Valid()
      modifies this, ch
      ensures Valid() && fresh(ch)
      ensures installed == old(installed) + [ch]
      ensures old(ch.open) && !old(ch).open
    {
      ch.Close();
      ch := new Channel();
      installed := installed + [ch];
    }

    method WaitCh() returns (current: Channel)
      requires Valid()
      ensures current == ch && current.open && current == installed[|installed| - 1]
    {
      current := ch;
    }
  }

  // ------------------------------------------- submitters, pollers, interleaved

  type Submission = nat
  type PollerId = nat

  /** Where one long poll stands. Channels are named by their position in the
      order of installation. */
  datatype Poll =
    | Idle
    | Holding(ch: nat)
    | Waiting(ch: nat, seen: set<Submission>)

  /** current is the channel installed last; closes[i] counts how often channel
      i was closed. committed holds the submissions whose rows are visible to a
      poll, notified those whose notify has returned. */
  datatype State = State(
    closes: seq<nat>,
    committed: set<Submission>,
    notified: set<Submission>,
    polls: map<PollerId, Poll>)
  {
    function Current(): nat {
      if closes == [] then 0 else |closes| - 1
    }

    predicate Open(ch: int) {
      0 <= ch < |closes| && closes[ch] == 0
    }
  }

  datatype Step =
    | Commit(s: Submission)
    | NotifyAfter(s: Submission)
    | Snapshot(p: PollerId)
    | CheckQueue(p: PollerId, found: bool)
    | Wake(p: PollerId)
    | TimeOut(p: PollerId)

  predicate Enabled(st: State, step: Step) {
    match step
    case Commit(s) => s !in st.committed
    case NotifyAfter(s) => s in st.committed && st.closes != []
    case Snapshot(p) => p !in st.polls || st.polls[p].Idle?
    case CheckQueue(p, found) => p in st.polls && st.polls[p].Holding?
    case Wake(p) => p in st.polls && st.polls[p].Waiting? && !st.Open(st.polls[p].ch)
    case TimeOut(p) => p in st.polls && st.polls[p].Waiting?
  }

  /** One step. A notify closes the current channel and installs the next; a
      poll that finds nothing waits, having seen every committed submission. */
  function Next(st: State, step: Step): State
    requires Enabled(st, step)
  {
    match step
    case Commit(s) => st.(committed := st.committed + {s})
    case NotifyAfter(s) =>
      var cur := st.Current();
      st.(closes := st.closes[cur := st.closes[cur] + 1] + [0], notified := st.notified + {s})
    case Snapshot(p) => st.(polls := st.polls[p := Holding(st.Current())])
    case CheckQueue(p, found) =>
      if found then st.(polls := st.polls[p := Idle])
      else st.(polls := st.polls[p := Waiting(st.polls[p].ch, st.committed)])
    case Wake(p) => st.(polls := st.polls[p := Idle])
    case TimeOut(p) => st.(polls := st.polls[p := Idle])
  }

  const Initial := State([0], {}, {}, map[])

  ghost predicate Run(st: State, steps: seq<Step>, last: State)
    decreases |steps|
  {
    if steps == [] then st == last
    else Enabled(st, steps[0]) && Run(Next(st, steps[0]), steps[1..], last)
  }

  ghost predicate Inv(st: State) {
    && st.closes != []
    && (forall i :: 0 <= i < |st.closes| - 1 ==> st.closes[i] == 1)
    && st.closes[|st.closes| - 1] == 0
    && st.notified <= st.committed
    && (forall p :: p in st.polls && !st.polls[p].Idle? ==> st.polls[p].ch < |st.closes|)
    && (forall p :: p in st.polls && st.polls[p].Waiting? && st.polls[p].ch == st.Current() ==>
          st.notified <= st.polls[p].seen)
  }

  lemma StepKeepsInv(st: State, step: Step)
    requires Inv(st) && Enabled(st, step)
    ensures Inv(Next(st, step))
  {
  }

  lemma {:induction false} RunKeepsInv(st: State, steps: seq<Step>, last: State)
    requires Inv(st) && Run(st, steps, last)
    ensures Inv(last)
    decreases |steps|
  {
    if steps != [] {
      StepKeepsInv(st, steps[0]);
      RunKeepsInv(Next(st, steps[0]), steps[1..], last);
    }
  }

  /** No lost wake-up: however submitters and pollers interleave, a poller
      blocked on an open channel has seen every submission whose notify has
      returned. */
  lemma NoLostWakeUp(steps: seq<Step>, st: State, p: PollerId, s: Submission)
    requires Run(Initial, steps, st)
    requires p in st.polls && st.polls[p].Waiting? && st.Open(st.polls[p].ch)
    requires s in st.notified
    ensures s in st.polls[p].seen
  {
    RunKeepsInv(Initial, steps, st);
    assert st.polls[p].ch == st.Current();
  }

  /** A notify lets every poller that waits go on. */
  lemma NotifyWakesAll(steps: seq<Step>, st: State, s: Submission, p: PollerId)
    requires Run(Initial, steps, st) && Enabled(st, NotifyAfter(s))
    requires p in st.polls && st.polls[p].Waiting?
    ensures Enabled(Next(st, NotifyAfter(s)), Wake(p))
  {
    RunKeepsInv(Initial, steps, st);
  }

  /** A new submission reaches every poller that waits: once it is notified, the
      poller may wake and poll again, and then has seen it. */
  lemma SubmissionIsSeen(steps: seq<Step>, st: State, s: Submission, p: PollerId) returns (last: State)
    requires Run(Initial, steps, st) && s !in st.committed
    requires p in st.polls && st.polls[p].Waiting?
    ensures Run(st, [Commit(s), NotifyAfter(s), Wake(p), Snapshot(p), CheckQueue(p, false)], last)
    ensures s in last.notified && p in last.polls && last.polls[p].Waiting? && last.Open(last.polls[p].ch)
    ensures s in last.polls[p].seen
  {
    RunKeepsInv(Initial, steps, st);
    var added := Next(st, Commit(s));
    var told := Next(added, NotifyAfter(s));
    var woken := Next(told, Wake(p));
    var held := Next(woken, Snapshot(p));
    last := Next(held, CheckQueue(p, false));
    assert Run(held, [CheckQueue(p, false)], last);
    assert Run(woken, [Snapshot(p), CheckQueue(p, false)], last);
    assert Run(told, [Wake(p), Snapshot(p), CheckQueue(p, false)], last);
    assert Run(added, [NotifyAfter(s), Wake(p), Snapshot(p), CheckQueue(p, false)], last);
  }

  /** In every reachable state exactly the current channel is open, so notify
      never closes a closed channel, and every other was closed exactly once. */
  lemma ClosedExactlyOnce(steps: seq<Step>, st: State, ch: nat)
    requires Run(Initial, steps, st) && ch < |st.closes|
    ensures st.closes[ch] == if ch == st.Current() then 0 else 1
  {
    RunKeepsInv(Initial, steps, st);
  }
}
