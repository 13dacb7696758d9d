/** internal/service/api.go: GetTaskProgress, one page of raw events distilled
    into timeline entries. */
module Timeline {
  import opened Basics

  /** A stored event: its status, its humanised summary and error, and what
      isProgressHeartbeat and isNoiseSummary say of its summary. */
  datatype TaskEvent = TaskEvent(at: Time, status: string, summary: string, error: string, heartbeat: bool, noise: bool)

  datatype Entry = Entry(at: Time, status: string, summary: string, error: string)

  datatype Page = Page(entries: seq<Entry>, hasMore: bool, nextOffset: nat)

  function Min(a: int, b: int): int {
    if a < b then a else b
  }

  function Max(a: int, b: int): int {
    if a < b then b else a
  }

  /** clampProgressLimit. */
  function ClampLimit(limit: int): (r: nat)
    ensures 1 <= r <= 499
    ensures 1 <= limit <= 499 ==> r == limit
    ensures limit <= 0 ==> r == 50
    ensures 499 < limit ==> r == 499
  {
    if limit <= 0 then 50 else Min(limit, 499)
  }

  /** The ListTaskEvents query over the task's events, newest first. */
  function ListTaskEvents(stored: seq<TaskEvent>, limit: nat, offset: nat): seq<TaskEvent> {
    if offset >= |stored| then [] else stored[offset..Min(offset + limit, |stored|)]
  }

  // -------------------------------------------------------------- distillation

  /** The event is worth showing at all. */
  predicate Visible(e: TaskEvent) {
    !e.heartbeat && !(e.status == "running" && e.noise)
  }

  /** The event says again what the last entry said. */
  predicate Repeats(e: TaskEvent, status: string, summary: string) {
    e.status == status && e.summary == summary && e.error == ""
  }

  function EntryOf(e: TaskEvent): Entry {
    Entry(e.at, e.status, e.summary, e.error)
  }

  /** The entries of a list of events, after an entry with the given status and summary. */
  function Distill(events: seq<TaskEvent>, status: string, summary: string): seq<Entry> {
    if events == [] then []
    else
      var e := events[0];
      if Visible(e) && !Repeats(e, status, summary)
      then [EntryOf(e)] + Distill(events[1..], e.status, e.summary)
      else Distill(events[1..], status, summary)
  }

  /** The status and summary of the last entry so far. */
  function LastSaid(events: seq<TaskEvent>, status: string, summary: string): (string, string) {
    if events == [] then (status, summary)
    else if Visible(events[0]) then LastSaid(events[1..], events[0].status, events[0].summary)
    else LastSaid(events[1..], status, summary)
  }

  function Reversed<T>(s: seq<T>): (r: seq<T>)
    ensures |r| == |s|
    ensures forall i :: 0 <= i < |s| ==> r[i] == s[|s| - 1 - i]
  {
    if s == [] then [] else Reversed(s[1..]) + [s[0]]
  }

  lemma {:induction false} DistillSplit(a: seq<TaskEvent>, b: seq<TaskEvent>, status: string, summary: string)
    ensures var said := LastSaid(a, status, summary);
      Distill(a + b, status, summary) == Distill(a, status, summary) + Distill(b, said.0, said.1)
  {
    if a == [] {
      assert a + b == b;
    } else {
      var e := a[0];
      assert (a + b)[1..] == a[1..] + b;
      if Visible(e) {
        DistillSplit(a[1..], b, e.status, e.summary);
      } else {
        DistillSplit(a[1..], b, status, summary);
      }
    }
  }

  lemma {:induction false} LastSaidSplit(a: seq<TaskEvent>, b: seq<TaskEvent>, status: string, summary: string)
    ensures var said := LastSaid(a, status, summary);
      LastSaid(a + b, status, summary) == LastSaid(b, said.0, said.1)
  {
    if a == [] {
      assert a + b == b;
    } else {
      var e := a[0];
      assert (a + b)[1..] == a[1..] + b;
      if Visible(e) {
        LastSaidSplit(a[1..], b, e.status, e.summary);
      } else {
        LastSaidSplit(a[1..], b, status, summary);
      }
    }
  }

  /** The distilling loop and the reversal of its result. */
  method DistillPage(events: seq<TaskEvent>) returns (entries: seq<Entry>)
    ensures entries == Reversed(Distill(events, "", ""))
  {
    var collected: seq<Entry> := [];
    var lastStatus, lastSummary := "", "";
    for i := 0 to |events|
      invariant collected == Distill(events[..i], "", "")
      invariant (lastStatus, lastSummary) == LastSaid(events[..i], "", "")
    {
      var ev := events[i];
      assert events[..i + 1] == events[..i] + [ev];
      assert [ev][1..] == [];
      DistillSplit(events[..i], [ev], "", "");
      LastSaidSplit(events[..i], [ev], "", "");
      if ev.heartbeat {
        continue;
      }
      if ev.status == "running" && ev.noise {
        continue;
      }
      if ev.status == lastStatus && ev.summary == lastSummary && ev.error == "" {
        continue;
      }
      collected := collected + [EntryOf(ev)];
      lastStatus, lastSummary := ev.status, ev.summary;
    }
    assert events[..|events|] == events;
    var out := new Entry[|collected|](i requires 0 <= i < |collected| => collected[i]);
    ReverseInPlace(out);
    entries := out[..];
    assert entries == Reversed(collected);
  }

  method ReverseInPlace(out: array<Entry>)
    modifies out
    ensures out[..] == Reversed(old(out[..]))
  {
    var i, j := 0, out.Length - 1;
    while i < j
      invariant 0 <= i <= out.Length && j == out.Length - 1 - i
      invariant i <= j + 2
      invariant forall k :: 0 <= k < out.Length && (k < i || k > j) ==> out[k] == old(out[out.Length - 1 - k])
      invariant forall k :: 0 <= k < out.Length && i <= k <= j ==> out[k] == old(out[k])
    {
      out[i], out[j] := out[j], out[i];
      i, j := i + 1, j - 1;
    }
    assert out[..] == Reversed(old(out[..]));
  }

  method GetTaskProgress(stored: seq<TaskEvent>, limit: int, offset: int) returns (page: Page)
    ensures var l, o := ClampLimit(limit), Max(offset, 0);
      page == Page(Reversed(Distill(ListTaskEvents(stored, l, o), "", "")),
                   o + l < |stored|, o + |ListTaskEvents(stored, l, o)|)
  {
    var pageLimit, pageOffset := ClampLimit(limit), Max(offset, 0);
    var events := ListTaskEvents(stored, pageLimit + 1, pageOffset);
    var hasMore := |events| > pageLimit;
    if hasMore {
      events := events[..pageLimit];
    }
    assert events == ListTaskEvents(stored, pageLimit, pageOffset);
    var entries := DistillPage(events);
    page := Page(entries, hasMore, pageOffset + |events|);
  }

  // ------------------------------------------------------ following the pages

  /** The raw events behind the pages a reader gets by following nextOffset
      while hasMore, from a given offset. */
  function Follow(stored: seq<TaskEvent>, limit: int, offset: nat): seq<seq<TaskEvent>>
    decreases |stored| - offset
  {
    var l := ClampLimit(limit);
    var events := ListTaskEvents(stored, l, offset);
    if offset + l < |stored| then [events] + Follow(stored, limit, offset + |events|) else [events]
  }

  function Flatten<T>(s: seq<seq<T>>): seq<T> {
    if s == [] then [] else s[0] + Flatten(s[1..])
  }

  /** Whatever the page size, following the pages from the start reads every
      stored event exactly once and in order. */
  lemma {:induction false} PagesCoverHistory(stored: seq<TaskEvent>, limit: int, offset: nat)
    requires offset <= |stored|
    ensures Flatten(Follow(stored, limit, offset)) == stored[offset..]
    decreases |stored| - offset
  {
    var l := ClampLimit(limit);
    var events := ListTaskEvents(stored, l, offset);
    if offset + l < |stored| {
      PagesCoverHistory(stored, limit, offset + l);
      var rest := Follow(stored, limit, offset + l);
      assert ([events] + rest)[1..] == rest;
      assert stored[offset..] == events + stored[offset + l..];
    } else {
      assert [events][1..] == [];
    }
  }

  /** Distilling a page on its own, as a reader of pages sees it, differs from
      distilling it after what came before in at most one entry: its first
      visible event, shown again exactly when it repeats what was last said. */
  lemma {:induction false} RestartAddsAtMostOne(events: seq<TaskEvent>, status: string, summary: string)
    requires forall e :: e in events ==> e.status != ""
    ensures var alone, after := Distill(events, "", ""), Distill(events, status, summary);
      if exists k :: FirstVisible(events, k) && Repeats(events[k], status, summary)
      then alone != [] && alone[1..] == after && alone[0].status == status && alone[0].summary == summary
      else alone == after
  {
    if events != [] {
      var e, rest := events[0], events[1..];
      if Visible(e) {
        assert FirstVisible(events, 0);
        assert forall k :: FirstVisible(events, k) ==> k == 0;
      } else {
        RestartAddsAtMostOne(rest, status, summary);
        forall k ensures FirstVisible(events, k + 1) <==> FirstVisible(rest, k) {
          if FirstVisible(rest, k) {
            forall j | 0 <= j < k + 1 ensures !Visible(events[j]) {
              if j > 0 {
                assert !Visible(rest[j - 1]);
              }
            }
          }
          if FirstVisible(events, k + 1) && 0 <= k {
            forall j | 0 <= j < k ensures !Visible(rest[j]) {
              assert !Visible(events[j + 1]);
            }
          }
        }
        if k :| FirstVisible(events, k) && Repeats(events[k], status, summary) {
          assert FirstVisible(rest, k - 1);
        }
      }
    }
  }

  predicate FirstVisible(events: seq<TaskEvent>, k: int) {
    0 <= k < |events| && Visible(events[k]) && forall j :: 0 <= j < k ==> !Visible(events[j])
  }

  // ------------------------------------------------------- what a page shows

  /** The event is no heartbeat, and no noise while the task runs. */
  predicate Tells(e: TaskEvent) {
    !e.heartbeat && (e.status == "running" ==> !e.noise)
  }

  /** j is the last telling event before k. */
  ghost predicate TellsLast(events: seq<TaskEvent>, j: int, k: int) {
    0 <= j < k <= |events| && Tells(events[j]) && forall m :: j < m < k ==> !Tells(events[m])
  }

  /** Event k says something new: an error always is, anything else when its status or
      its summary differs from the last telling event before it. A page begins as
      after an event with an empty status and an empty summary. */
  ghost predicate News(events: seq<TaskEvent>, k: int)
    requires 0 <= k < |events|
  {
    && Tells(events[k])
    && (events[k].error != ""
        || if exists j :: TellsLast(events, j, k)
           then exists j :: TellsLast(events, j, k) && !(events[k].status == events[j].status && events[k].summary == events[j].summary)
           else !(events[k].status == "" && events[k].summary == ""))
  }

  /** The entries are exactly the news, in order, each with its event's own columns. */
  ghost predicate TellsTheNews(events: seq<TaskEvent>, entries: seq<Entry>, picked: seq<nat>) {
    && |picked| == |entries|
    && (forall m, n :: 0 <= m < n < |picked| ==> picked[m] < picked[n])
    && (forall m :: 0 <= m < |picked| ==> picked[m] < |events|)
    && (forall k :: 0 <= k < |events| ==> (k in picked <==> News(events, k)))
    && (forall m :: 0 <= m < |picked| ==>
          var e := events[picked[m]]; entries[m] == Entry(e.at, e.status, e.summary, e.error))
  }

  lemma {:induction false} LastSaidIs(events: seq<TaskEvent>)
    ensures forall j :: TellsLast(events, j, |events|) ==> LastSaid(events, "", "") == (events[j].status, events[j].summary)
    ensures (forall j :: !TellsLast(events, j, |events|)) ==> LastSaid(events, "", "") == ("", "")
    ensures (exists j :: TellsLast(events, j, |events|)) <==> exists j :: 0 <= j < |events| && Tells(events[j])
    decreases |events|
  {
    if events != [] {
      var n := |events| - 1;
      var init, last := events[..n], events[n];
      assert events == init + [last] && [last][1..] == [];
      LastSaidSplit(init, [last], "", "");
      LastSaidIs(init);
      if Tells(last) {
        assert TellsLast(events, n, |events|);
      } else {
        forall j ensures TellsLast(events, j, |events|) <==> TellsLast(init, j, n) {
          if TellsLast(init, j, n) {
            assert forall m :: j < m < n ==> !Tells(init[m]) && events[m] == init[m];
          }
          if TellsLast(events, j, |events|) {
            assert forall m :: j < m < n ==> events[m] == init[m];
          }
        }
        if j :| 0 <= j < |events| && Tells(events[j]) {
          assert Tells(init[j]);
        }
      }
    }
  }

  /** News depends on nothing that follows. */
  lemma NewsOfPrefix(events: seq<TaskEvent>, n: nat, k: nat)
    requires k < n <= |events|
    ensures News(events[..n], k) <==> News(events, k)
  {
    forall j ensures TellsLast(events[..n], j, k) <==> TellsLast(events, j, k) {
      if TellsLast(events[..n], j, k) {
        assert forall m :: j < m < k ==> !Tells(events[..n][m]) && events[m] == events[..n][m];
      }
      if TellsLast(events, j, k) {
        assert forall m :: j < m < k ==> events[m] == events[..n][m];
      }
    }
  }

  lemma LastNews(events: seq<TaskEvent>)
    requires events != []
    ensures var n := |events| - 1;
      var said := LastSaid(events[..n], "", "");
      Distill([events[n]], said.0, said.1) == if News(events, n) then [EntryOf(events[n])] else []
  {
    var n := |events| - 1;
    assert [events[n]][1..] == [];
    LastSaidIs(events[..n]);
    forall j ensures TellsLast(events, j, n) <==> TellsLast(events[..n], j, n) {
      if TellsLast(events[..n], j, n) {
        assert forall m :: j < m < n ==> !Tells(events[..n][m]) && events[m] == events[..n][m];
      }
      if TellsLast(events, j, n) {
        assert forall m :: j < m < n ==> events[m] == events[..n][m];
      }
    }
  }

  lemma {:induction false} DistillTellsTheNews(events: seq<TaskEvent>) returns (picked: seq<nat>)
    ensures TellsTheNews(events, Distill(events, "", ""), picked)
    decreases |events|
  {
    if events == [] {
      picked := [];
    } else {
      var n := |events| - 1;
      var init := events[..n];
      var before := DistillTellsTheNews(init);
      var said := LastSaid(init, "", "");
      assert events == init + [events[n]];
      DistillSplit(init, [events[n]], "", "");
      LastNews(events);
      picked := if News(events, n) then before + [n] else before;
      NewsAppended(events, Distill(init, "", ""), before, Distill(events, "", ""), picked);
    }
  }

  lemma NewsAppended(events: seq<TaskEvent>, a: seq<Entry>, before: seq<nat>, b: seq<Entry>, picked: seq<nat>)
    requires events != [] && TellsTheNews(events[..|events| - 1], a, before)
    requires var n := |events| - 1;
      if News(events, n) then b == a + [EntryOf(events[n])] && picked == before + [n] else b == a && picked == before
    ensures TellsTheNews(events, b, picked)
  {
    var n := |events| - 1;
    forall k | 0 <= k < |events| ensures k in picked <==> News(events, k) {
      if k < n {
        NewsOfPrefix(events, n, k);
      }
    }
  }

  lemma ReversedHas<T>(s: seq<T>)
    ensures forall x :: x in Reversed(s) <==> x in s
  {
    forall x ensures x in Reversed(s) <==> x in s {
      if x in s {
        var m :| 0 <= m < |s| && s[m] == x;
        assert Reversed(s)[|s| - 1 - m] == x;
      }
    }
  }

  /** A page shows exactly the news among its events, newest last: heartbeats, noise and
      repetitions are left out, and every other event, and every telling one with an
      error, has its own entry with its time, status, summary and error. */
  lemma PageTellsTheNews(events: seq<TaskEvent>) returns (picked: seq<nat>)
    ensures var entries := Reversed(Distill(events, "", ""));
      && |picked| == |entries|
      && (forall m, n :: 0 <= m < n < |picked| ==> picked[m] > picked[n])
      && (forall k :: 0 <= k < |events| ==> (k in picked <==> News(events, k)))
      && (forall m :: 0 <= m < |picked| ==>
            picked[m] < |events| && var e := events[picked[m]]; entries[m] == Entry(e.at, e.status, e.summary, e.error))
  {
    var forward := DistillTellsTheNews(events);
    picked := Reversed(forward);
    ReversedHas(forward);
  }
}
