/** internal/service/placeholders.go: positional placeholders for PostgreSQL. */
module Placeholders {
  import opened Decimal

  datatype Dialect = MySql | Postgres

  /** The number of '?' in a query. */
  function Marks(q: string): nat {
    if q == "" then 0 else (if q[0] == '?' then 1 else 0) + Marks(q[1..])
  }

  /** The k-th placeholder of a PostgreSQL statement. */
  function Dollar(k: nat): (s: string)
    ensures '?' !in s
  {
    "$" + Digits(k)
  }

  /** The simultaneous rewrite: the marks, numbered from k, become $k, $k+1, ...
      and every other character is kept in place. */
  function Rewrite(q: string, k: nat): string {
    if q == "" then ""
    else (if q[0] == '?' then Dollar(k) else [q[0]]) + Rewrite(q[1..], if q[0] == '?' then k + 1 else k)
  }

  /** strings.Replace(q, "?", text, 1). */
  function ReplaceFirst(q: string, text: string): string {
    if q == "" then ""
    else if q[0] == '?' then text + q[1..]
    else [q[0]] + ReplaceFirst(q[1..], text)
  }

  method SqlPlaceholders(dialect: Dialect, count: nat) returns (placeholders: array<string>)
    ensures fresh(placeholders) && placeholders.Length == count
    ensures forall i :: 0 <= i < count ==> placeholders[i] == if dialect.Postgres? then Dollar(i + 1) else "?"
  {
    placeholders := new string[count];
    for i := 0 to count
      invariant forall j :: 0 <= j < i ==> placeholders[j] == if dialect.Postgres? then Dollar(j + 1) else "?"
    {
      if dialect.Postgres? {
        placeholders[i] := "$" + Digits(i + 1);
        continue;
      }
      placeholders[i] := "?";
    }
  }

  lemma {:induction false} FirstMarkReplaced(done: string, rest: string, text: string)
    requires '?' !in done
    ensures ReplaceFirst(done + rest, text) == done + ReplaceFirst(rest, text)
  {
    if done == "" {
      assert done + rest == rest && done + ReplaceFirst(rest, text) == ReplaceFirst(rest, text);
    } else {
      assert done[0] in done;
      assert (done + rest)[1..] == done[1..] + rest;
      FirstMarkReplaced(done[1..], rest, text);
    }
  }

  /** The text before the first mark and after it. */
  lemma {:induction false} SplitAtMark(q: string, k: nat) returns (head: string, tail: string)
    requires Marks(q) > 0
    ensures '?' !in head && q == head + "?" + tail && Marks(tail) == Marks(q) - 1
    ensures Rewrite(q, k) == head + Dollar(k) + Rewrite(tail, k + 1)
    ensures forall text :: ReplaceFirst(q, text) == head + text + tail
  {
    if q[0] == '?' {
      head, tail := "", q[1..];
      assert q == "" + "?" + tail;
    } else {
      var h, t := SplitAtMark(q[1..], k);
      head, tail := [q[0]] + h, t;
      assert q == [q[0]] + q[1..];
      forall text ensures ReplaceFirst(q, text) == head + text + tail {
        assert ReplaceFirst(q[1..], text) == h + text + t;
      }
    }
  }

  lemma {:induction false} NoMarks(q: string, k: nat)
    requires Marks(q) == 0
    ensures Rewrite(q, k) == q
  {
    if q != "" {
      NoMarks(q[1..], k);
    }
  }

  /** One turn of the loop: the text already rewritten grows past one mark. */
  lemma NextMark(done: string, rest: string, k: nat) returns (done': string, rest': string)
    requires '?' !in done && Marks(rest) > 0
    ensures '?' !in done' && Marks(rest') == Marks(rest) - 1
    ensures ReplaceFirst(done + rest, Dollar(k)) == done' + rest'
    ensures done + Rewrite(rest, k) == done' + Rewrite(rest', k + 1)
  {
    var head, tail := SplitAtMark(rest, k);
    FirstMarkReplaced(done, rest, Dollar(k));
    done', rest' := done + head + Dollar(k), tail;
    Regroup(done, head, Dollar(k), tail);
    Regroup(done, head, Dollar(k), Rewrite(tail, k + 1));
    NoMarkIn(done, head, Dollar(k));
  }

  lemma Regroup(a: string, b: string, c: string, d: string)
    ensures a + (b + c + d) == a + b + c + d
  {
  }

  lemma NoMarkIn(a: string, b: string, c: string)
    requires '?' !in a && '?' !in b && '?' !in c
    ensures '?' !in a + b + c
  {
  }

  /** Replacing the first mark again and again is the simultaneous rewrite. */
  method SqlQuery(dialect: Dialect, query: string) returns (out: string)
    ensures dialect.MySql? ==> out == query
    ensures dialect.Postgres? ==> out == Rewrite(query, 1)
  {
    if !dialect.Postgres? {
      return query;
    }
    out := query;
    var n := Marks(query);
    var placeholders := SqlPlaceholders(dialect, n);
    ghost var done, rest := "", query;
    for i := 0 to n
      invariant '?' !in done && out == done + rest
      invariant Marks(rest) == n - i
      invariant forall j :: 0 <= j < n ==> placeholders[j] == Dollar(j + 1)
      invariant Rewrite(query, 1) == done + Rewrite(rest, i + 1)
    {
      ghost var done', rest' := NextMark(done, rest, i + 1);
      out := ReplaceFirst(out, placeholders[i]);
      done, rest := done', rest';
    }
    NoMarks(rest, n + 1);
  }

  // ------------------------------------------------- what the rewrite promises

  /** No mark is left. */
  lemma {:induction false} RewriteLeavesNoMark(q: string, k: nat)
    ensures '?' !in Rewrite(q, k)
  {
    if q != "" {
      RewriteLeavesNoMark(q[1..], if q[0] == '?' then k + 1 else k);
    }
  }

  /** A mark at position i of the query, with m marks before it, becomes $k+m
      between the rewrites of what precedes and what follows it. */
  lemma {:induction false} MarkIsNumbered(q: string, k: nat, i: nat)
    requires i < |q| && q[i] == '?'
    ensures Rewrite(q, k)
         == Rewrite(q[..i], k) + Dollar(k + Marks(q[..i])) + Rewrite(q[i + 1..], k + Marks(q[..i]) + 1)
  {
    if i > 0 {
      MarkIsNumbered(q[1..], if q[0] == '?' then k + 1 else k, i - 1);
      assert q[1..][..i - 1] == q[..i][1..];
      assert q[1..][i..] == q[i + 1..];
    }
  }
}
