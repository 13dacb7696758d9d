/** The string searches and trims the repository uses, over decoded characters. */
module Strings {

  /** The characters of unicode.IsSpace. */
  const SPACES := {
    '\t', '\n', '\U{000B}', '\U{000C}', '\r', ' ', '\U{0085}', '\U{00A0}', '\U{1680}',
    '\U{2000}', '\U{2001}', '\U{2002}', '\U{2003}', '\U{2004}', '\U{2005}', '\U{2006}',
    '\U{2007}', '\U{2008}', '\U{2009}', '\U{200A}', '\U{2028}', '\U{2029}', '\U{202F}',
    '\U{205F}', '\U{3000}'
  }

  function TrimLeft(s: string, cut: set<char>): (r: string)
    ensures r != [] ==> r[0] !in cut
    ensures s != [] && s[0] !in cut ==> r == s
  {
    if s != [] && s[0] in cut then TrimLeft(s[1..], cut) else s
  }

  lemma {:induction false} TrimLeftIsSuffix(s: string, cut: set<char>)
    ensures EndsWith(s, TrimLeft(s, cut))
    ensures forall k :: 0 <= k < |s| - |TrimLeft(s, cut)| ==> s[k] in cut
  {
    if s != [] && s[0] in cut {
      var r := TrimLeft(s[1..], cut);
      TrimLeftIsSuffix(s[1..], cut);
      assert s[1..][|s| - 1 - |r|..] == s[|s| - |r|..];
      forall k | 0 < k < |s| - |r| ensures s[k] in cut {
        assert s[1..][k - 1] in cut;
      }
    }
  }

  function TrimRight(s: string, cut: set<char>): (r: string)
    ensures r <= s
    ensures r != [] ==> r[|r| - 1] !in cut
    ensures s != [] && s[|s| - 1] !in cut ==> r == s
  {
    if s != [] && s[|s| - 1] in cut then TrimRight(s[..|s| - 1], cut) else s
  }

  lemma {:induction false} TrimRightCuts(s: string, cut: set<char>)
    ensures forall k :: |TrimRight(s, cut)| <= k < |s| ==> s[k] in cut
  {
    if s != [] && s[|s| - 1] in cut {
      TrimRightCuts(s[..|s| - 1], cut);
      forall k | |TrimRight(s, cut)| <= k < |s| ensures s[k] in cut {
        assert k < |s| - 1 ==> s[..|s| - 1][k] in cut;
      }
    }
  }

  function Trim(s: string, cut: set<char>): string {
    TrimRight(TrimLeft(s, cut), cut)
  }

  lemma {:induction false} TrimIsSlice(s: string, cut: set<char>) returns (i: nat, j: nat)
    ensures i <= j <= |s| && Trim(s, cut) == s[i..j]
    ensures forall k :: 0 <= k < i || j <= k < |s| ==> s[k] in cut
  {
    var l := TrimLeft(s, cut);
    TrimLeftIsSuffix(s, cut);
    TrimRightCuts(l, cut);
    var r := TrimRight(l, cut);
    i, j := |s| - |l|, |s| - |l| + |r|;
    assert l == s[i..];
    assert r == l[..|r|];
    assert l[..|r|] == s[i..][..|r|] == s[i..j];
    forall k | j <= k < |s| ensures s[k] in cut {
      assert s[k] == l[k - i];
    }
  }

  predicate EndsWith(s: string, suffix: string) {
    |suffix| <= |s| && s[|s| - |suffix|..] == suffix
  }

  function TrimSuffix(s: string, suffix: string): string {
    if EndsWith(s, suffix) then s[..|s| - |suffix|] else s
  }

  /** Index of the first character in a set, or -1. */
  function IndexAny(s: string, chars: set<char>): (k: int)
    ensures -1 <= k < |s|
  {
    if s == [] then -1
    else if s[0] in chars then 0
    else
      var k := IndexAny(s[1..], chars);
      if k == -1 then -1 else k + 1
  }

  lemma {:induction false} IndexAnyFinds(s: string, chars: set<char>)
    ensures var k := IndexAny(s, chars);
      && (k >= 0 ==> s[k] in chars && forall j :: 0 <= j < k ==> s[j] !in chars)
      && (k == -1 ==> forall j :: 0 <= j < |s| ==> s[j] !in chars)
  {
    if s != [] && s[0] !in chars {
      IndexAnyFinds(s[1..], chars);
    }
  }

  /** Index of the last character in a set, or -1. */
  function LastIndexAny(s: string, chars: set<char>): (k: int)
    ensures -1 <= k < |s|
  {
    if s == [] then -1
    else if s[|s| - 1] in chars then |s| - 1
    else LastIndexAny(s[..|s| - 1], chars)
  }

  lemma {:induction false} LastIndexAnyFinds(s: string, chars: set<char>)
    ensures var k := LastIndexAny(s, chars);
      && (k >= 0 ==> s[k] in chars && forall j :: k < j < |s| ==> s[j] !in chars)
      && (k == -1 ==> forall j :: 0 <= j < |s| ==> s[j] !in chars)
  {
    if s != [] && s[|s| - 1] !in chars {
      LastIndexAnyFinds(s[..|s| - 1], chars);
    }
  }

  /** Index of the first occurrence of a word, or -1. */
  function Index(s: string, word: string): (k: int)
    requires word != []
    ensures k == -1 || (0 <= k <= |s| - |word| && s[k..k + |word|] == word)
  {
    if |s| < |word| then -1
    else if s[..|word|] == word then 0
    else
      var k := Index(s[1..], word);
      if k == -1 then -1 else k + 1
  }

  /** Trimming a string that neither begins nor ends with a cut character. */
  lemma TrimKeeps(s: string, cut: set<char>)
    requires s != [] ==> s[0] !in cut && s[|s| - 1] !in cut
    ensures Trim(s, cut) == s
  {
  }

  lemma {:induction false} TrimEmpties(s: string, cut: set<char>)
    requires forall k :: 0 <= k < |s| ==> s[k] in cut
    ensures Trim(s, cut) == ""
  {
    if s != "" {
      TrimEmpties(s[1..], cut);
    }
  }

  /** Trimming touches only the cut characters at the two ends. */
  lemma {:induction false} TrimKeepsTail(a: string, b: string, cut: set<char>)
    requires b != [] && b[0] !in cut && b[|b| - 1] !in cut
    ensures exists k :: 0 <= k <= |a| && Trim(a + b, cut) == a[k..] + b
  {
    if a != [] && a[0] in cut {
      TrimKeepsTail(a[1..], b, cut);
      assert (a + b)[1..] == a[1..] + b;
      var k :| 0 <= k <= |a[1..]| && Trim(a[1..] + b, cut) == a[1..][k..] + b;
      assert a[1..][k..] == a[k + 1..];
    } else {
      assert a + b == a[0..] + b;
      TrimKeeps(a + b, cut);
    }
  }

  lemma {:induction false} TrimRightDrops(s: string, tail: string, cut: set<char>)
    requires s != [] && s[|s| - 1] !in cut
    requires forall c :: c in tail ==> c in cut
    ensures TrimRight(s + tail, cut) == s
  {
    if tail == [] {
      assert s + tail == s;
    } else {
      assert (s + tail)[..|s + tail| - 1] == s + tail[..|tail| - 1];
      TrimRightDrops(s, tail[..|tail| - 1], cut);
    }
  }

  lemma TakeSnoc<T>(s: seq<T>, i: nat)
    requires i < |s|
    ensures s[..i + 1] == s[..i] + [s[i]]
  {
  }

  lemma PrefixSnoc<T>(s: seq<T>, t: seq<T>, n: nat)
    requires |s| == n + 1 <= |t| && s[..n] <= t && s[n] == t[n]
    ensures s <= t
  {
    forall i | 0 <= i < |s| ensures s[i] == t[i] {
      if i < n {
        assert s[..n][i] == t[i];
      }
    }
  }
}
