/** internal/redact: exact-match secret redaction of runner output. */
module Redact {
  newtype Byte = x: int | 0 <= x < 256

  /** Go strings are byte strings. */
  type Text = seq<Byte>

  /** The replacement text, "[REDACTED]". */
  const MARKER: Text := [91, 82, 69, 68, 65, 67, 84, 69, 68, 93]

  /** Values shorter than this are skipped. */
  const MIN_LENGTH: nat := 4

  // ---------------------------------------------------------------- search

  predicate OccursAt(v: Text, t: Text, i: int) {
    0 <= i <= |t| - |v| && t[i..i + |v|] == v
  }

  ghost predicate Occurs(v: Text, t: Text) {
    exists i :: OccursAt(v, t, i)
  }

  /** The leftmost occurrence at or after position i, or |t| + 1 if there is none. */
  function FirstFrom(v: Text, t: Text, i: nat): (k: nat)
    requires i <= |t| + 1
    ensures i <= k <= |t| + 1
    ensures k <= |t| ==> OccursAt(v, t, k)
    ensures forall j :: i <= j < k ==> !OccursAt(v, t, j)
    decreases |t| + 1 - i
  {
    if i == |t| + 1 || OccursAt(v, t, i) then i else FirstFrom(v, t, i + 1)
  }

  /** strings.ReplaceAll(t, v, MARKER): leftmost, non-overlapping. */
  function ReplaceAll(t: Text, v: Text): Text
    requires v != []
    decreases |t|
  {
    var k := FirstFrom(v, t, 0);
    if k == |t| + 1 then t
    else t[..k] + MARKER + ReplaceAll(t[k + |v|..], v)
  }

  // ------------------------------------------------- clashes with the marker

  /** v, placed d positions to the right of the start of the marker (d may be
      negative), shares at least one position with the marker and agrees with
      it on every shared position. */
  predicate ClashesAt(v: Text, d: int) {
    && -|v| < d < |MARKER|
    && forall i :: 0 <= i < |v| && 0 <= i + d < |MARKER| ==> v[i] == MARKER[i + d]
  }

  /** The values that redaction can reproduce while removing another one. */
  ghost predicate Clashes(v: Text) {
    exists d :: ClashesAt(v, d)
  }

  /** An occurrence in a + MARKER + b that does not clash lies in a or in b. */
  lemma OccurrenceAvoidsMarker(v: Text, a: Text, b: Text, i: int)
    requires v != [] && !Clashes(v)
    requires OccursAt(v, a + MARKER + b, i)
    ensures Occurs(v, a) || Occurs(v, b)
  {
    var t := a + MARKER + b;
    var d := i - |a|;
    if i + |v| <= |a| {
      assert a[i..i + |v|] == t[i..i + |v|];
      assert OccursAt(v, a, i);
    } else if |MARKER| <= d {
      assert b[d - |MARKER|..d - |MARKER| + |v|] == t[i..i + |v|];
      assert OccursAt(v, b, d - |MARKER|);
    } else {
      forall j | 0 <= j < |v| && 0 <= j + d < |MARKER| ensures v[j] == MARKER[j + d] {
        assert v[j] == t[i..i + |v|][j] == t[i + j];
      }
      assert ClashesAt(v, d);
    }
  }

  lemma OccursBesideMarker(v: Text, a: Text, b: Text)
    requires v != [] && !Clashes(v) && Occurs(v, a + MARKER + b)
    ensures Occurs(v, a) || Occurs(v, b)
  {
    var i :| OccursAt(v, a + MARKER + b, i);
    OccurrenceAvoidsMarker(v, a, b, i);
  }

  lemma OccursInPart(v: Text, t: Text, i: nat, j: nat)
    requires i <= j <= |t| && Occurs(v, t[i..j])
    ensures Occurs(v, t)
  {
    var k :| OccursAt(v, t[i..j], k);
    var part := t[i..j];
    forall m | 0 <= m < |v| ensures t[i + k..i + k + |v|][m] == v[m] {
      assert part[k..k + |v|][m] == part[k + m] == t[i + k + m];
    }
    assert t[i + k..i + k + |v|] == v;
    assert OccursAt(v, t, i + k);
  }

  lemma OccursInEither(v: Text, t: Text, i: nat, j: nat)
    requires i <= j <= |t| && (Occurs(v, t[..i]) || Occurs(v, t[j..]))
    ensures Occurs(v, t)
  {
    assert t[..i] == t[0..i] && t[j..] == t[j..|t|];
    if Occurs(v, t[..i]) {
      OccursInPart(v, t, 0, i);
    } else {
      OccursInPart(v, t, j, |t|);
    }
  }

  /** Replacing any value w creates no occurrence of a value that does not clash. */
  lemma {:induction false} ReplacementCreatesNothing(t: Text, w: Text, v: Text)
    requires v != [] && w != [] && !Clashes(v)
    requires Occurs(v, ReplaceAll(t, w))
    ensures Occurs(v, t)
    decreases |t|
  {
    var k := FirstFrom(w, t, 0);
    if k <= |t| {
      var rest := t[k + |w|..];
      var tail := ReplaceAll(rest, w);
      assert ReplaceAll(t, w) == t[..k] + MARKER + tail;
      OccursBesideMarker(v, t[..k], tail);
      if Occurs(v, tail) {
        ReplacementCreatesNothing(rest, w, v);
      }
      OccursInEither(v, t, k, k + |w|);
    }
  }

  lemma NoneBefore(v: Text, t: Text, k: nat)
    requires v != [] && k <= |t| && forall j :: 0 <= j < k ==> !OccursAt(v, t, j)
    ensures !Occurs(v, t[..k])
  {
    forall j ensures !OccursAt(v, t[..k], j) {
      if OccursAt(v, t[..k], j) {
        assert t[j..j + |v|] == t[..k][j..j + |v|];
        assert OccursAt(v, t, j);
      }
    }
  }

  /** After its own pass a value that does not clash is gone. */
  lemma {:induction false} ReplacementRemoves(t: Text, v: Text)
    requires v != [] && !Clashes(v)
    ensures !Occurs(v, ReplaceAll(t, v))
    decreases |t|
  {
    var k := FirstFrom(v, t, 0);
    if k <= |t| {
      var rest := t[k + |v|..];
      ReplacementRemoves(rest, v);
      if Occurs(v, ReplaceAll(t, v)) {
        OccursBesideMarker(v, t[..k], ReplaceAll(rest, v));
        NoneBefore(v, t, k);
      }
    }
  }

  // ------------------------------------------------------------------ Apply

  /** The passes of Apply over the values in iteration order. */
  function Passes(values: seq<Text>, t: Text): Text {
    if values == [] then t
    else Passes(values[1..], if |values[0]| < MIN_LENGTH then t else ReplaceAll(t, values[0]))
  }

  /** Passes from the last value backwards, the order in which a loop extends it. */
  lemma {:induction false} PassesSnoc(values: seq<Text>, v: Text, t: Text)
    ensures Passes(values + [v], t)
         == (if |v| < MIN_LENGTH then Passes(values, t) else ReplaceAll(Passes(values, t), v))
  {
    if values != [] {
      assert (values + [v])[1..] == values[1..] + [v];
      PassesSnoc(values[1..], v, if |values[0]| < MIN_LENGTH then t else ReplaceAll(t, values[0]));
    } else {
      assert ([v])[1..] == [];
      assert [] + [v] == [v];
    }
  }

  lemma {:induction false} PassesCreateNothing(values: seq<Text>, t: Text, v: Text)
    requires v != [] && !Clashes(v)
    requires Occurs(v, Passes(values, t))
    ensures Occurs(v, t)
  {
    if values != [] {
      var t' := if |values[0]| < MIN_LENGTH then t else ReplaceAll(t, values[0]);
      PassesCreateNothing(values[1..], t', v);
      if |values[0]| >= MIN_LENGTH {
        ReplacementCreatesNothing(t, values[0], v);
      }
    }
  }

  lemma {:induction false} PassesRemove(values: seq<Text>, t: Text, v: Text)
    requires v in values && MIN_LENGTH <= |v| && !Clashes(v)
    ensures !Occurs(v, Passes(values, t))
  {
    var t' := if |values[0]| < MIN_LENGTH then t else ReplaceAll(t, values[0]);
    if values[0] == v {
      ReplacementRemoves(t, v);
      if Occurs(v, Passes(values[1..], t')) {
        PassesCreateNothing(values[1..], t', v);
      }
    } else {
      PassesRemove(values[1..], t', v);
    }
  }

  /** v never survives, whatever else is redacted, in whatever order, from whatever text. */
  ghost predicate AlwaysRemoved(v: Text) {
    forall values: seq<Text>, t: Text :: v in values ==> !Occurs(v, Passes(values, t))
  }

  function Repeat(b: Byte, n: nat): (t: Text)
    ensures |t| == n && forall i :: 0 <= i < n ==> t[i] == b
  {
    seq(n, i => b)
  }

  /** Replacement when the leftmost occurrence is known. */
  lemma ReplaceFirst(t: Text, v: Text, k: nat)
    requires v != [] && OccursAt(v, t, k)
    requires forall j :: 0 <= j < k ==> !OccursAt(v, t, j)
    ensures ReplaceAll(t, v) == t[..k] + MARKER + ReplaceAll(t[k + |v|..], v)
  {
    assert FirstFrom(v, t, 0) == k;
  }

  lemma ReplaceNothing(t: Text, v: Text)
    requires v != [] && !Occurs(v, t)
    ensures ReplaceAll(t, v) == t
  {
    assert FirstFrom(v, t, 0) == |t| + 1;
  }

  /** x + filler + y does not contain x + p + y when the filler is long and
      uniform and p holds only other bytes. */
  lemma FillerHidesValue(x: Text, p: Text, y: Text, b: Byte, n: nat)
    requires p != [] && b !in p
    requires n > |x + p + y|
    ensures !Occurs(x + p + y, x + Repeat(b, n) + y)
  {
    var v, t := x + p + y, x + Repeat(b, n) + y;
    forall i ensures !OccursAt(v, t, i) {
      if 0 <= i <= |t| - |v| {
        // the first byte of p faces the filler
        assert t[i..i + |v|][|x|] == t[i + |x|] == b;
        assert v[|x|] == p[0] != b;
      }
    }
  }

  /** The leftmost occurrence of the filler is the filler itself. */
  lemma FillerComesFirst(x: Text, w: Text, y: Text, b: Byte)
    requires |w| > |x| && forall i :: 0 <= i < |w| ==> w[i] == b
    requires x != [] ==> x[|x| - 1] != b
    ensures OccursAt(w, x + w + y, |x|)
    ensures forall j :: 0 <= j < |x| ==> !OccursAt(w, x + w + y, j)
  {
    var t := x + w + y;
    forall j | 0 <= j < |x| ensures !OccursAt(w, t, j) {
      assert t[j..j + |w|][|x| - 1 - j] == x[|x| - 1];
      assert w[|x| - 1 - j] == b;
    }
    assert t[|x|..|x| + |w|] == w;
  }

  /** Replacing the filler by the marker. */
  lemma FillerIsReplaced(x: Text, w: Text, y: Text, b: Byte)
    requires |w| > |x| && |w| > |y| && forall i :: 0 <= i < |w| ==> w[i] == b
    requires x != [] ==> x[|x| - 1] != b
    ensures ReplaceAll(x + w + y, w) == x + MARKER + y
  {
    FillerComesFirst(x, w, y, b);
    ReplaceFirst(x + w + y, w, |x|);
    ReplaceNothing(y, w);
    assert (x + w + y)[|x| + |w|..] == y;
    assert (x + w + y)[..|x|] == x;
  }

  /** v reappears around a marker put in place of the part of v that clashes. */
  lemma ClashReappears(v: Text, d: int, lo: nat, hi: nat)
    requires v != [] && ClashesAt(v, d)
    requires lo == (if d < 0 then -d else 0) && hi == (if |v| + d > |MARKER| then |MARKER| - d else |v|)
    ensures lo < hi <= |v|
    ensures forall i :: lo <= i < hi ==> v[i] in MARKER
    ensures Occurs(v, v[..lo] + MARKER + v[hi..])
  {
    forall i | lo <= i < hi ensures v[i] in MARKER {
      assert v[i] == MARKER[i + d];
    }
    var out := v[..lo] + MARKER + v[hi..];
    forall i | 0 <= i < |v| ensures out[lo + d + i] == v[i] {
      if lo <= i < hi {
        assert out[lo + d + i] == MARKER[i + d];
      }
    }
    assert out[lo + d..lo + d + |v|] == v;
    assert OccursAt(v, out, lo + d);
  }

  /** Two passes turn x + filler + y into x + MARKER + y when the first value is
      x + p + y and p is made of marker bytes. The filler, a run of one lower-case
      letter, is an ordinary value. */
  lemma TwoPasses(x: Text, p: Text, y: Text) returns (w: Text, t: Text)
    requires p != [] && MIN_LENGTH <= |x + p + y|
    requires forall i :: 0 <= i < |p| ==> p[i] in MARKER
    ensures Passes([x + p + y, w], t) == x + MARKER + y
  {
    var v := x + p + y;
    var b: Byte := if x != [] && x[|x| - 1] == 'a' as int as Byte then 'b' as int as Byte else 'a' as int as Byte;
    w := Repeat(b, |v| + 1);
    t := x + w + y;
    FillerHidesValue(x, p, y, b, |v| + 1);
    ReplaceNothing(t, v);
    FillerIsReplaced(x, w, y, b);
    PassesOfTwo(v, w, t);
  }

  /** A value that clashes survives when a second value is redacted after it. */
  lemma ClashSurvives(v: Text, d: int) returns (values: seq<Text>, t: Text)
    requires MIN_LENGTH <= |v| && ClashesAt(v, d)
    ensures v in values && Occurs(v, Passes(values, t))
  {
    var lo, hi := if d < 0 then -d else 0, if |v| + d > |MARKER| then |MARKER| - d else |v|;
    ClashReappears(v, d, lo, hi);
    var w;
    w, t := TwoPassesOf(v, lo, hi);
    values := [v, w];
  }

  lemma TwoPassesOf(v: Text, lo: nat, hi: nat) returns (w: Text, t: Text)
    requires lo < hi <= |v| && MIN_LENGTH <= |v| && forall i :: lo <= i < hi ==> v[i] in MARKER
    ensures Passes([v, w], t) == v[..lo] + MARKER + v[hi..]
  {
    var p := v[lo..hi];
    assert v == v[..lo] + p + v[hi..];
    assert forall i :: 0 <= i < |p| ==> p[i] == v[lo + i];
    w, t := TwoPasses(v[..lo], p, v[hi..]);
  }

  lemma PassesOfTwo(v: Text, w: Text, t: Text)
    requires MIN_LENGTH <= |v| && MIN_LENGTH <= |w|
    ensures Passes([v, w], t) == ReplaceAll(ReplaceAll(t, v), w)
  {
    assert [v] + [w] == [v, w];
    PassesSnoc([v], w, t);
    assert [v][1..] == [];
  }

  /** Which values are always scrubbed: exactly those long enough that do not
      clash with the replacement text. */
  lemma AlwaysRemovedIff(v: Text)
    ensures AlwaysRemoved(v) <==> 4 <= |v| && !Clashes(v)
  {
    if MIN_LENGTH <= |v| && !Clashes(v) {
      forall values: seq<Text>, t: Text | v in values ensures !Occurs(v, Passes(values, t)) {
        PassesRemove(values, t, v);
      }
    } else if |v| < MIN_LENGTH {
      assert [v][1..] == [];
      assert Passes([v], v) == v && v[0..0 + |v|] == v;
      assert OccursAt(v, Passes([v], v), 0);
      assert v in [v];
    } else {
      var d :| ClashesAt(v, d);
      var values, t := ClashSurvives(v, d);
    }
  }

  /** The ordinary case: no bracket in the value, and not part of the word REDACTED. */
  lemma OrdinaryValuesDoNotClash(v: Text)
    requires MARKER[0] !in v && MARKER[9] !in v
    requires !Occurs(v, MARKER[1..9])
    ensures !Clashes(v)
  {
    forall d | -|v| < d < |MARKER| ensures !ClashesAt(v, d) {
      if d <= 0 {
        assert v[-d] != MARKER[0];
      } else if |v| + d > 9 {
        assert v[9 - d] != MARKER[9];
      } else {
        WithinTheWord(v, d);
      }
    }
  }

  lemma WithinTheWord(v: Text, d: int)
    requires !Occurs(v, MARKER[1..9]) && 0 < d && |v| + d <= 9
    ensures !ClashesAt(v, d)
  {
    var part := MARKER[1..9][d - 1..d - 1 + |v|];
    assert !OccursAt(v, MARKER[1..9], d - 1);
    var i :| 0 <= i < |v| && part[i] != v[i];
    assert part[i] == MARKER[i + d];
  }

  // -------------------------------------------------------------- sensitive keys

  /** unicode.ToUpper, up to characters that no searched word contains. */
  function Upper(c: char): char {
    if 'a' <= c <= 'z' then (c as int - 32) as char
    else if c == '\U{017F}' then 'S'
    else c
  }

  function ToUpper(s: string): string {
    seq(|s|, i requires 0 <= i < |s| => Upper(s[i]))
  }

  predicate StartsAt(word: string, s: string, i: int) {
    0 <= i <= |s| - |word| && s[i..i + |word|] == word
  }

  predicate Contains(s: string, word: string) {
    exists i :: 0 <= i <= |s| && StartsAt(word, s, i)
  }

  predicate Sensitive(key: string) {
    var upper := ToUpper(key);
    || Contains(upper, "SECRET")
    || Contains(upper, "TOKEN")
    || Contains(upper, "KEY")
    || Contains(upper, "PASSWORD")
  }

  /** c is the capital w or its small letter; the long s counts as an s. */
  predicate Reads(c: char, w: char) {
    c == w || c as int == w as int + 32 || (w == 'S' && c == '\U{017F}')
  }

  /** The key spells the word at place i, in whatever case. */
  predicate Spells(key: string, i: nat, word: string) {
    i + |word| <= |key| && forall j :: 0 <= j < |word| ==> Reads(key[i + j], word[j])
  }

  ghost predicate SpellsSomewhere(key: string, word: string) {
    exists i: nat :: Spells(key, i, word)
  }

  predicate Capitals(word: string) {
    forall j :: 0 <= j < |word| ==> 'A' <= word[j] <= 'Z'
  }

  lemma ContainsIffSpells(key: string, word: string)
    requires Capitals(word)
    ensures Contains(ToUpper(key), word) <==> SpellsSomewhere(key, word)
  {
    var upper := ToUpper(key);
    forall i: nat | i + |word| <= |key| ensures StartsAt(word, upper, i) <==> Spells(key, i, word) {
      SpelledAt(key, i, word);
    }
    if SpellsSomewhere(key, word) {
      var i: nat :| Spells(key, i, word);
      assert StartsAt(word, upper, i);
    }
  }

  lemma SpelledAt(key: string, i: nat, word: string)
    requires Capitals(word) && i + |word| <= |key|
    ensures StartsAt(word, ToUpper(key), i) <==> Spells(key, i, word)
  {
    var upper := ToUpper(key);
    forall j | 0 <= j < |word| ensures upper[i + j] == word[j] <==> Reads(key[i + j], word[j]) {
      assert upper[i + j] == Upper(key[i + j]);
    }
    if StartsAt(word, upper, i) {
      forall j | 0 <= j < |word| ensures Reads(key[i + j], word[j]) {
        assert upper[i..i + |word|][j] == upper[i + j];
      }
    }
  }

  /** A variable is sensitive exactly when its name spells secret, token, key or password
      somewhere, in whatever case. */
  lemma SensitiveIff(key: string)
    ensures Sensitive(key) <==>
      SpellsSomewhere(key, "SECRET") || SpellsSomewhere(key, "TOKEN") || SpellsSomewhere(key, "KEY") || SpellsSomewhere(key, "PASSWORD")
  {
    ContainsIffSpells(key, "SECRET");
    ContainsIffSpells(key, "TOKEN");
    ContainsIffSpells(key, "KEY");
    ContainsIffSpells(key, "PASSWORD");
  }

  /** The secret values an environment holds. */
  ghost function Secrets(env: map<string, Text>): set<Text> {
    set k | k in env && env[k] != [] && Sensitive(k) :: env[k]
  }

  class Set {
    var values: seq<Text>

    ghost predicate Distinct()
      reads this
    {
      forall i, j :: 0 <= i < j < |values| ==> values[i] != values[j]
    }

    /** NewSet: each secret value once, in the unspecified order of the map. */
    constructor (env: map<string, Text>)
      ensures Distinct()
      ensures (set v | v in values) == Secrets(env)
    {
      var collected: seq<Text>, seen: set<Text>, todo := [], {}, env.Keys;
      while todo != {}
        invariant todo <= env.Keys
        invariant seen == set v | v in collected
        invariant forall i, j :: 0 <= i < j < |collected| ==> collected[i] != collected[j]
        invariant seen == set k | k in env.Keys - todo && env[k] != [] && Sensitive(k) :: env[k]
      {
        var key :| key in todo;
        todo := todo - {key};
        var value := env[key];
        if value != [] && Sensitive(key) && value !in seen {
          seen := seen + {value};
          collected := collected + [value];
        }
      }
      values := collected;
    }

    predicate Empty()
      reads this
    {
      values == []
    }

    /** Apply: one replacement pass per value, short values skipped. */
    method Apply(text: Text) returns (out: Text)
      ensures out == Passes(values, text)
      ensures forall v :: v in values && MIN_LENGTH <= |v| && !Clashes(v) ==> !Occurs(v, out)
      ensures Empty() || text == [] ==> out == text
    {
      out := text;
      if values != [] && text != [] {
        for i := 0 to |values|
          invariant out == Passes(values[..i], text)
        {
          var v := values[i];
          PassesSnoc(values[..i], v, text);
          assert values[..i + 1] == values[..i] + [v];
          if |v| >= MIN_LENGTH {
            out := ReplaceAll(out, v);
          }
        }
        assert values[..|values|] == values;
      } else if text == [] {
        PassesOfNothing(values);
      }
      forall v | v in values && MIN_LENGTH <= |v| && !Clashes(v) ensures !Occurs(v, out) {
        PassesRemove(values, text, v);
      }
    }
  }

  lemma {:induction false} PassesOfNothing(values: seq<Text>)
    ensures Passes(values, []) == []
  {
    if values != [] {
      if |values[0]| >= MIN_LENGTH {
        ReplaceNothing([], values[0]);
      }
      PassesOfNothing(values[1..]);
    }
  }

  /** End to end: no sensitive value that is long enough and does not clash is
      left in redacted output. */
  method RedactOutput(env: map<string, Text>, text: Text) returns (out: Text)
    ensures forall k :: k in env && Sensitive(k) && MIN_LENGTH <= |env[k]| && !Clashes(env[k]) ==>
      !Occurs(env[k], out)
  {
    var redactions := new Set(env);
    out := redactions.Apply(text);
    forall k | k in env && Sensitive(k) && MIN_LENGTH <= |env[k]| && !Clashes(env[k])
      ensures !Occurs(env[k], out)
    {
      assert env[k] in Secrets(env);
      assert env[k] in redactions.values;
    }
  }
}
