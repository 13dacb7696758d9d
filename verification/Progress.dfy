/** internal/service/api.go: the progress timeline, its pages and its numbers. */
module Progress {
  import opened Basics
  import opened Decimal

  // ---------------------------------------------------- formatProgressNumber

  /** fmt.Sprintf("%d", n). */
  function Signed(n: int): string {
    if n < 0 then "-" + Digits(-n) else Digits(n)
  }

  /** Characters in threes from the right, separated by commas. */
  function Grouped(s: string): string {
    if |s| <= 3 then s else Grouped(s[..|s| - 3]) + "," + s[|s| - 3..]
  }

  lemma GroupedSnoc(head: string, last: string)
    requires head != "" && |last| == 3
    ensures Grouped(head + last) == Grouped(head) + "," + last
  {
    assert (head + last)[..|head|] == head && (head + last)[|head|..] == last;
  }

  lemma CommaInText(h: string, l: string, tail: string)
    ensures (h + l + tail)[..|h|] + "," + (h + l + tail)[|h|..] == h + ("," + l + tail)
  {
    assert (h + l + tail)[..|h|] == h && (h + l + tail)[|h|..] == l + tail;
    Regroup(h, ",", l, tail);
  }

  lemma CommaInGroups(h: string, l: string, tail: string)
    requires h != "" && |l| == 3
    ensures Grouped(h + l) + tail == Grouped(h) + ("," + l + tail)
  {
    GroupedSnoc(h, l);
    Regroup(Grouped(h), ",", l, tail);
  }

  lemma Regroup(a: string, b: string, c: string, d: string)
    ensures a + b + (c + d) == a + (b + c + d)
    ensures a + b + c + d == a + (b + c + d)
    ensures a + (b + c) == a + b + c
  {
  }

  method FormatProgressNumber(n: int) returns (text: string)
    ensures text == Grouped(Signed(n))
  {
    text := Signed(n);
    ghost var head, tail := text, "";
    assert head + tail == head;
    assert Grouped(head) + tail == Grouped(head);
    var i := |text| - 3;
    while i > 0
      invariant i == |head| - 3 && head != ""
      invariant text == head + tail
      invariant Grouped(Signed(n)) == Grouped(head) + tail
    {
      ghost var h, l := head[..i], head[i..];
      assert head == h + l;
      CommaInText(h, l, tail);
      CommaInGroups(h, l, tail);
      text := text[..i] + "," + text[i..];
      head, tail := h, "," + l + tail;
      i := i - 3;
    }
  }

  function WithoutCommas(s: string): string {
    if s == "" then ""
    else WithoutCommas(s[..|s| - 1]) + (if s[|s| - 1] == ',' then "" else [s[|s| - 1]])
  }

  lemma {:induction false} WithoutCommasConcat(s: string, t: string)
    ensures WithoutCommas(s + t) == WithoutCommas(s) + WithoutCommas(t)
  {
    if t == "" {
      assert s + t == s;
    } else {
      assert (s + t)[..|s + t| - 1] == s + t[..|t| - 1];
      WithoutCommasConcat(s, t[..|t| - 1]);
    }
  }

  lemma {:induction false} NoCommasToRemove(s: string)
    requires ',' !in s
    ensures WithoutCommas(s) == s
  {
    if s != "" {
      NoCommasToRemove(s[..|s| - 1]);
      assert s[|s| - 1] in s;
    }
  }

  /** The commas are the only thing added: removing them gives the number back. */
  lemma {:induction false} GroupingAddsOnlyCommas(s: string)
    requires ',' !in s
    ensures WithoutCommas(Grouped(s)) == s
  {
    if |s| <= 3 {
      NoCommasToRemove(s);
    } else {
      var head, last := s[..|s| - 3], s[|s| - 3..];
      GroupingAddsOnlyCommas(head);
      NoCommasToRemove(last);
      CommaVanishes(Grouped(head), last);
      assert s == head + last;
    }
  }

  lemma CommaVanishes(head: string, last: string)
    ensures WithoutCommas(head + "," + last) == WithoutCommas(head) + WithoutCommas(last)
  {
    WithoutCommasConcat(head + ",", last);
    WithoutCommasConcat(head, ",");
    assert ","[..0] == "";
    assert WithoutCommas(head) + "" == WithoutCommas(head);
  }

  predicate AllDigits(s: string) {
    forall c :: c in s ==> IsDigit(c)
  }

  /** One to three digits, then any number of groups of a comma and three digits. */
  predicate Thousands(s: string) {
    if |s| <= 3 then s != "" && AllDigits(s)
    else |s| >= 5 && AllDigits(s[|s| - 3..]) && s[|s| - 4] == ',' && Thousands(s[..|s| - 4])
  }

  /** A number as a reader expects it: an optional sign, then grouped digits. */
  predicate WellGrouped(text: string, n: int) {
    if n < 0 then text != "" && text[0] == '-' && Thousands(text[1..]) else Thousands(text)
  }

  lemma {:induction false} DigitsAreThousands(d: string)
    requires d != "" && AllDigits(d)
    ensures Thousands(Grouped(d)) && Grouped(d) != ""
  {
    if |d| > 3 {
      var head, last := d[..|d| - 3], d[|d| - 3..];
      DigitsAreThousands(head);
      var g := Grouped(d);
      assert g == Grouped(head) + "," + last;
      assert g[..|g| - 4] == Grouped(head) && g[|g| - 3..] == last;
    }
  }

  /** Where the sign lands. */
  lemma {:induction false} SignIsGrouped(d: string)
    requires d != ""
    ensures Grouped("-" + d) == (if |d| % 3 == 0 then "-," else "-") + Grouped(d)
  {
    if |d| < 3 {
    } else if |d| == 3 {
      GroupedSnoc("-", d);
      assert "-" + "," + d == "-," + d;
    } else {
      var head, last := d[..|d| - 3], d[|d| - 3..];
      assert d == head + last;
      SignIsGrouped(head);
      GroupedSnoc(head, last);
      SignedSnoc(head, last);
    }
  }

  lemma SignedSnoc(head: string, last: string)
    requires head != "" && |last| == 3
    requires Grouped("-" + head) == (if |head| % 3 == 0 then "-," else "-") + Grouped(head)
    ensures Grouped("-" + (head + last)) == (if |head| % 3 == 0 then "-," else "-") + (Grouped(head) + "," + last)
  {
    Regroup("-", head, last, "");
    GroupedSnoc("-" + head, last);
    Regroup(if |head| % 3 == 0 then "-," else "-", Grouped(head), ",", last);
  }

  /** The rendering is well grouped unless the number is negative with a number
      of digits divisible by three, where a comma follows the sign. */
  lemma WellGroupedIff(n: int)
    ensures WellGrouped(Grouped(Signed(n)), n) <==> n >= 0 || |Digits(-n)| % 3 != 0
  {
    if n >= 0 {
      DigitsAreThousands(Digits(n));
    } else {
      var d := Digits(-n);
      SignIsGrouped(d);
      DigitsAreThousands(d);
      SignPrefix(Grouped(d));
      CommaFirstIsNotThousands(Grouped(d));
    }
  }

  lemma SignPrefix(g: string)
    ensures ("-," + g)[1..] == "," + g && ("-" + g)[1..] == g
    ensures ("-," + g)[0] == '-' && ("-" + g)[0] == '-'
  {
  }

  lemma {:induction false} CommaFirstIsNotThousands(t: string)
    ensures !Thousands("," + t)
  {
    var s := "," + t;
    if |s| <= 3 {
      assert s[0] in s;
    } else if |s| >= 5 {
      assert s[..|s| - 4] == "," + t[..|t| - 4];
      CommaFirstIsNotThousands(t[..|t| - 4]);
    }
  }
}
