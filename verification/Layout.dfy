/** internal/githubrepo/layout.go: collision-free, deterministic checkout
    directories for secondary repositories. */
module Layout {
  import opened Decimal
  import opened Strings

  const REPOS_SUBDIR := "repos"

  // -------------------------------------------------------------------- itoa

  function Pow10(k: nat): nat {
    if k == 0 then 1 else 10 * Pow10(k - 1)
  }

  lemma TwentyDigitsSuffice()
    ensures 0x8000_0000_0000_0000 < Pow10(20)
  {
    assert Pow10(5) == 1_00000;
    assert Pow10(10) == 1_00000_00000;
    assert Pow10(15) == 1_00000_00000_00000;
  }

  /** The digits still to be written; none are left of zero. */
  function Front(rest: nat): string {
    if rest == 0 then "" else Digits(rest)
  }

  lemma NextDigit(rest: nat, i: nat, tail: string)
    requires 0 < rest < Pow10(i)
    ensures 0 < i && rest / 10 < Pow10(i - 1)
    ensures Front(rest) + tail == Front(rest / 10) + ([Digit(rest % 10)] + tail)
  {
    assert Front(rest) == Front(rest / 10) + [Digit(rest % 10)];
  }

  /** itoa over a 64-bit int: a digit buffer filled from the right. */
  method Itoa(n: int) returns (s: string)
    requires n < 0x8000_0000_0000_0000
    ensures 0 <= n ==> s == Digits(n)
    ensures n < 0 ==> s == ""
  {
    if n == 0 {
      return "0";
    }
    var digits := new char[20];
    var i := digits.Length;
    var rest := n;
    TwentyDigitsSuffice();
    while rest > 0
      invariant 0 <= i <= 20
      invariant n < 0 ==> rest == n && i == 20
      invariant 0 < n ==> 0 <= rest < Pow10(i)
      invariant 0 < n ==> Digits(n) == Front(rest) + digits[i..]
      invariant rest == 0 ==> i < 20
    {
      ghost var tail := digits[i..];
      NextDigit(rest, i, tail);
      i := i - 1;
      digits[i] := Digit(rest % 10);
      assert digits[i..] == [Digit(rest % 10)] + tail;
      rest := rest / 10;
    }
    s := digits[i..];
  }

  // --------------------------------------------------------- sanitizeSegment

  /** unicode.ToLower, up to characters that sanitizeSegment drops either way. */
  function Lower(c: char): char {
    if 'A' <= c <= 'Z' then (c as int + 32) as char
    else if c == '\U{0130}' then 'i'
    else if c == '\U{212A}' then 'k'
    else c
  }

  predicate IsSafe(c: char) {
    'a' <= c <= 'z' || IsDigit(c) || c == '.' || c == '_' || c == '-'
  }

  const EDGES := {'.', '-'}

  /** What one lower-cased character contributes. */
  function Kept(c: char): string {
    if IsSafe(c) then [c] else if c in SPACES then "-" else ""
  }

  function KeptAll(s: string): (r: string)
    ensures forall c :: c in r ==> IsSafe(c)
  {
    if s == "" then "" else KeptAll(s[..|s| - 1]) + Kept(Lower(s[|s| - 1]))
  }

  function TrimSpace(s: string): string {
    Trim(s, SPACES)
  }

  function Sanitize(value: string): string {
    Trim(KeptAll(TrimSpace(value)), EDGES)
  }

  lemma KeptOneMore(text: string, i: nat)
    requires i < |text|
    ensures KeptAll(text[..i + 1]) == KeptAll(text[..i]) + Kept(Lower(text[i]))
  {
    assert text[..i + 1][..i] == text[..i];
  }

  method SanitizeSegment(value: string) returns (segment: string)
    ensures segment == Sanitize(value)
  {
    var text, b := TrimSpace(value), "";
    for i := 0 to |text|
      invariant b == KeptAll(text[..i])
    {
      var r := Lower(text[i]);
      KeptOneMore(text, i);
      if 'a' <= r <= 'z' || IsDigit(r) {
        b := b + [r];
      } else if r == '.' || r == '_' || r == '-' {
        b := b + [r];
      } else if r in SPACES {
        b := b + "-";
      }
    }
    assert text[..|text|] == text;
    segment := Trim(b, EDGES);
  }

  // ---------------------------------------------------------------- RepoSlug

  const SEPARATORS := {'/', ':'}

  function StripScheme(v: string): string {
    var k := Index(v, "://");
    if k >= 0 then v[k + 3..] else v
  }

  function StripUser(v: string): string {
    var at := LastIndexAny(v, {'@'});
    if at >= 0 && IndexAny(v[at + 1..], SEPARATORS) >= 0 then v[at + 1..] else v
  }

  function StripHost(v: string): string {
    var k := IndexAny(v, SEPARATORS);
    if k >= 0 then v[k + 1..] else v
  }

  function LastSegment(v: string): string {
    var k := LastIndexAny(v, SEPARATORS);
    if k >= 0 then v[k + 1..] else v
  }

  function StripSuffixes(raw: string): string {
    TrimSuffix(TrimRight(TrimSpace(raw), {'/'}), ".git")
  }

  /** The final path segment of a repository URL. */
  function FinalSegment(raw: string): string {
    LastSegment(StripHost(StripUser(StripScheme(StripSuffixes(raw)))))
  }

  function OrRepo(segment: string): string {
    if segment == "" then "repo" else segment
  }

  function Slug(raw: string): string {
    OrRepo(Sanitize(FinalSegment(raw)))
  }

  method DropScheme(url: string) returns (value: string)
    ensures value == StripScheme(url)
  {
    value := url;
    var idx := Index(value, "://");
    if idx >= 0 {
      value := value[idx + |"://"|..];
    }
  }

  /** Strip scp-like user@host. */
  method DropUser(address: string) returns (value: string)
    ensures value == StripUser(address)
  {
    value := address;
    var at := LastIndexAny(value, {'@'});
    if at >= 0 {
      var rest := value[at + 1..];
      if IndexAny(rest, SEPARATORS) >= 0 {
        value := rest;
      }
    }
  }

  method DropHost(address: string) returns (value: string)
    ensures value == StripHost(address)
  {
    value := address;
    var idx := IndexAny(value, SEPARATORS);
    if idx >= 0 {
      value := value[idx + 1..];
    }
  }

  /** Keep only the final path segment. */
  method DropParents(path: string) returns (value: string)
    ensures value == LastSegment(path)
  {
    value := path;
    var idx := LastIndexAny(value, SEPARATORS);
    if idx >= 0 {
      value := value[idx + 1..];
    }
  }

  method RepoSlug(raw: string) returns (slug: string)
    ensures slug == Slug(raw)
    ensures SafeSegment(slug)
  {
    var value := TrimSpace(raw);
    value := TrimRight(value, {'/'});
    value := TrimSuffix(value, ".git");
    value := DropScheme(value);
    value := DropUser(value);
    value := DropHost(value);
    value := DropParents(value);
    slug := SanitizeSegment(value);
    if slug == "" {
      slug := "repo";
    }
    SlugIsSafe(raw);
  }

  /** A name usable as one directory: non-empty, only [a-z0-9._-], and neither
      beginning nor ending with '.' or '-'. */
  predicate SafeSegment(s: string) {
    && s != ""
    && (forall c :: c in s ==> IsSafe(c))
    && s[0] !in EDGES && s[|s| - 1] !in EDGES
  }

  lemma TrimmedIsSafe(kept: string)
    requires forall c :: c in kept ==> IsSafe(c)
    ensures var r := Trim(kept, EDGES); r == "" || SafeSegment(r)
  {
    var r := Trim(kept, EDGES);
    var i, j := TrimIsSlice(kept, EDGES);
    assert forall c :: c in r ==> c in kept;
    if r != "" {
      assert r[0] == TrimLeft(kept, EDGES)[0];
    }
  }

  lemma NamedIsSafe(segment: string)
    requires segment == "" || SafeSegment(segment)
    ensures SafeSegment(OrRepo(segment))
  {
    if segment == "" {
      var r := "repo";
      assert r[0] == 'r' && r[1] == 'e' && r[2] == 'p' && r[3] == 'o';
    }
  }

  lemma SanitizedIsSafe(value: string)
    ensures SafeSegment(OrRepo(Sanitize(value)))
  {
    TrimmedIsSafe(KeptAll(TrimSpace(value)));
    NamedIsSafe(Sanitize(value));
  }

  lemma SlugIsSafe(raw: string)
    ensures SafeSegment(Slug(raw))
  {
    SanitizedIsSafe(FinalSegment(raw));
  }

  // ------------------------------------------ the slug is the repository's name

  /** v is the name itself, or a longer path ending in a separator and the name. */
  predicate LeadsTo(v: string, name: string) {
    || v == name
    || (|name| < |v| && EndsWith(v, name) && v[|v| - |name| - 1] in SEPARATORS)
  }

  /** A last name of a path: no separator, no '@', no space around it. */
  predicate PlainName(name: string) {
    && name != ""
    && (forall c :: c in name ==> c !in SEPARATORS && c != '@')
    && name[0] !in SPACES && name[|name| - 1] !in SPACES
  }

  lemma PlainHasNoMarks(name: string)
    requires PlainName(name)
    ensures forall i :: 0 <= i < |name| ==> name[i] !in SEPARATORS && name[i] != '@'
  {
    forall i | 0 <= i < |name| ensures name[i] !in SEPARATORS && name[i] != '@' {
      assert name[i] in name;
    }
  }

  lemma SafeIsPlain(name: string)
    requires SafeSegment(name)
    ensures PlainName(name)
  {
    assert name[0] in name && name[|name| - 1] in name;
  }

  lemma SuffixLeadsTo(v: string, name: string, k: nat)
    requires LeadsTo(v, name) && k <= |v| - |name|
    ensures LeadsTo(v[k..], name)
  {
    assert v[|v| - |name|..] == name;
    assert v[k..][|v| - k - |name|..] == v[|v| - |name|..];
  }

  /** A separator or '@' lies before the name. */
  lemma MarkBeforeName(v: string, name: string, i: int)
    requires PlainName(name) && LeadsTo(v, name)
    requires 0 <= i < |v| && (v[i] in SEPARATORS || v[i] == '@')
    ensures i < |v| - |name|
  {
    PlainHasNoMarks(name);
    assert v[|v| - |name|..] == name;
  }

  lemma StripSchemeLeadsTo(v: string, name: string)
    requires PlainName(name) && LeadsTo(v, name)
    ensures LeadsTo(StripScheme(v), name)
  {
    var k := Index(v, "://");
    if k >= 0 {
      assert v[k + 2] == v[k..k + 3][2] == '/';
      MarkBeforeName(v, name, k + 2);
      SuffixLeadsTo(v, name, k + 3);
    }
  }

  lemma StripUserLeadsTo(v: string, name: string)
    requires PlainName(name) && LeadsTo(v, name)
    ensures LeadsTo(StripUser(v), name)
  {
    var at := LastIndexAny(v, {'@'});
    LastIndexAnyFinds(v, {'@'});
    if at >= 0 {
      MarkBeforeName(v, name, at);
      SuffixLeadsTo(v, name, at + 1);
    }
  }

  lemma StripHostLeadsTo(v: string, name: string)
    requires PlainName(name) && LeadsTo(v, name)
    ensures LeadsTo(StripHost(v), name)
  {
    var k := IndexAny(v, SEPARATORS);
    if k >= 0 {
      assert v[k] in SEPARATORS by {
        IndexAnyFinds(v, SEPARATORS);
      }
      MarkBeforeName(v, name, k);
      SuffixLeadsTo(v, name, k + 1);
    }
  }

  lemma LastSegmentIsName(v: string, name: string)
    requires PlainName(name) && LeadsTo(v, name)
    ensures LastSegment(v) == name
  {
    var k := LastIndexAny(v, SEPARATORS);
    LastIndexAnyFinds(v, SEPARATORS);
    if k >= 0 {
      MarkBeforeName(v, name, k);
      assert k == |v| - |name| - 1;
    }
  }

  lemma {:induction false} SafeIsKept(s: string)
    requires forall c :: c in s ==> IsSafe(c)
    ensures KeptAll(s) == s
  {
    if s != "" {
      SafeIsKept(s[..|s| - 1]);
      assert s[|s| - 1] in s;
      assert s == s[..|s| - 1] + [s[|s| - 1]];
    }
  }

  lemma SafeIsSanitized(name: string)
    requires SafeSegment(name)
    ensures Sanitize(name) == name
  {
    SafeIsPlain(name);
    TrimKeeps(name, SPACES);
    SafeIsKept(name);
    TrimKeeps(name, EDGES);
  }

  /** The stripping steps reach the name from any path leading to it. */
  lemma StrippedToName(bare: string, name: string)
    requires PlainName(name) && LeadsTo(bare, name)
    ensures LastSegment(StripHost(StripUser(StripScheme(bare)))) == name
  {
    StripSchemeLeadsTo(bare, name);
    StripUserLeadsTo(StripScheme(bare), name);
    StripHostLeadsTo(StripUser(StripScheme(bare)), name);
    LastSegmentIsName(StripHost(StripUser(StripScheme(bare))), name);
  }

  const GIT := ".git"

  predicate AllSlashes(s: string) {
    forall c :: c in s ==> c == '/'
  }

  /** Trailing slashes and one ".git" come off a URL without surrounding space
      whose last name does not itself end in ".git". */
  lemma TailStripped(p: string, name: string, git: bool, slashes: string)
    requires PlainName(name) && !EndsWith(name, GIT) && AllSlashes(slashes)
    requires p != "" && p[|p| - 1] in SEPARATORS
    ensures TrimSuffix(TrimRight(p + name + (if git then GIT else "") + slashes, {'/'}), GIT) == p + name
  {
    var v := p + name + (if git then GIT else "");
    PlainHasNoMarks(name);
    assert v[|v| - 1] == if git then 't' else name[|name| - 1];
    TrimRightDrops(v, slashes, {'/'});
    BareSuffix(p, name, git);
  }

  /** Surrounding space comes off first. */
  lemma SpaceStripped(lead: string, c: char, name: string, git: bool, slashes: string) returns (k: nat)
    requires c in SEPARATORS && PlainName(name) && AllSlashes(slashes)
    ensures k <= |lead|
    ensures TrimSpace(lead + ([c] + name + (if git then GIT else "") + slashes))
         == lead[k..] + ([c] + name + (if git then GIT else "") + slashes)
  {
    var tail := [c] + name + (if git then GIT else "") + slashes;
    PlainHasNoMarks(name);
    assert tail[|tail| - 1] !in SPACES by {
      if slashes != "" {
        assert slashes[|slashes| - 1] in slashes;
      } else {
        assert tail[|tail| - 1] == if git then 't' else name[|name| - 1];
      }
    }
    TrimKeepsTail(lead, tail, SPACES);
    k :| 0 <= k <= |lead| && Trim(lead + tail, SPACES) == lead[k..] + tail;
  }

  lemma SuffixesStripped(lead: string, c: char, name: string, git: bool, slashes: string)
    requires c in SEPARATORS && PlainName(name) && !EndsWith(name, GIT) && AllSlashes(slashes)
    ensures LeadsTo(StripSuffixes(lead + ([c] + name + (if git then GIT else "") + slashes)), name)
  {
    var k := SpaceStripped(lead, c, name, git, slashes);
    var p := lead[k..] + [c];
    assert lead[k..] + ([c] + name + (if git then GIT else "") + slashes)
        == p + name + (if git then GIT else "") + slashes;
    TailStripped(p, name, git, slashes);
    EndLeadsTo(p, name);
  }

  lemma EndLeadsTo(p: string, name: string)
    requires p != "" && p[|p| - 1] in SEPARATORS
    ensures LeadsTo(p + name, name)
  {
    assert (p + name)[|p|..] == name;
  }

  lemma BareSuffix(p: string, name: string, git: bool)
    requires PlainName(name) && !EndsWith(name, GIT)
    requires p != "" && p[|p| - 1] in SEPARATORS
    ensures TrimSuffix(p + name + (if git then GIT else ""), GIT) == p + name
  {
    var v := p + name + (if git then GIT else "");
    if git {
      assert v[|v| - 4..] == GIT;
      assert v[..|v| - 4] == p + name;
    } else {
      assert v == p + name;
      if |v| >= 4 {
        if |name| >= 4 {
          assert v[|v| - 4..] == name[|name| - 4..];
        } else {
          assert v[|v| - 4..][3 - |name|] == p[|p| - 1];
        }
      }
    }
  }

  /** owner/repo becomes repo: whatever precedes the last separator, the slug of
      a URL is made of its last name alone, with or without ".git" and trailing
      slashes. */
  lemma SlugOfName(lead: string, c: char, name: string, git: bool, slashes: string)
    requires c in SEPARATORS && PlainName(name) && !EndsWith(name, GIT) && AllSlashes(slashes)
    ensures Slug(lead + ([c] + name + (if git then GIT else "") + slashes)) == OrRepo(Sanitize(name))
  {
    var raw := lead + ([c] + name + (if git then GIT else "") + slashes);
    SuffixesStripped(lead, c, name, git, slashes);
    StrippedToName(StripSuffixes(raw), name);
  }

  /** A name that is safe already is its own slug. */
  lemma SlugIsRepositoryName(lead: string, c: char, name: string, git: bool, slashes: string)
    requires c in SEPARATORS && SafeSegment(name) && !EndsWith(name, GIT) && AllSlashes(slashes)
    ensures Slug(lead + ([c] + name + (if git then GIT else "") + slashes)) == name
  {
    SafeIsPlain(name);
    SlugOfName(lead, c, name, git, slashes);
    SafeIsSanitized(name);
  }

  /** A slug is its own slug exactly when it does not end in ".git". */
  lemma SlugFixedPoint(raw: string)
    ensures Slug(Slug(raw)) == Slug(raw) <==> !EndsWith(Slug(raw), GIT)
  {
    var name := Slug(raw);
    SlugIsSafe(raw);
    SafeIsPlain(name);
    TrimKeeps(name, SPACES);
    if EndsWith(name, GIT) {
      // ".git" itself is not a slug, so something shorter remains
      ShorterWithoutSuffix(name);
    } else {
      assert StripSuffixes(name) == name;
      StrippedToName(name, name);
      SafeIsSanitized(name);
    }
  }

  lemma {:induction false} KeptShrinks(s: string)
    ensures |KeptAll(s)| <= |s|
  {
    if s != "" {
      KeptShrinks(s[..|s| - 1]);
    }
  }

  lemma SanitizeShrinks(value: string)
    ensures |Sanitize(value)| <= |value|
  {
    var i, j := TrimIsSlice(value, SPACES);
    KeptShrinks(TrimSpace(value));
    var k, l := TrimIsSlice(KeptAll(TrimSpace(value)), EDGES);
  }

  lemma ShorterWithoutSuffix(name: string)
    requires SafeSegment(name) && EndsWith(name, GIT)
    ensures Slug(name) != name
  {
    SuffixComesOff(name);
    var cut := name[..|name| - 4];
    SegmentShrinks(cut);
    SanitizeShrinks(LastSegment(StripHost(StripUser(StripScheme(cut)))));
  }

  lemma SegmentShrinks(v: string)
    ensures |LastSegment(StripHost(StripUser(StripScheme(v))))| <= |v|
  {
    var bare := StripUser(StripScheme(v));
    assert |bare| <= |v|;
    var path := StripHost(bare);
    assert |path| <= |bare|;
  }

  lemma SuffixComesOff(name: string)
    requires SafeSegment(name) && EndsWith(name, GIT)
    ensures StripSuffixes(name) == name[..|name| - 4]
  {
    SafeIsPlain(name);
    TrimKeeps(name, SPACES);
    assert TrimRight(name, {'/'}) == name;
  }

  // -------------------------------------------------------- SecondarySubdirs

  /** The n-th candidate for a base name: the name itself, then -2, -3, ... */
  function Candidate(base: string, n: nat): string {
    if n <= 1 then base else base + "-" + Digits(n)
  }

  lemma CandidatesDistinct(base: string, m: nat, n: nat)
    requires 1 <= m && 1 <= n && Candidate(base, m) == Candidate(base, n)
    ensures m == n
  {
    if m > 1 && n > 1 {
      assert Candidate(base, m)[|base| + 1..] == Digits(m);
      assert Candidate(base, n)[|base| + 1..] == Digits(n);
      DigitsInjective(m, n);
    }
  }

  /** Pigeonhole: candidates that are all taken are no more than the names taken. */
  lemma {:induction false} TakenCandidates(base: string, n: nat, used: set<string>)
    requires forall k :: 1 <= k <= n ==> Candidate(base, k) in used
    ensures n <= |used|
  {
    if n > 0 {
      var last := Candidate(base, n);
      forall k | 1 <= k <= n - 1 ensures Candidate(base, k) in used - {last} {
        if Candidate(base, k) == last {
          CandidatesDistinct(base, k, n);
        }
      }
      TakenCandidates(base, n - 1, used - {last});
    }
  }

  /** n is the least suffix whose candidate is not among the names taken. */
  ghost predicate FirstFree(taken: seq<string>, base: string, n: nat) {
    && 1 <= n
    && Candidate(base, n) !in taken
    && forall k :: 1 <= k < n ==> Candidate(base, k) in taken
  }

  /** Repository i takes the first candidate for its slug that is still free. */
  ghost predicate PlacedAt(urls: seq<string>, names: seq<string>, suffixes: seq<nat>, i: nat)
    requires i < |urls| == |names| == |suffixes|
  {
    && FirstFree(names[..i], Slug(urls[i]), suffixes[i])
    && names[i] == Candidate(Slug(urls[i]), suffixes[i])
  }

  /** names, numbered by suffixes, is the layout of urls. */
  ghost predicate IsLayout(urls: seq<string>, names: seq<string>, suffixes: seq<nat>) {
    && |names| == |suffixes| == |urls|
    && forall i :: 0 <= i < |urls| ==> PlacedAt(urls, names, suffixes, i)
  }

  lemma LayoutSnoc(urls: seq<string>, names: seq<string>, suffixes: seq<nat>, url: string, n: nat)
    requires IsLayout(urls, names, suffixes)
    requires FirstFree(names, Slug(url), n)
    ensures IsLayout(urls + [url], names + [Candidate(Slug(url), n)], suffixes + [n])
  {
    var us, ns, ss := urls + [url], names + [Candidate(Slug(url), n)], suffixes + [n];
    forall i | 0 <= i < |us| ensures PlacedAt(us, ns, ss, i) {
      if i < |urls| {
        assert PlacedAt(urls, names, suffixes, i);
        assert ns[..i] == names[..i];
      } else {
        assert ns[..i] == names;
      }
    }
  }

  /** The workspace-relative path of a directory name. */
  function PathOf(name: string): string {
    REPOS_SUBDIR + "/" + name
  }

  /** The search for one directory name. */
  method FreeName(base: string, used: set<string>, ghost taken: seq<string>)
    returns (candidate: string, ghost suffix: nat)
    requires forall s :: s in used <==> s in taken
    requires |used| < 0x7fff_ffff_ffff_ffff
    ensures FirstFree(taken, base, suffix) && candidate == Candidate(base, suffix)
  {
    candidate := base;
    var n := 2;
    while candidate in used
      invariant 2 <= n && candidate == Candidate(base, n - 1)
      invariant forall k :: 1 <= k < n - 1 ==> Candidate(base, k) in used
      invariant n - 2 <= |used|
      decreases |used| + 2 - n
    {
      TakenCandidates(base, n - 1, used);
      var digits := Itoa(n);
      candidate := base + "-" + digits;
      n := n + 1;
    }
    suffix := n - 1;
  }

  /** The paths of a list of directory names. */
  ghost predicate ArePaths(paths: seq<string>, names: seq<string>) {
    |paths| == |names| && forall i :: 0 <= i < |paths| ==> paths[i] == PathOf(names[i])
  }

  /** The loop of SecondarySubdirs after its first i repositories. */
  ghost predicate LaidOut(
    urls: seq<string>, i: nat, paths: seq<string>, names: seq<string>, suffixes: seq<nat>, used: set<string>)
  {
    && i <= |urls| && |names| == i && |used| <= i
    && (forall s :: s in used <==> s in names)
    && IsLayout(urls[..i], names, suffixes)
    && ArePaths(paths, names)
  }

  lemma LaidOutNext(
    urls: seq<string>, i: nat, paths: seq<string>, names: seq<string>, suffixes: seq<nat>, used: set<string>, n: nat, name: string)
    requires LaidOut(urls, i, paths, names, suffixes, used) && i < |urls|
    requires FirstFree(names, Slug(urls[i]), n) && name == Candidate(Slug(urls[i]), n)
    ensures LaidOut(urls, i + 1, paths + [PathOf(name)], names + [name], suffixes + [n], used + {name})
  {
    LayoutSnoc(urls[..i], names, suffixes, urls[i], n);
    TakeSnoc(urls, i);
  }

  /** The body of the loop: the slug of one repository, and a free name for it. */
  method PlaceNext(urls: seq<string>, i: nat, used: set<string>,
                   ghost paths: seq<string>, ghost names: seq<string>, ghost suffixes: seq<nat>)
    returns (candidate: string, ghost suffix: nat)
    requires i < |urls| < 0x7fff_ffff_ffff_ffff && LaidOut(urls, i, paths, names, suffixes, used)
    ensures LaidOut(urls, i + 1, paths + [PathOf(candidate)], names + [candidate], suffixes + [suffix], used + {candidate})
  {
    var base := RepoSlug(urls[i]);
    candidate, suffix := FreeName(base, used, names);
    LaidOutNext(urls, i, paths, names, suffixes, used, suffix, candidate);
  }

  method SecondarySubdirs(urls: seq<string>)
    returns (out: array<string>, ghost names: seq<string>, ghost suffixes: seq<nat>)
    requires |urls| < 0x7fff_ffff_ffff_ffff
    ensures fresh(out)
    ensures IsLayout(urls, names, suffixes)
    ensures ArePaths(out[..], names)
  {
    var used: set<string> := {};
    out := new string[|urls|];
    names, suffixes := [], [];
    ghost var paths: seq<string> := [];
    for i := 0 to |urls|
      invariant out[..i] == paths
      invariant LaidOut(urls, i, paths, names, suffixes, used)
    {
      var candidate, suffix := PlaceNext(urls, i, used, paths, names, suffixes);
      used := used + {candidate};
      out[i] := PathOf(candidate);
      paths, names, suffixes := paths + [PathOf(candidate)], names + [candidate], suffixes + [suffix];
    }
    Whole(urls, paths, names, suffixes, used);
    assert out[..|urls|] == out[..];
  }

  lemma Whole(urls: seq<string>, paths: seq<string>, names: seq<string>, suffixes: seq<nat>, used: set<string>)
    requires LaidOut(urls, |urls|, paths, names, suffixes, used)
    ensures IsLayout(urls, names, suffixes) && ArePaths(paths, names)
  {
    assert urls[..|urls|] == urls;
  }

  // ----------------------------------------------------- what a layout promises

  /** No two repositories share a directory. */
  lemma LayoutIsCollisionFree(urls: seq<string>, names: seq<string>, suffixes: seq<nat>, i: nat, j: nat)
    requires IsLayout(urls, names, suffixes) && i < j < |urls|
    ensures PathOf(names[i]) != PathOf(names[j])
  {
    assert PlacedAt(urls, names, suffixes, j);
    assert names[i] in names[..j];
    var p := REPOS_SUBDIR + "/";
    assert (p + names[i])[|p|..] == names[i] && (p + names[j])[|p|..] == names[j];
  }

  /** The suffix of repository i never exceeds i + 1. */
  lemma SuffixBound(urls: seq<string>, names: seq<string>, suffixes: seq<nat>, i: nat)
    requires IsLayout(urls, names, suffixes) && i < |urls|
    ensures 1 <= suffixes[i] <= i + 1
  {
    assert PlacedAt(urls, names, suffixes, i);
    var used := set s | s in names[..i];
    SeqSetCardinality(names[..i]);
    TakenCandidates(Slug(urls[i]), suffixes[i] - 1, used);
  }

  lemma {:induction false} SeqSetCardinality<T>(s: seq<T>)
    ensures |set x | x in s| <= |s|
  {
    if s != [] {
      SeqSetCardinality(s[1..]);
      assert (set x | x in s) == (set x | x in s[1..]) + {s[0]};
    }
  }

  /** The layout is a function of the list, and the layout of a longer list
      extends the layout of a shorter one. */
  lemma {:induction false} LayoutIsStable(
    urls: seq<string>, names: seq<string>, suffixes: seq<nat>,
    more: seq<string>, moreNames: seq<string>, moreSuffixes: seq<nat>)
    requires urls <= more
    requires IsLayout(urls, names, suffixes) && IsLayout(more, moreNames, moreSuffixes)
    ensures names <= moreNames
  {
    if urls != [] {
      var n := |urls| - 1;
      LayoutPrefix(urls, names, suffixes, n);
      LayoutIsStable(urls[..n], names[..n], suffixes[..n], more, moreNames, moreSuffixes);
      assert PlacedAt(urls, names, suffixes, n) && PlacedAt(more, moreNames, moreSuffixes, n);
      FirstFreeUnique(names[..n], Slug(urls[n]), suffixes[n], moreSuffixes[n]);
      PrefixSnoc(names, moreNames, n);
    }
  }

  lemma FirstFreeUnique(taken: seq<string>, base: string, m: nat, n: nat)
    requires FirstFree(taken, base, m) && FirstFree(taken, base, n)
    ensures m == n
  {
  }

  lemma LayoutPrefix(urls: seq<string>, names: seq<string>, suffixes: seq<nat>, n: nat)
    requires IsLayout(urls, names, suffixes) && n <= |urls|
    ensures IsLayout(urls[..n], names[..n], suffixes[..n])
  {
    forall i | 0 <= i < n ensures PlacedAt(urls[..n], names[..n], suffixes[..n], i) {
      assert PlacedAt(urls, names, suffixes, i);
      assert names[..n][..i] == names[..i];
    }
  }

  /** Every directory name is safe to use as one path segment. */
  lemma LayoutIsSafe(urls: seq<string>, names: seq<string>, suffixes: seq<nat>, i: nat)
    requires IsLayout(urls, names, suffixes) && i < |urls|
    ensures SafeSegment(names[i])
  {
    assert PlacedAt(urls, names, suffixes, i);
    var base, n := Slug(urls[i]), suffixes[i];
    SlugIsSafe(urls[i]);
    if n > 1 {
      var d := Digits(n);
      assert names[i] == base + "-" + d;
      assert d[|d| - 1] in d;
      forall c | c in names[i] ensures IsSafe(c) {
        assert c in base || c == '-' || c in d;
      }
    }
  }
}
