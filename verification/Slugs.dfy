/** The slug of a repository address, character by character. */
module Slugs {
  import opened Strings
  import opened Decimal
  import opened Layout

  /** Letters, of which two outside ASCII have an ASCII lower case, digits and the
      underscore: what always shows in a slug. */
  predicate Core(c: char) {
    'a' <= c <= 'z' || 'A' <= c <= 'Z' || '0' <= c <= '9' || c == '_' || c == '\U{0130}' || c == '\U{212A}'
  }

  /** What shows inside a slug, but not at its ends. */
  predicate Mark(c: char) {
    c == '.' || c == '-' || c in SPACES
  }

  /** A capital shows as its lower-case letter, a space as a dash, and any other
      character that shows as itself. */
  predicate ShowsAs(c: char, d: char) {
    if 'A' <= c <= 'Z' then d as int == c as int + 32
    else if c == '\U{0130}' then d == 'i'
    else if c == '\U{212A}' then d == 'k'
    else if c in SPACES then d == '-'
    else d == c
  }

  type Test = char -> bool
  type Image = (char, char) -> bool

  /** The text shows exactly the core characters and marks of s, in order, at the
      picked places. */
  ghost predicate ShowsAll(s: string, picked: seq<nat>, text: string, core: Test, mark: Test, image: Image) {
    && |picked| == |text|
    && (forall m, n :: 0 <= m < n < |picked| ==> picked[m] < picked[n])
    && (forall m :: 0 <= m < |picked| ==> picked[m] < |s|)
    && (forall m :: 0 <= m < |picked| ==> core(s[picked[m]]) || mark(s[picked[m]]))
    && (forall m :: 0 <= m < |picked| ==> image(s[picked[m]], text[m]))
    && (forall k :: 0 <= k < |s| && (core(s[k]) || mark(s[k])) ==> k in picked)
  }

  /** The slug shows the characters of the name at the picked places, in order. It
      begins and ends with a core character, and leaves out only what is neither core
      nor a mark, and the marks before its first and after its last character. */
  ghost predicate SlugOf(name: string, picked: seq<nat>, slug: string, core: Test, mark: Test, image: Image) {
    && slug != "" && |picked| == |slug|
    && (forall m, n :: 0 <= m < n < |picked| ==> picked[m] < picked[n])
    && (forall m :: 0 <= m < |picked| ==> picked[m] < |name|)
    && (forall m :: 0 <= m < |picked| ==> image(name[picked[m]], slug[m]))
    && core(name[picked[0]]) && core(name[picked[|slug| - 1]])
    && (forall k :: 0 <= k < |name| && k !in picked ==> !core(name[k]))
    && (forall k :: 0 <= k < |name| && k !in picked && mark(name[k]) ==> k < picked[0] || picked[|slug| - 1] < k)
  }

  // ------------------------------------------------------------- one character

  /** What one character contributes, as its class says. */
  predicate Contributes(c: char, kept: string, core: Test, mark: Test, image: Image) {
    if core(c) then |kept| == 1 && image(c, kept[0]) && kept[0] !in EDGES && !mark(c)
    else if mark(c) then |kept| == 1 && image(c, kept[0]) && kept[0] in EDGES
    else kept == ""
  }

  lemma CoreContributes(c: char)
    requires Core(c)
    ensures Contributes(c, Kept(Lower(c)), Core, Mark, ShowsAs)
  {
  }

  lemma OtherContributes(c: char)
    requires !Core(c)
    ensures Contributes(c, Kept(Lower(c)), Core, Mark, ShowsAs)
  {
  }

  lemma CharContributes()
    ensures forall c :: Contributes(c, Kept(Lower(c)), Core, Mark, ShowsAs)
  {
    forall c ensures Contributes(c, Kept(Lower(c)), Core, Mark, ShowsAs) {
      if Core(c) {
        CoreContributes(c);
      } else {
        OtherContributes(c);
      }
    }
  }

  // ------------------------------------------------------------------ the name

  /** The characters kept one by one. */
  function Joined(s: string, kept: char -> string): string {
    if s == "" then "" else Joined(s[..|s| - 1], kept) + kept(s[|s| - 1])
  }

  lemma {:induction false} KeptAllIsJoined(s: string)
    ensures KeptAll(s) == Joined(s, c => Kept(Lower(c)))
  {
    if s != "" {
      KeptAllIsJoined(s[..|s| - 1]);
    }
  }

  ghost predicate EdgesAreMarks(s: string, picked: seq<nat>, text: string, mark: Test) {
    && |picked| == |text|
    && forall m :: 0 <= m < |picked| ==> picked[m] < |s| && (text[m] in EDGES <==> mark(s[picked[m]]))
  }

  lemma {:induction false} JoinedShows(s: string, kept: char -> string, core: Test, mark: Test, image: Image) returns (picked: seq<nat>)
    requires forall c :: Contributes(c, kept(c), core, mark, image)
    ensures ShowsAll(s, picked, Joined(s, kept), core, mark, image) && EdgesAreMarks(s, picked, Joined(s, kept), mark)
  {
    if s == "" {
      picked := [];
    } else {
      var n := |s| - 1;
      var before := JoinedShows(s[..n], kept, core, mark, image);
      assert Contributes(s[n], kept(s[n]), core, mark, image);
      picked := OneMoreShown(s, before, Joined(s[..n], kept), kept(s[n]), core, mark, image);
    }
  }

  lemma OneMoreShown(s: string, before: seq<nat>, text: string, more: string, core: Test, mark: Test, image: Image)
    returns (picked: seq<nat>)
    requires s != "" && ShowsAll(s[..|s| - 1], before, text, core, mark, image) && EdgesAreMarks(s[..|s| - 1], before, text, mark)
    requires Contributes(s[|s| - 1], more, core, mark, image)
    ensures ShowsAll(s, picked, text + more, core, mark, image) && EdgesAreMarks(s, picked, text + more, mark)
  {
    var n := |s| - 1;
    if core(s[n]) || mark(s[n]) {
      picked := before + [n];
      assert more == [more[0]];
      ShownAppended(s, before, text, more[0], core, mark, image);
      EdgesAppended(s, before, text, more[0], mark);
    } else {
      picked := before;
      assert text + more == text;
      NothingAppended(s, before, text, core, mark, image);
    }
  }

  lemma NothingAppended(s: string, before: seq<nat>, text: string, core: Test, mark: Test, image: Image)
    requires s != "" && ShowsAll(s[..|s| - 1], before, text, core, mark, image) && EdgesAreMarks(s[..|s| - 1], before, text, mark)
    requires !core(s[|s| - 1]) && !mark(s[|s| - 1])
    ensures ShowsAll(s, before, text, core, mark, image) && EdgesAreMarks(s, before, text, mark)
  {
    var n := |s| - 1;
    assert forall k :: 0 <= k < n ==> s[..n][k] == s[k];
  }

  lemma ShownAppended(s: string, before: seq<nat>, text: string, d: char, core: Test, mark: Test, image: Image)
    requires s != "" && ShowsAll(s[..|s| - 1], before, text, core, mark, image)
    requires (core(s[|s| - 1]) || mark(s[|s| - 1])) && image(s[|s| - 1], d)
    ensures ShowsAll(s, before + [|s| - 1], text + [d], core, mark, image)
  {
    var n := |s| - 1;
    assert forall k :: 0 <= k < n ==> s[..n][k] == s[k];
    forall k | 0 <= k < |s| && (core(s[k]) || mark(s[k])) ensures k in before + [n] {
      assert k < n ==> k in before;
    }
  }

  lemma EdgesAppended(s: string, before: seq<nat>, text: string, d: char, mark: Test)
    requires s != "" && EdgesAreMarks(s[..|s| - 1], before, text, mark)
    requires d in EDGES <==> mark(s[|s| - 1])
    ensures EdgesAreMarks(s, before + [|s| - 1], text + [d], mark)
  {
    var n := |s| - 1;
    assert forall k :: 0 <= k < n ==> s[..n][k] == s[k];
  }

  /** Cutting the edges leaves a slug, when anything but edges is there. */
  lemma OnlyEndsAreCut(name: string, all: seq<nat>, kept: string, i: nat, j: nat, core: Test, mark: Test, image: Image)
    requires ShowsAll(name, all, kept, core, mark, image) && EdgesAreMarks(name, all, kept, mark)
    requires i < j <= |kept| && forall m :: 0 <= m < i || j <= m < |kept| ==> kept[m] in EDGES
    requires kept[i] !in EDGES && kept[j - 1] !in EDGES
    requires forall c :: core(c) ==> !mark(c)
    ensures SlugOf(name, all[i..j], kept[i..j], core, mark, image)
  {
    var picked := all[i..j];
    forall k | 0 <= k < |name| && k !in picked && (core(name[k]) || mark(name[k]))
      ensures mark(name[k]) && (k < picked[0] || picked[j - i - 1] < k)
    {
      LeftOutIsEdge(name, all, kept, i, j, k, mark);
    }
  }

  lemma LeftOutIsEdge(name: string, all: seq<nat>, kept: string, i: nat, j: nat, k: nat, mark: Test)
    requires EdgesAreMarks(name, all, kept, mark) && i < j <= |kept| && k in all && k !in all[i..j]
    requires forall m, n :: 0 <= m < n < |all| ==> all[m] < all[n]
    requires forall m :: 0 <= m < i || j <= m < |kept| ==> kept[m] in EDGES
    ensures k < |name| && mark(name[k]) && (k < all[i] || all[j - 1] < k)
  {
    var m :| 0 <= m < |all| && all[m] == k;
    assert forall q :: i <= q < j ==> all[i..j][q - i] == all[q] && all[q] in all[i..j];
    assert kept[m] in EDGES;
  }

  /** What is left of a trimmed text has no edges. */
  lemma TrimmedEnds(text: string, cut: set<char>, i: nat, j: nat)
    requires i < j <= |text| && Trim(text, cut) == text[i..j]
    ensures text[i] !in cut && text[j - 1] !in cut
  {
    var r := Trim(text, cut);
    assert r[0] == text[i] && r[|r| - 1] == text[j - 1];
  }

  /** A core character is never cut. */
  lemma CoreIsLeft(name: string, all: seq<nat>, kept: string, i: nat, j: nat, k: nat, core: Test, mark: Test)
    requires EdgesAreMarks(name, all, kept, mark) && k < |name| && core(name[k]) && k in all && i <= j <= |kept|
    requires forall m :: 0 <= m < i || j <= m < |kept| ==> kept[m] in EDGES
    requires forall c :: core(c) ==> !mark(c)
    ensures i < j
  {
    var m :| 0 <= m < |all| && all[m] == k;
    assert kept[m] !in EDGES;
  }

  lemma NoCoreIsEdges(name: string, all: seq<nat>, kept: string, core: Test, mark: Test, image: Image)
    requires ShowsAll(name, all, kept, core, mark, image) && EdgesAreMarks(name, all, kept, mark)
    requires forall k :: 0 <= k < |name| ==> !core(name[k])
    ensures forall m :: 0 <= m < |kept| ==> kept[m] in EDGES
  {
  }

  lemma TrimmedShows(name: string, kept: string, all: seq<nat>, core: Test, mark: Test, image: Image) returns (picked: seq<nat>)
    requires ShowsAll(name, all, kept, core, mark, image) && EdgesAreMarks(name, all, kept, mark)
    requires forall c :: core(c) ==> !mark(c)
    ensures if exists k :: 0 <= k < |name| && core(name[k]) then SlugOf(name, picked, Trim(kept, EDGES), core, mark, image)
            else Trim(kept, EDGES) == ""
  {
    var i, j := TrimIsSlice(kept, EDGES);
    picked := all[i..j];
    if k :| 0 <= k < |name| && core(name[k]) {
      CoreIsLeft(name, all, kept, i, j, k, core, mark);
      TrimmedEnds(kept, EDGES, i, j);
      OnlyEndsAreCut(name, all, kept, i, j, core, mark, image);
    } else {
      NoCoreIsEdges(name, all, kept, core, mark, image);
      TrimEmpties(kept, EDGES);
    }
  }

  /** The slug of an address: "repo" when its last name has no letter, no digit and no
      underscore, and otherwise that name with its capitals lowered, its spaces turned
      into dashes, everything else dropped, and no mark at either end. */
  lemma SlugShowsTheName(lead: string, c: char, name: string, git: bool, slashes: string) returns (picked: seq<nat>)
    requires c in SEPARATORS && PlainName(name) && !EndsWith(name, GIT) && AllSlashes(slashes)
    ensures var slug := Slug(lead + ([c] + name + (if git then GIT else "") + slashes));
      if exists k :: 0 <= k < |name| && Core(name[k]) then SlugOf(name, picked, slug, Core, Mark, ShowsAs) else slug == "repo"
  {
    SlugOfName(lead, c, name, git, slashes);
    picked := SanitizedShows(name);
  }

  lemma SanitizedShows(name: string) returns (picked: seq<nat>)
    requires PlainName(name)
    ensures if exists k :: 0 <= k < |name| && Core(name[k]) then SlugOf(name, picked, Sanitize(name), Core, Mark, ShowsAs)
            else Sanitize(name) == ""
  {
    TrimKeeps(name, SPACES);
    CoreIsNoMark();
    var all := KeptAllShows(name);
    picked := TrimmedShows(name, KeptAll(name), all, Core, Mark, ShowsAs);
  }

  lemma KeptAllShows(name: string) returns (all: seq<nat>)
    ensures ShowsAll(name, all, KeptAll(name), Core, Mark, ShowsAs) && EdgesAreMarks(name, all, KeptAll(name), Mark)
  {
    KeptAllIsJoined(name);
    CharContributes();
    all := JoinedShows(name, c => Kept(Lower(c)), Core, Mark, ShowsAs);
  }

  lemma CoreIsNoMark()
    ensures forall c :: Core(c) ==> !Mark(c)
  {
  }

  // ----------------------------------------------------------- nothing dropped

  lemma {:induction false} NothingDropped(s: string, kept: char -> string, core: Test, mark: Test, image: Image)
    requires forall c :: Contributes(c, kept(c), core, mark, image)
    requires forall k :: 0 <= k < |s| ==> core(s[k]) || mark(s[k])
    ensures |Joined(s, kept)| == |s| && forall k :: 0 <= k < |s| ==> image(s[k], Joined(s, kept)[k])
    ensures s != "" && core(s[0]) ==> Joined(s, kept)[0] !in EDGES
    ensures s != "" && core(s[|s| - 1]) ==> Joined(s, kept)[|s| - 1] !in EDGES
  {
    if s != "" {
      var n := |s| - 1;
      NothingDropped(s[..n], kept, core, mark, image);
      assert Contributes(s[n], kept(s[n]), core, mark, image);
    }
  }

  /** In particular a name that drops nothing and has no mark at its ends keeps its
      length, and every character its place: WebApp becomes webapp. */
  lemma SlugKeepsPlaces(lead: string, c: char, name: string, git: bool, slashes: string)
    requires c in SEPARATORS && PlainName(name) && !EndsWith(name, GIT) && AllSlashes(slashes)
    requires forall k :: 0 <= k < |name| ==> Core(name[k]) || Mark(name[k])
    requires Core(name[0]) && Core(name[|name| - 1])
    ensures var slug := Slug(lead + ([c] + name + (if git then GIT else "") + slashes));
      |slug| == |name| && forall k :: 0 <= k < |name| ==> ShowsAs(name[k], slug[k])
  {
    SlugOfName(lead, c, name, git, slashes);
    SanitizedKeepsPlaces(name);
  }

  lemma SanitizedKeepsPlaces(name: string)
    requires PlainName(name)
    requires forall k :: 0 <= k < |name| ==> Core(name[k]) || Mark(name[k])
    requires Core(name[0]) && Core(name[|name| - 1])
    ensures |Sanitize(name)| == |name| && forall k :: 0 <= k < |name| ==> ShowsAs(name[k], Sanitize(name)[k])
  {
    var kept := c => Kept(Lower(c));
    TrimKeeps(name, SPACES);
    KeptAllIsJoined(name);
    CharContributes();
    NothingDropped(name, kept, Core, Mark, ShowsAs);
    TrimKeeps(KeptAll(name), EDGES);
  }

  // ----------------------------------------------------------- directory names

  /** Repository i lies under repos/ in its slug, or, when an earlier repository has
      that name, in its slug, a dash and a decimal number from two on. */
  lemma DirectoryIsNumbered(urls: seq<string>, names: seq<string>, suffixes: seq<nat>, i: nat) returns (number: string)
    requires IsLayout(urls, names, suffixes) && i < |urls|
    ensures PathOf(names[i]) == "repos/" + names[i]
    ensures if Slug(urls[i]) !in names[..i] then names[i] == Slug(urls[i])
            else names[i] == Slug(urls[i]) + "-" + number && 2 <= ValueOf(number) == suffixes[i] <= i + 1
  {
    assert PlacedAt(urls, names, suffixes, i);
    number := Digits(suffixes[i]);
    DigitsRoundTrip(suffixes[i]);
    SuffixBound(urls, names, suffixes, i);
    assert Candidate(Slug(urls[i]), 1) == Slug(urls[i]);
  }
}
