/** What the layout steps make of every gap, every run of newlines and every heading. */
module PreprocessingShape {
  import opened Text
  import opened Preprocessing
  import opened PreprocessingTheorems

  // ---- steps 5 and 6: what a gap becomes ----

  /** What is written for a gap in which a paragraph ends, or not, and blanks follow, or not. */
  function GapText(ends: bool, blank: bool): string {
    (if ends then "\n\n" else "") + if blank then " " else ""
  }

  predicate IsGapChar(c: char) {
    c == ' ' || c == '\t' || c == '\n'
  }

  /**
    The text with every gap of blanks, tabs and newlines written anew: a pair of newlines in it, or a
    marker, ends a paragraph; blanks after the last pair, or without one, become one blank.
   */
  function Flow(s: string, ends: bool, blank: bool): string
    decreases |s|
  {
    if s == "" then GapText(ends, blank)
    else if "\n\n" <= s || NL_MARKER <= s then Flow(s[2..], true, false)
    else if IsGapChar(s[0]) then Flow(s[1..], ends, true)
    else GapText(ends, blank) + [s[0]] + Flow(s[1..], false, false)
  }

  function Spaced(ends: bool, blank: bool, t: string): string {
    Capped(NoTrailing(OneSpace(GapText(ends, blank) + t, false)), 0)
  }

  function Pair(ends: bool): string {
    if ends then "\n\n" else ""
  }

  lemma OneSpaceAfterBlank(blank: bool, v: string)
    ensures OneSpace((if blank then " " else "") + v, false) == (if blank then " " else "") + OneSpace(v, blank)
  {
    if blank {
      assert (" " + v)[1..] == v;
    } else {
      assert "" + v == v;
    }
  }

  lemma OneSpaceAfterPair(ends: bool, t: string)
    ensures OneSpace(Pair(ends) + t, false) == Pair(ends) + OneSpace(t, false)
  {
    if ends {
      OneSpaceOverPair(t, false);
    } else {
      assert "" + t == t;
    }
  }

  lemma OneSpaceAfterGap(ends: bool, blank: bool, v: string)
    ensures OneSpace(GapText(ends, blank) + v, false) == GapText(ends, blank) + OneSpace(v, blank)
  {
    hide OneSpace;
    var b := if blank then " " else "";
    OneSpaceAfterBlank(blank, v);
    OneSpaceAfterPair(ends, b + v);
    assert GapText(ends, blank) == Pair(ends) + b;
    AppendAssociates(Pair(ends), b, v);
    AppendAssociates(Pair(ends), b, OneSpace(v, blank));
  }

  lemma NoTrailingAfterPair(ends: bool, v: string)
    ensures NoTrailing(Pair(ends) + v) == Pair(ends) + NoTrailing(v)
  {
    if ends {
      assert ("\n\n" + v)[1..] == "\n" + v && ("\n" + v)[1..] == v;
    } else {
      assert "" + v == v;
    }
  }

  lemma CappedAfterPair(ends: bool, v: string, before: nat)
    ensures before == 0 ==> Capped(Pair(ends) + v, before) == Pair(ends) + Capped(v, if ends then 2 else 0)
    ensures before >= 2 ==> Capped(Pair(ends) + v, before) == Capped(v, before + if ends then 2 else 0)
  {
    if ends {
      assert ("\n\n" + v)[1..] == "\n" + v && ("\n" + v)[1..] == v;
    } else {
      assert "" + v == v;
    }
  }

  lemma {:induction false} CappedPast(s: string, m: nat, n: nat)
    requires m >= 2 && n >= 2
    ensures Capped(s, m) == Capped(s, n)
  {
    if s != "" && s[0] == '\n' {
      CappedPast(s[1..], m + 1, n + 1);
    }
  }

  lemma SpacedNothing(ends: bool, blank: bool)
    ensures Spaced(ends, blank, "") == GapText(ends, blank)
  {
    OneSpaceAfterGap(ends, blank, "");
    var rest := if blank then " " else "";
    assert blank ==> !SpacesThenNewline(" ") by { assert " "[1..] == ""; }
    assert NoTrailing(rest) == rest by { assert blank ==> " "[1..] == ""; }
    assert GapText(ends, blank) + "" == Pair(ends) + rest;
    NoTrailingAfterPair(ends, rest);
    CappedAfterPair(ends, rest, 0);
    assert Capped(rest, if ends then 2 else 0) == rest by { assert blank ==> " "[1..] == ""; }
  }

  /** A pair of newlines ends the paragraph and takes the blanks before it away. */
  lemma SpacedPair(ends: bool, blank: bool, u: string)
    ensures Spaced(ends, blank, "\n\n" + u) == Spaced(true, false, u)
  {
    hide Capped, NoTrailing, OneSpace;
    OneSpaceAfterGap(ends, blank, "\n\n" + u);
    OneSpaceOverPair(u, blank);
    var w := OneSpace(u, false);
    BlankBeforePair(blank, w);
    NoTrailingAfterPair(ends, (if blank then " " else "") + ("\n\n" + w));
    assert GapText(ends, blank) + ("\n\n" + w) == Pair(ends) + ((if blank then " " else "") + ("\n\n" + w));
    NoTrailingAfterPair(true, w);
    var x := NoTrailing(w);
    CappedAfterPair(ends, "\n\n" + x, 0);
    CappedAfterPair(true, x, 0);
    CappedAfterPair(true, x, 2);
    CappedPast(x, 2, 4);
    OneSpaceAfterGap(true, false, u);
    assert GapText(true, false) == Pair(true);
    NothingBefore(Capped(Pair(true) + x, 0));
  }

  lemma NothingBefore(s: string)
    ensures "" + s == s
  {
  }

  lemma OneSpaceOverPair(u: string, blank: bool)
    ensures OneSpace("\n\n" + u, blank) == "\n\n" + OneSpace(u, false)
  {
    assert ("\n\n" + u)[1..] == "\n" + u && ("\n" + u)[1..] == u;
  }

  lemma BlankBeforePair(blank: bool, w: string)
    ensures NoTrailing((if blank then " " else "") + ("\n\n" + w)) == "\n\n" + NoTrailing(w)
  {
    NoTrailingAfterPair(true, w);
    var t := (if blank then " " else "") + ("\n\n" + w);
    if blank {
      assert t[1..] == "\n\n" + w && SpacesThenNewline(t[1..]);
    } else {
      assert t == "\n\n" + w;
    }
  }

  /** Blanks and tabs in a gap are one blank. */
  lemma SpacedBlank(ends: bool, blank: bool, c: char, u: string)
    requires c == ' ' || c == '\t'
    ensures Spaced(ends, blank, [c] + u) == Spaced(ends, true, u)
  {
    hide Capped, NoTrailing;
    OneSpaceAfterGap(ends, blank, [c] + u);
    OneSpaceAfterGap(ends, true, u);
    assert ([c] + u)[1..] == u;
    assert OneSpace([c] + u, blank) == (if blank then "" else " ") + OneSpace(u, true);
    hide OneSpace;
    assert GapText(ends, blank) + ((if blank then "" else " ") + OneSpace(u, true)) == GapText(ends, true) + OneSpace(u, true);
  }

  lemma SolidOneSpace(c: char, u: string, blank: bool)
    requires !IsGapChar(c)
    ensures OneSpace([c] + u, blank) == [c] + OneSpace(u, false)
  {
    assert ([c] + u)[1..] == u;
  }

  lemma SolidWritten(ends: bool, blank: bool, c: char, w: string)
    requires !IsGapChar(c)
    ensures Capped(NoTrailing(GapText(ends, blank) + ([c] + w)), 0) == GapText(ends, blank) + [c] + Capped(NoTrailing(w), 0)
  {
    hide Capped, NoTrailing;
    var b := if blank then " " else "";
    var x := NoTrailing(w);
    assert GapText(ends, blank) == Pair(ends) + b;
    AppendAssociates(Pair(ends), b, [c] + w);
    NoTrailingAfterPair(ends, b + ([c] + w));
    SolidNotTrailing(blank, c, w);
    CappedAfterPair(ends, b + ([c] + x), 0);
    SolidNotCapped(blank, c, x, if ends then 2 else 0);
    AppendAssociates(Pair(ends), b, [c] + Capped(x, 0));
    AppendAssociates(GapText(ends, blank), [c], Capped(x, 0));
  }

  /** Any other character ends the gap. */
  lemma SpacedSolid(ends: bool, blank: bool, c: char, u: string)
    requires !IsGapChar(c)
    ensures Spaced(ends, blank, [c] + u) == GapText(ends, blank) + [c] + Spaced(false, false, u)
  {
    hide Capped, NoTrailing, OneSpace, GapText;
    OneSpaceAfterGap(ends, blank, [c] + u);
    SolidOneSpace(c, u, blank);
    SolidWritten(ends, blank, c, OneSpace(u, false));
    NoGap(u);
  }

  lemma NoGap(u: string)
    ensures GapText(false, false) + u == u
  {
  }

  lemma SolidNotTrailing(blank: bool, c: char, w: string)
    requires !IsGapChar(c)
    ensures NoTrailing((if blank then " " else "") + ([c] + w)) == (if blank then " " else "") + ([c] + NoTrailing(w))
  {
    var t := [c] + w;
    assert t[1..] == w && NoTrailing(t) == [c] + NoTrailing(w);
    if blank {
      assert (" " + t)[1..] == t && !SpacesThenNewline(t);
    } else {
      assert "" + t == t;
    }
  }

  lemma SolidNotCapped(blank: bool, c: char, x: string, before: nat)
    requires !IsGapChar(c)
    ensures Capped((if blank then " " else "") + ([c] + x), before) == (if blank then " " else "") + ([c] + Capped(x, 0))
  {
    var t := [c] + x;
    assert t[1..] == x;
    if blank {
      assert (" " + t)[1..] == t;
    } else {
      assert "" + t == t;
    }
  }

  lemma {:induction false} SpacedIsFlow(s: string, ends: bool, blank: bool)
    ensures Spaced(ends, blank, Joined(s)) == Flow(s, ends, blank)
    decreases |s|
  {
    hide Spaced, Joined;
    if s == "" {
      NothingJoined();
      SpacedNothing(ends, blank);
    } else {
      JoinedStep(s);
      if "\n\n" <= s || NL_MARKER <= s {
        SpacedPair(ends, blank, Joined(s[2..]));
        SpacedIsFlow(s[2..], true, false);
      } else if s[0] == '\n' {
        SpacedBlank(ends, blank, ' ', Joined(s[1..]));
        SpacedIsFlow(s[1..], ends, true);
      } else if IsGapChar(s[0]) {
        SpacedBlank(ends, blank, s[0], Joined(s[1..]));
        SpacedIsFlow(s[1..], ends, true);
      } else {
        SpacedSolid(ends, blank, s[0], Joined(s[1..]));
        SpacedIsFlow(s[1..], false, false);
      }
    }
  }

  lemma NothingJoined()
    ensures Joined("") == ""
  {
  }

  /** Steps 5 and 6 write every gap anew and change nothing else, but strip the ends. */
  lemma ParagraphsAre(s: string)
    ensures Paragraphs(s) == Strip(Flow(s, false, false))
  {
    hide Flow, Joined, Strip;
    SpacedIsFlow(s, false, false);
    assert GapText(false, false) + Joined(s) == Joined(s);
  }

  // ---- step 4b: runs of newlines ----

  /** Is the character kept: anything but a newline after two others? */
  predicate KeptAt(s: string, i: nat)
    requires i < |s|
  {
    s[i] != '\n' || i < 2 || s[i - 1] != '\n' || s[i - 2] != '\n'
  }

  /** The characters kept among the first `n`. */
  function KeptOf(s: string, n: nat): string
    requires n <= |s|
  {
    if n == 0 then "" else KeptOf(s, n - 1) + if KeptAt(s, n - 1) then [s[n - 1]] else ""
  }

  /** How many newlines end the text, counting to two. */
  function NewlinesBefore(s: string, n: nat): nat
    requires n <= |s|
  {
    if n == 0 || s[n - 1] != '\n' then 0 else if n == 1 || s[n - 2] != '\n' then 1 else 2
  }

  lemma {:induction false} CappedFrom(s: string, n: nat, before: nat)
    requires n <= |s| && (before == NewlinesBefore(s, n) || (before >= 2 && NewlinesBefore(s, n) == 2))
    ensures KeptOf(s, n) + Capped(s[n..], before) == KeptOf(s, |s|)
    decreases |s| - n
  {
    if n < |s| {
      var next := if s[n] == '\n' then before + 1 else 0;
      assert s[n..][1..] == s[n + 1..];
      CappedFrom(s, n + 1, next);
      assert Capped(s[n..], before) == (if KeptAt(s, n) then [s[n]] else "") + Capped(s[n + 1..], next);
      AppendAssociates(KeptOf(s, n), if KeptAt(s, n) then [s[n]] else "", Capped(s[n + 1..], next));
    } else {
      assert s[n..] == "";
      assert KeptOf(s, n) + "" == KeptOf(s, n);
    }
  }

  /** Of each run of newlines the first two stay. */
  lemma CappedKeeps(s: string)
    ensures Capped(s, 0) == KeptOf(s, |s|)
  {
    CappedFrom(s, 0, 0);
    assert s[0..] == s && "" + Capped(s, 0) == Capped(s, 0);
  }

  // ---- step 4b: headings ----

  /** The first `n` characters are a heading: one to six marks, a white space, and the rest of that line. */
  ghost predicate IsHeadingOf(s: string, n: nat) {
    exists h :: 1 <= h <= 6 && h < n <= |s| && (forall i :: 0 <= i < h ==> s[i] == '#') && IsSpace(s[h]) && LineFrom(s, h + 1, n)
  }

  /** From `k` to `n` there is no newline, and the line ends at `n`. */
  ghost predicate LineFrom(s: string, k: nat, n: nat) {
    k <= n <= |s| && (forall i :: k <= i < n ==> s[i] != '\n') && (n < |s| ==> s[n] == '\n')
  }

  lemma {:induction false} HashesAre(s: string, h: nat)
    requires h < |s| && (forall i :: 0 <= i < h ==> s[i] == '#') && s[h] != '#'
    ensures Hashes(s) == h
    decreases h
  {
    if h > 0 {
      HashesAre(s[1..], h - 1);
    }
  }

  lemma LineEndsOnce(s: string, k: nat, m: nat, n: nat)
    requires LineFrom(s, k, m) && LineFrom(s, k, n)
    ensures m == n
  {
  }

  lemma HeadingHasShape(s: string)
    requires HeadingLength(s) > 0
    ensures IsHeadingOf(s, HeadingLength(s))
  {
    hide IsSpace, RestOfLine, Hashes, HeadingLength;
    HeadingShape(s);
    HeadingParts(s);
    HeadingCount(s);
    RestFrom(s, Hashes(s) + 1);
    assert LineFrom(s, Hashes(s) + 1, HeadingLength(s));
  }

  lemma ShapeIsHeading(s: string, n: nat)
    requires IsHeadingOf(s, n)
    ensures HeadingLength(s) == n
  {
    hide IsSpace, RestOfLine, Hashes;
    var h :| 1 <= h <= 6 && h < n <= |s| && (forall i :: 0 <= i < h ==> s[i] == '#') && IsSpace(s[h]) && LineFrom(s, h + 1, n);
    MarkIsNoSpace();
    HashesAre(s, h);
    RestFrom(s, h + 1);
    LineEndsOnce(s, h + 1, n, h + 1 + RestOfLine(s[h + 1..]));
  }

  lemma HeadingWhen(s: string, n: nat)
    requires n > 0
    ensures HeadingLength(s) == n <==> IsHeadingOf(s, n)
  {
    hide IsHeadingOf, HeadingLength;
    if HeadingLength(s) > 0 {
      HeadingHasShape(s);
    }
    if IsHeadingOf(s, n) {
      ShapeIsHeading(s, n);
    }
  }

  lemma HeadingCount(s: string)
    requires HeadingLength(s) > 0
    ensures Hashes(s) <= 6
  {
  }

  lemma MarkIsNoSpace()
    ensures !IsSpace('#')
  {
  }

  /** A heading begins at `p`, the start of a line, and has `n` characters. */
  ghost predicate HeadingAt(s: string, atLineStart: bool, p: nat, n: nat) {
    p < |s| && n > 0 && (if p == 0 then atLineStart else s[p - 1] == '\n') && IsHeadingOf(s[p..], n)
  }

  ghost predicate FirstHeading(s: string, atLineStart: bool, p: nat, n: nat) {
    p + n <= |s| && HeadingAt(s, atLineStart, p, n) && forall i: nat, j: nat :: i < p ==> !HeadingAt(s, atLineStart, i, j)
  }

  /** The output starts with the text before the heading, and the heading between pairs of newlines. */
  ghost predicate WrittenApart(s: string, out: string, p: nat, n: nat) {
    && p + n <= |s| && p + n + 4 <= |out|
    && out[..p] == s[..p] && out[p..p + 2] == "\n\n" && out[p + 2..p + 2 + n] == s[p..p + n] && out[p + 2 + n..p + 4 + n] == "\n\n"
  }

  /** The text with its headings, from left to right, set apart by pairs of newlines. */
  ghost predicate SetApart(s: string, atLineStart: bool, out: string)
    decreases |s|
  {
    if forall p: nat, n: nat :: !HeadingAt(s, atLineStart, p, n) then out == s
    else exists p: nat, n: nat ::
      FirstHeading(s, atLineStart, p, n) && n > 0 && WrittenApart(s, out, p, n) && SetApart(s[p + n..], s[p + n - 1] == '\n', out[p + n + 4..])
  }

  lemma HeadingLater(s: string, atLineStart: bool, p: nat, n: nat)
    requires s != ""
    ensures HeadingAt(s, atLineStart, p + 1, n) <==> HeadingAt(s[1..], s[0] == '\n', p, n)
  {
    hide IsHeadingOf;
    if p + 1 < |s| {
      assert s[p + 1..] == s[1..][p..];
    }
  }

  lemma HeadingNow(s: string, atLineStart: bool, n: nat)
    ensures HeadingAt(s, atLineStart, 0, n) <==> s != "" && atLineStart && n > 0 && HeadingLength(s) == n
  {
    hide IsHeadingOf, HeadingLength;
    assert s[0..] == s;
    if n > 0 {
      HeadingWhen(s, n);
    }
    if HeadingLength(s) == n && n > 0 {
      NoHeadingInNothing(s);
    }
  }

  lemma NoHeadingInNothing(s: string)
    ensures HeadingLength(s) <= |s|
  {
  }

  lemma FirstLater(s: string, atLineStart: bool, p: nat, n: nat)
    requires s != "" && (forall n: nat :: !HeadingAt(s, atLineStart, 0, n)) && FirstHeading(s[1..], s[0] == '\n', p, n)
    ensures FirstHeading(s, atLineStart, p + 1, n)
  {
    hide HeadingAt;
    HeadingLater(s, atLineStart, p, n);
    forall i: nat, j: nat | i < p + 1 ensures !HeadingAt(s, atLineStart, i, j) {
      if i > 0 {
        HeadingLater(s, atLineStart, i - 1, j);
      }
    }
  }

  lemma ShiftedSlice(c: char, t: string, i: nat, j: nat)
    requires i <= j <= |t|
    ensures ([c] + t)[i + 1..j + 1] == t[i..j]
  {
  }

  lemma ShiftedPrefix(c: char, t: string, i: nat)
    requires i <= |t|
    ensures ([c] + t)[..i + 1] == [c] + t[..i]
    ensures ([c] + t)[i + 1..] == t[i..]
  {
  }

  lemma ApartLater(s: string, out: string, p: nat, n: nat)
    requires s != "" && WrittenApart(s[1..], out, p, n)
    ensures WrittenApart(s, [s[0]] + out, p + 1, n)
    ensures s[1..][p + n..] == s[p + 1 + n..] && ([s[0]] + out)[p + 1 + n + 4..] == out[p + n + 4..]
  {
    var c, t := s[0], s[1..];
    assert s == [c] + t;
    ShiftedPrefix(c, out, p);
    ShiftedPrefix(c, t, p);
    ShiftedPrefix(c, out, p + n + 4);
    ShiftedPrefix(c, t, p + n);
    ShiftedSlice(c, out, p, p + 2);
    ShiftedSlice(c, out, p + 2, p + 2 + n);
    ShiftedSlice(c, out, p + 2 + n, p + 4 + n);
    ShiftedSlice(c, t, p, p + n);
  }

  ghost predicate AnyHeading(s: string, atLineStart: bool) {
    exists p: nat, n: nat :: HeadingAt(s, atLineStart, p, n)
  }

  /** What `SetApart` says at the first heading. */
  ghost predicate ApartAt(s: string, atLineStart: bool, out: string, p: nat, n: nat) {
    FirstHeading(s, atLineStart, p, n) && n > 0 && WrittenApart(s, out, p, n) && SetApart(s[p + n..], s[p + n - 1] == '\n', out[p + n + 4..])
  }

  lemma ApartWhen(s: string, atLineStart: bool, out: string)
    ensures AnyHeading(s, atLineStart) ==> (SetApart(s, atLineStart, out) <==> exists p: nat, n: nat :: ApartAt(s, atLineStart, out, p, n))
    ensures !AnyHeading(s, atLineStart) ==> (SetApart(s, atLineStart, out) <==> out == s)
  {
    hide HeadingAt;
    if AnyHeading(s, atLineStart) && SetApart(s, atLineStart, out) {
      var p: nat, n: nat :|
        FirstHeading(s, atLineStart, p, n) && n > 0 && WrittenApart(s, out, p, n) && SetApart(s[p + n..], s[p + n - 1] == '\n', out[p + n + 4..]);
      assert ApartAt(s, atLineStart, out, p, n);
    }
    if p: nat, n: nat :| ApartAt(s, atLineStart, out, p, n) {
      assert FirstHeading(s, atLineStart, p, n);
    }
  }

  lemma AnyLater(s: string, atLineStart: bool)
    requires s != "" && (forall n: nat :: !HeadingAt(s, atLineStart, 0, n))
    ensures AnyHeading(s, atLineStart) <==> AnyHeading(s[1..], s[0] == '\n')
  {
    hide HeadingAt;
    var t, b := s[1..], s[0] == '\n';
    if p: nat, n: nat :| HeadingAt(t, b, p, n) {
      HeadingLater(s, atLineStart, p, n);
    }
    if p: nat, n: nat :| HeadingAt(s, atLineStart, p, n) {
      HeadingLater(s, atLineStart, p - 1, n);
    }
  }

  lemma ApartAtLater(s: string, atLineStart: bool, out: string, p: nat, n: nat)
    requires s != "" && (forall n: nat :: !HeadingAt(s, atLineStart, 0, n)) && ApartAt(s[1..], s[0] == '\n', out, p, n)
    ensures ApartAt(s, atLineStart, [s[0]] + out, p + 1, n)
  {
    hide HeadingAt, SetApart;
    FirstLater(s, atLineStart, p, n);
    ApartLater(s, out, p, n);
  }

  lemma SetApartLater(s: string, atLineStart: bool, out: string)
    requires s != "" && (forall n: nat :: !HeadingAt(s, atLineStart, 0, n)) && SetApart(s[1..], s[0] == '\n', out)
    ensures SetApart(s, atLineStart, [s[0]] + out)
  {
    hide HeadingAt, SetApart, ApartAt, AnyHeading;
    var t, b := s[1..], s[0] == '\n';
    AnyLater(s, atLineStart);
    ApartWhen(t, b, out);
    ApartWhen(s, atLineStart, [s[0]] + out);
    if AnyHeading(t, b) {
      var p: nat, n: nat :| ApartAt(t, b, out, p, n);
      ApartAtLater(s, atLineStart, out, p, n);
    }
  }

  /** Headings are set apart, each at the start of a line, and nothing else is changed. */
  lemma {:induction false} WrappedSetsApart(s: string, atLineStart: bool)
    ensures SetApart(s, atLineStart, Wrapped(s, atLineStart))
    decreases |s|
  {
    if s != "" {
      hide HeadingLength, HeadingAt, SetApart;
      var n := HeadingLength(s);
      forall m: nat ensures HeadingAt(s, atLineStart, 0, m) <==> atLineStart && m > 0 && n == m {
        HeadingNow(s, atLineStart, m);
      }
      if atLineStart && n > 0 {
        WrappedSetsApart(s[n..], s[n - 1] == '\n');
        HeadingFirst(s, n, Wrapped(s[n..], s[n - 1] == '\n'));
      } else {
        WrappedSetsApart(s[1..], s[0] == '\n');
        SetApartLater(s, atLineStart, Wrapped(s[1..], s[0] == '\n'));
      }
    } else {
      NothingSetApart(atLineStart);
    }
  }

  lemma NothingSetApart(atLineStart: bool)
    ensures SetApart("", atLineStart, "")
  {
    assert forall p: nat, n: nat :: !HeadingAt("", atLineStart, p, n);
  }

  lemma HeadingFirst(s: string, n: nat, rest: string)
    requires 0 < n <= |s| && HeadingAt(s, true, 0, n) && SetApart(s[n..], s[n - 1] == '\n', rest)
    ensures SetApart(s, true, "\n\n" + s[..n] + "\n\n" + rest)
  {
    hide HeadingAt;
    var out := "\n\n" + s[..n] + "\n\n" + rest;
    assert FirstHeading(s, true, 0, n);
    assert WrittenApart(s, out, 0, n);
    assert s[0 + n..] == s[n..] && out[0 + n + 4..] == rest;
  }

  /** Steps 4b to 6: headings set apart, runs of newlines shortened to two, gaps written anew, the ends stripped. */
  lemma LayoutIs(s: string) returns (apart: string)
    ensures SetApart(s, true, apart)
    ensures Layout(s) == Strip(Flow(KeptOf(apart, |apart|), false, false))
  {
    hide SetApart, Strip, Flow, KeptOf;
    apart := Wrapped(s, true);
    WrappedSetsApart(s, true);
    CappedKeeps(apart);
    ParagraphsAre(Capped(apart, 0));
  }
}
