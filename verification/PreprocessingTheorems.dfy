/** The layout steps reach a normal form, are idempotent, and keep the ink exactly when the text has no marker. */
module PreprocessingTheorems {
  import opened Text
  import opened Preprocessing

  // ---- step 5 in one pass ----

  /** How often the marker occurs. */
  function Markers(s: string): nat {
    if s == [] then 0
    else (if NL_MARKER <= s then 1 else 0) + Markers(s[1..])
  }

  function OnePass(s: string): string
    decreases |s|
  {
    if s == [] then []
    else if "\n\n" <= s || NL_MARKER <= s then "\n\n" + OnePass(s[2..])
    else [if s[0] == '\n' then ' ' else s[0]] + OnePass(s[1..])
  }

  function Marked(s: string): string {
    ReplaceAll(ReplaceAll(s, "\n\n", NL_MARKER), "\n", " ")
  }

  lemma ReplaceAt(s: string, old': string, new': string, tail: string)
    requires old' != [] && s == old' + tail
    ensures ReplaceAll(s, old', new') == new' + ReplaceAll(tail, old', new')
  {
    assert s[|old'|..] == tail;
  }

  lemma ReplaceSkip(s: string, old': string, new': string, c: char, tail: string)
    requires old' != [] && s == [c] + tail && !(old' <= s)
    ensures ReplaceAll(s, old', new') == [c] + ReplaceAll(tail, old', new')
  {
    assert s[1..] == tail;
  }

  /** The marked text begins with the second marker character exactly when the text does. */
  lemma MarkedHead(s: string)
    ensures Marked(s) == [] <==> s == []
    ensures s != [] && s[0] != '\n' ==> Marked(s)[0] == s[0]
    ensures s != [] && s[0] == '\n' ==> Marked(s)[0] == MARK0 || Marked(s)[0] == ' '
  {
    if s != [] {
      MarkedStep(s);
    }
  }

  lemma MarkedStep(s: string)
    requires s != []
    ensures Marked(s) ==
      if "\n\n" <= s then NL_MARKER + Marked(s[2..]) else [if s[0] == '\n' then ' ' else s[0]] + Marked(s[1..])
  {
    var t := ReplaceAll(s, "\n\n", NL_MARKER);
    if "\n\n" <= s {
      var u := ReplaceAll(s[2..], "\n\n", NL_MARKER);
      assert t == [MARK0] + ([MARK1] + u);
      assert t[0] != "\n"[0] && ([MARK1] + u)[0] != "\n"[0];
      ReplaceSkip(t, "\n", " ", MARK0, [MARK1] + u);
      ReplaceSkip([MARK1] + u, "\n", " ", MARK1, u);
      assert NL_MARKER + ReplaceAll(u, "\n", " ") == [MARK0] + ([MARK1] + ReplaceAll(u, "\n", " "));
    } else {
      var u := ReplaceAll(s[1..], "\n\n", NL_MARKER);
      assert t == [s[0]] + u;
      if s[0] == '\n' {
        ReplaceAt(t, "\n", " ", u);
      } else {
        assert t[0] != "\n"[0];
        ReplaceSkip(t, "\n", " ", s[0], u);
      }
    }
  }

  lemma MarkerAtHead(s: string)
    ensures NL_MARKER <= s <==> |s| >= 2 && s[0] == MARK0 && s[1] == MARK1
  {
  }

  /** Replacing the markers of the marked text goes by the steps of the one pass. */
  lemma JoinedStep(s: string)
    requires s != []
    ensures Joined(s) ==
      if "\n\n" <= s || NL_MARKER <= s then "\n\n" + Joined(s[2..]) else [if s[0] == '\n' then ' ' else s[0]] + Joined(s[1..])
  {
    var m := Marked(s);
    hide Marked, Joined;
    JoinedMarked(s);
    MarkedStep(s);
    MarkerAtHead(s);
    if "\n\n" <= s {
      JoinedMarked(s[2..]);
      ReplaceAt(m, NL_MARKER, "\n\n", Marked(s[2..]));
    } else {
      JoinedMarked(s[1..]);
      if NL_MARKER <= s {
        assert s[1..][0] == MARK1 && s[1..][1..] == s[2..];
        MarkedStep(s[1..]);
        JoinedMarked(s[2..]);
        assert m == NL_MARKER + Marked(s[2..]);
        ReplaceAt(m, NL_MARKER, "\n\n", Marked(s[2..]));
      } else {
        MarkedHead(s[1..]);
        MarkerAtHead(m);
        ReplaceSkip(m, NL_MARKER, "\n\n", m[0], Marked(s[1..]));
      }
    }
  }

  /** The three replacements do in one pass: pairs of newlines and markers become pairs, other newlines spaces. */
  lemma {:induction false} JoinedInOnePass(s: string)
    ensures Joined(s) == OnePass(s)
    decreases |s|
  {
    if s != [] {
      hide Joined;
      JoinedStep(s);
      if "\n\n" <= s || NL_MARKER <= s {
        JoinedInOnePass(s[2..]);
      } else {
        JoinedInOnePass(s[1..]);
      }
    }
  }

  lemma JoinedMarked(s: string)
    ensures Joined(s) == ReplaceAll(Marked(s), NL_MARKER, "\n\n")
  {
  }

  // ---- ink ----

  lemma {:induction false} MarkersOf(s: string)
    ensures |Ink(OnePass(s))| + 2 * Markers(s) == |Ink(s)|
    ensures Markers(s) == 0 ==> Ink(OnePass(s)) == Ink(s)
    decreases |s|
  {
    hide IsSpace;
    SpaceFacts();
    assert NL_MARKER <= s <==> |s| >= 2 && s[0] == MARK0 && s[1] == MARK1;
    if s != [] {
      if "\n\n" <= s {
        MarkersOf(s[2..]);
        InkSplit(s, 2);
        InkConcat("\n\n", OnePass(s[2..]));
        assert s[..2] == "\n\n";
        TwoSpaces();
        MarkersSkip(s);
      } else if NL_MARKER <= s {
        MarkersOf(s[2..]);
        InkSplit(s, 2);
        assert s[..2] == NL_MARKER;
        InkConcat("\n\n", OnePass(s[2..]));
        TwoSpaces();
        MarkersSkip(s);
      } else {
        MarkersOf(s[1..]);
        var c := if s[0] == '\n' then ' ' else s[0];
        assert ([c] + OnePass(s[1..]))[1..] == OnePass(s[1..]);
      }
    }
  }

  lemma SpaceFacts()
    ensures IsSpace(' ') && IsSpace('\n') && IsSpace('\t') && !IsSpace(MARK0) && !IsSpace(MARK1) && !IsSpace('#')
  {
  }

  lemma TwoSpaces()
    ensures Ink("\n\n") == "" && Ink(NL_MARKER) == NL_MARKER
  {
    assert "\n\n"[1..] == "\n" && "\n"[1..] == "";
    assert NL_MARKER[1..] == [MARK1] && [MARK1][1..] == [];
    assert Ink([MARK1]) == [MARK1];
  }

  /** The second character of a pair starts no marker. */
  lemma MarkersSkip(s: string)
    requires |s| >= 2 && ("\n\n" <= s || NL_MARKER <= s)
    ensures Markers(s) == (if NL_MARKER <= s then 1 else 0) + Markers(s[2..])
  {
    assert s[1..][1..] == s[2..];
    assert NL_MARKER[0] == MARK0;
    assert s[1] == s[1..][0];
    assert s[1] == '\n' || s[1] == MARK1;
  }

  lemma {:induction false} OneSpaceInk(s: string, afterBlank: bool)
    ensures Ink(OneSpace(s, afterBlank)) == Ink(s)
  {
    hide IsSpace;
    SpaceFacts();
    if s != [] {
      if s[0] == ' ' || s[0] == '\t' {
        OneSpaceInk(s[1..], true);
        assert ([' '] + OneSpace(s[1..], true))[1..] == OneSpace(s[1..], true);
        assert [] + OneSpace(s[1..], true) == OneSpace(s[1..], true);
      } else {
        OneSpaceInk(s[1..], false);
        assert ([s[0]] + OneSpace(s[1..], false))[1..] == OneSpace(s[1..], false);
      }
    }
  }

  lemma {:induction false} NoTrailingInk(s: string)
    ensures Ink(NoTrailing(s)) == Ink(s)
  {
    hide IsSpace;
    SpaceFacts();
    if s != [] {
      NoTrailingInk(s[1..]);
      assert ([s[0]] + NoTrailing(s[1..]))[1..] == NoTrailing(s[1..]);
      assert [] + NoTrailing(s[1..]) == NoTrailing(s[1..]);
    }
  }

  lemma {:induction false} CappedInk(s: string, before: nat)
    ensures Ink(Capped(s, before)) == Ink(s)
  {
    hide IsSpace;
    SpaceFacts();
    if s != [] {
      var k := if s[0] == '\n' then before + 1 else 0;
      CappedInk(s[1..], k);
      assert ([s[0]] + Capped(s[1..], k))[1..] == Capped(s[1..], k);
      assert [] + Capped(s[1..], k) == Capped(s[1..], k);
    }
  }

  lemma TidiedInk(s: string)
    ensures Ink(Tidied(s)) == Ink(s)
  {
    hide Strip, Capped, NoTrailing, OneSpace, Ink;
    OneSpaceInk(s, false);
    NoTrailingInk(OneSpace(s, false));
    CappedInk(NoTrailing(OneSpace(s, false)), 0);
    StripFacts(Capped(NoTrailing(OneSpace(s, false)), 0));
  }

  /** Steps 5 and 6 keep what is not white space exactly when the text holds no marker. */
  lemma ParagraphsKeepInkWhen(s: string)
    ensures Ink(Paragraphs(s)) == Ink(s) <==> Markers(s) == 0
  {
    hide Tidied, Joined, Ink, Markers;
    JoinedInOnePass(s);
    TidiedInk(Joined(s));
    MarkersOf(s);
  }

  // ---- ink and markers through steps 4b ----

  lemma {:induction false} MarkersConcat(a: string, b: string)
    requires a == [] || b == [] || a[|a| - 1] != MARK0 || b[0] != MARK1
    ensures Markers(a + b) == Markers(a) + Markers(b)
  {
    if a == [] {
      assert a + b == b;
    } else {
      var s := a + b;
      assert s[1..] == a[1..] + b;
      MarkersConcat(a[1..], b);
      assert NL_MARKER <= s <==> |s| >= 2 && s[0] == MARK0 && s[1] == MARK1;
      assert NL_MARKER <= a <==> |a| >= 2 && a[0] == MARK0 && a[1] == MARK1;
    }
  }

  lemma {:induction false} CappedMarkers(s: string, before: nat)
    ensures Markers(Capped(s, before)) == Markers(s)
    ensures s != [] && s[0] != '\n' ==> Capped(s, before) != [] && Capped(s, before)[0] == s[0]
  {
    if s != [] {
      var k := if s[0] == '\n' then before + 1 else 0;
      CappedMarkers(s[1..], k);
      var tail := Capped(s[1..], k);
      assert NL_MARKER <= s <==> |s| >= 2 && s[0] == MARK0 && s[1] == MARK1;
      var r := [s[0]] + tail;
      assert r[1..] == tail && (NL_MARKER <= r <==> |r| >= 2 && r[0] == MARK0 && r[1] == MARK1);
      assert [] + tail == tail;
      if s[0] == MARK0 && tail != [] && tail[0] == MARK1 {
        CappedHead(s[1..], k);
      }
    }
  }

  /** The first character left is a newline or the first character. */
  lemma CappedHead(s: string, before: nat)
    requires before == 0
    ensures Capped(s, before) == [] <==> s == []
    ensures s != [] ==> Capped(s, before)[0] == s[0]
  {
  }

  lemma {:induction false} RestEndsLine(s: string)
    ensures RestOfLine(s) == |s| || s[RestOfLine(s)] == '\n'
    ensures forall i :: 0 <= i < RestOfLine(s) ==> s[i] != '\n'
  {
    if s != [] && s[0] != '\n' {
      RestEndsLine(s[1..]);
    }
  }

  /** A heading is marks, a white space, and no newline after it; it ends at the end of its line. */
  lemma HeadingShape(s: string)
    requires HeadingLength(s) > 0
    ensures var n, h := HeadingLength(s), Hashes(s);
      && 1 <= h < n <= |s| && s[0] == '#' && IsSpace(s[h])
      && (forall i :: 0 <= i < h ==> s[i] == '#')
      && (forall i :: h < i < n ==> s[i] != '\n')
      && (n == |s| || s[n] == '\n')
  {
    hide HeadingLength, IsSpace, Hashes, RestOfLine;
    HeadingParts(s);
    HashesBound(s);
    RestFrom(s, Hashes(s) + 1);
  }

  lemma HeadingParts(s: string)
    requires HeadingLength(s) > 0
    ensures 1 <= Hashes(s) < |s| && IsSpace(s[Hashes(s)]) && HeadingLength(s) == Hashes(s) + 1 + RestOfLine(s[Hashes(s) + 1..])
  {
    hide IsSpace, Hashes, RestOfLine;
  }

  lemma RestFrom(s: string, k: nat)
    requires k <= |s|
    ensures var n := k + RestOfLine(s[k..]);
      (n == |s| || s[n] == '\n') && forall i :: k <= i < n ==> s[i] != '\n'
  {
    hide RestOfLine;
    var rest := s[k..];
    RestEndsLine(rest);
    assert forall i :: k <= i < |s| ==> s[i] == rest[i - k];
  }

  lemma {:induction false} WrappedFacts(s: string, atLineStart: bool)
    ensures Ink(Wrapped(s, atLineStart)) == Ink(s)
    ensures Markers(Wrapped(s, atLineStart)) == Markers(s)
    ensures Wrapped(s, atLineStart) == [] <==> s == []
    ensures s != [] ==> Wrapped(s, atLineStart)[0] == s[0] || (Wrapped(s, atLineStart)[0] == '\n' && s[0] == '#')
    decreases |s|
  {
    hide IsSpace, HeadingLength, Ink, Markers;
    if s != [] {
      if atLineStart && HeadingLength(s) > 0 {
        WrappedHeading(s);
        HeadingShape(s);
        var n := HeadingLength(s);
        var start := s[n - 1] == '\n';
        WrappedFacts(s[n..], start);
        WrappedHeadingFacts(s[..n], s[n..], Wrapped(s[n..], start));
        assert s[..n] + s[n..] == s;
      } else {
        WrappedFacts(s[1..], s[0] == '\n');
        SameHead(s[0], s[1..], Wrapped(s[1..], s[0] == '\n'));
        assert [s[0]] + s[1..] == s;
      }
    }
  }

  lemma SameHead(c: char, s: string, t: string)
    requires Ink(t) == Ink(s) && Markers(t) == Markers(s) && (t == [] <==> s == [])
    requires s != [] ==> t[0] == s[0] || (t[0] == '\n' && s[0] == '#')
    ensures Ink([c] + t) == Ink([c] + s) && Markers([c] + t) == Markers([c] + s)
  {
    hide IsSpace;
    assert ([c] + t)[1..] == t && ([c] + s)[1..] == s;
    MarkerAtHead([c] + t);
    MarkerAtHead([c] + s);
  }

  lemma WrappedHeading(s: string)
    requires HeadingLength(s) > 0
    ensures var n := HeadingLength(s); Wrapped(s, true) == "\n\n" + s[..n] + "\n\n" + Wrapped(s[n..], s[n - 1] == '\n')
  {
  }

  lemma WrappedHeadingFacts(heading: string, rest: string, wrapped: string)
    requires Ink(wrapped) == Ink(rest) && Markers(wrapped) == Markers(rest)
    requires wrapped == [] <==> rest == []
    requires heading != [] && heading[0] == '#' && (rest == [] || (rest[0] == '\n' && wrapped[0] == '\n'))
    ensures Ink("\n\n" + heading + "\n\n" + wrapped) == Ink(heading + rest)
    ensures Markers("\n\n" + heading + "\n\n" + wrapped) == Markers(heading + rest)
  {
    hide Ink, IsSpace;
    TwoSpaces();
    NoMarkerInNewlines();
    hide Markers;
    InkConcat("\n\n", heading);
    InkConcat("\n\n" + heading, "\n\n");
    InkConcat("\n\n" + heading + "\n\n", wrapped);
    InkConcat(heading, rest);
    MarkersConcat("\n\n", heading);
    MarkersConcat("\n\n" + heading, "\n\n");
    MarkersConcat("\n\n" + heading + "\n\n", wrapped);
    MarkersConcat(heading, rest);
    assert "" + Ink(heading) + "" + Ink(wrapped) == Ink(heading) + Ink(rest);
  }

  lemma NoMarkerInNewlines()
    ensures Markers("\n\n") == 0
  {
    assert "\n\n"[1..] == "\n" && "\n"[1..] == "";
    assert NL_MARKER[0] != "\n\n"[0] && NL_MARKER[0] != "\n"[0];
    assert Markers("\n") == 0;
  }

  /** Steps 4b to 6 keep what is not white space exactly when the text holds no marker, which preprocessing does not ensure. */
  lemma LayoutKeepsInkWhen(s: string)
    ensures Ink(Layout(s)) == Ink(s) <==> Markers(s) == 0
  {
    hide Ink, Markers, Wrapped, Capped, Paragraphs;
    WrappedFacts(s, true);
    CappedInk(Wrapped(s, true), 0);
    CappedMarkers(Wrapped(s, true), 0);
    ParagraphsKeepInkWhen(Capped(Wrapped(s, true), 0));
  }

  // ---- the normal form ----

  /** Exactly one neighbour of position `i` is a newline. */
  predicate PairedAt(s: string, i: nat)
    requires i < |s|
  {
    (i > 0 && s[i - 1] == '\n') != (i + 1 < |s| && s[i + 1] == '\n')
  }

  /** Newlines come in runs of exactly two. */
  ghost predicate NewlinesInPairs(s: string) {
    forall i :: 0 <= i < |s| && s[i] == '\n' ==> PairedAt(s, i)
  }

  /** No tab, no two blanks in a row, no blank before a newline. */
  ghost predicate Tidy(s: string) {
    && (forall i :: 0 <= i < |s| ==> s[i] != '\t')
    && (forall i :: 0 < i < |s| && s[i - 1] == ' ' ==> s[i] != ' ' && s[i] != '\n')
  }

  ghost predicate Normal(s: string) {
    Stripped(s) && NewlinesInPairs(s) && Tidy(s)
  }

  /** Newlines come in runs of even length. */
  predicate EvenNewlines(s: string)
    decreases |s|
  {
    if s == [] then true
    else if s[0] != '\n' then EvenNewlines(s[1..])
    else |s| >= 2 && s[1] == '\n' && EvenNewlines(s[2..])
  }

  lemma {:induction false} OnePassEven(s: string)
    ensures EvenNewlines(OnePass(s))
    decreases |s|
  {
    if s != [] {
      if "\n\n" <= s || NL_MARKER <= s {
        OnePassEven(s[2..]);
        var r := "\n\n" + OnePass(s[2..]);
        assert r[0] == '\n' && r[1] == '\n' && r[2..] == OnePass(s[2..]);
      } else {
        OnePassEven(s[1..]);
        var c := if s[0] == '\n' then ' ' else s[0];
        assert ([c] + OnePass(s[1..]))[1..] == OnePass(s[1..]);
      }
    }
  }

  lemma {:induction false} OneSpaceEven(s: string, afterBlank: bool)
    requires EvenNewlines(s)
    ensures EvenNewlines(OneSpace(s, afterBlank))
    decreases |s|
  {
    if s != [] {
      if s[0] == ' ' || s[0] == '\t' {
        OneSpaceEven(s[1..], true);
        var t := OneSpace(s[1..], true);
        assert ([' '] + t)[1..] == t && [] + t == t;
      } else if s[0] == '\n' {
        OneSpaceEven(s[2..], false);
        var t := OneSpace(s[2..], false);
        assert s[1..][1..] == s[2..];
        assert OneSpace(s, afterBlank) == ['\n'] + (['\n'] + t);
        assert (['\n'] + (['\n'] + t))[2..] == t;
      } else {
        OneSpaceEven(s[1..], false);
        var t := OneSpace(s[1..], false);
        assert ([s[0]] + t)[1..] == t;
      }
    }
  }

  lemma {:induction false} NoTrailingEven(s: string)
    requires EvenNewlines(s)
    ensures EvenNewlines(NoTrailing(s))
    decreases |s|
  {
    if s != [] {
      if s[0] == '\n' {
        NoTrailingEven(s[2..]);
        var t := NoTrailing(s[2..]);
        assert s[1..][1..] == s[2..];
        assert NoTrailing(s) == ['\n'] + (['\n'] + t);
        assert (['\n'] + (['\n'] + t))[2..] == t;
      } else {
        NoTrailingEven(s[1..]);
        var t := NoTrailing(s[1..]);
        assert ([s[0]] + t)[1..] == t && [] + t == t;
      }
    }
  }

  /** Newlines in runs of exactly two, read from the left. */
  predicate Pairs(s: string)
    decreases |s|
  {
    if s == [] then true
    else if s[0] != '\n' then Pairs(s[1..])
    else |s| >= 2 && s[1] == '\n' && (|s| == 2 || s[2] != '\n') && Pairs(s[2..])
  }

  /** Capping even runs leaves pairs; after a pair the rest of the run is dropped. */
  lemma {:induction false} CappedPairs(s: string, before: nat)
    requires EvenNewlines(s) && (before == 0 || before >= 2)
    ensures Pairs(Capped(s, before))
    ensures before >= 2 ==> Capped(s, before) == [] || Capped(s, before)[0] != '\n'
    decreases |s|
  {
    if s != [] {
      if s[0] == '\n' {
        CappedPairs(s[2..], before + 2);
        var t := Capped(s[2..], before + 2);
        assert s[1..][1..] == s[2..] && s[1..][0] == '\n';
        if before == 0 {
          assert Capped(s, 0) == ['\n'] + (['\n'] + t);
          assert (['\n'] + (['\n'] + t))[2..] == t;
        } else {
          assert Capped(s, before) == t;
        }
      } else {
        CappedPairs(s[1..], 0);
        assert ([s[0]] + Capped(s[1..], 0))[1..] == Capped(s[1..], 0);
      }
    }
  }

  lemma {:induction false} PairsByIndex(s: string)
    requires Pairs(s)
    ensures NewlinesInPairs(s)
    decreases |s|
  {
    if s != [] {
      var k := if s[0] == '\n' then 2 else 1;
      var t := s[k..];
      PairsByIndex(t);
      forall i | 0 <= i < |s| && s[i] == '\n' ensures PairedAt(s, i) {
        if i >= k {
          var j := i - k;
          assert t[j] == '\n' && PairedAt(t, j);
          assert j == 0 ==> k == 1 && s[i - 1] != '\n';
          assert j > 0 ==> t[j - 1] == s[i - 1];
          assert i + 1 < |s| ==> t[j + 1] == s[i + 1];
        }
      }
    }
  }
}
