/** Every layout output is in the normal form, and the layout steps leave the normal form alone. */
module PreprocessingNormalForm {
  import opened Text
  import opened Preprocessing
  import opened PreprocessingTheorems

  // ---- tidiness, step by step ----

  ghost predicate NoTabs(s: string) {
    forall i :: 0 <= i < |s| ==> s[i] != '\t'
  }

  ghost predicate SingleBlanks(s: string) {
    forall i :: 0 < i < |s| && s[i - 1] == ' ' ==> s[i] != ' '
  }

  lemma ConsTidy(c: char, s: string)
    requires Tidy(s) && c != '\t' && (c == ' ' && s != [] ==> s[0] != ' ' && s[0] != '\n')
    ensures Tidy([c] + s)
  {
    var r := [c] + s;
    assert r[0] == c && r[1..] == s;
    forall i | 0 < i < |r| && r[i - 1] == ' ' ensures r[i] != ' ' && r[i] != '\n' {
      assert r[i] == s[i - 1];
      assert i > 1 ==> r[i - 1] == s[i - 2];
    }
    forall i | 0 <= i < |r| ensures r[i] != '\t' {
      assert i > 0 ==> r[i] == s[i - 1];
    }
  }

  lemma TidyTail(s: string)
    requires Tidy(s) && s != []
    ensures Tidy(s[1..])
    ensures |s| > 1 && s[0] == ' ' ==> s[1] != ' ' && s[1] != '\n'
  {
    var t := s[1..];
    assert forall i :: 0 <= i < |t| ==> t[i] == s[i + 1];
    forall i | 0 < i < |t| && t[i - 1] == ' ' ensures t[i] != ' ' && t[i] != '\n' {
      assert s[i + 1 - 1] == ' ';
    }
  }

  lemma {:induction false} OneSpaceSingles(s: string, afterBlank: bool)
    ensures var r := OneSpace(s, afterBlank);
      && NoTabs(r) && SingleBlanks(r)
      && (afterBlank && r != [] ==> r[0] != ' ')
  {
    if s != [] {
      var blank := s[0] == ' ' || s[0] == '\t';
      OneSpaceSingles(s[1..], blank);
      var t := OneSpace(s[1..], blank);
      var r := OneSpace(s, afterBlank);
      if blank && afterBlank {
        assert [] + t == t;
      } else {
        assert r == [r[0]] + t;
        forall i | 0 < i < |r| && r[i - 1] == ' ' ensures r[i] != ' ' {
          assert r[i] == t[i - 1];
          assert i > 1 ==> r[i - 1] == t[i - 2];
        }
      }
    }
  }

  lemma {:induction false} NoTrailingHead(s: string)
    ensures SpacesThenNewline(s) ==> NoTrailing(s) != [] && NoTrailing(s)[0] == '\n'
    ensures s != [] && !SpacesThenNewline(s) ==> NoTrailing(s) != [] && NoTrailing(s)[0] == s[0]
  {
    if s != [] && s[0] == ' ' && SpacesThenNewline(s) {
      NoTrailingHead(s[1..]);
      assert [] + NoTrailing(s[1..]) == NoTrailing(s[1..]);
    }
  }

  lemma {:induction false} NoTrailingTidies(s: string)
    requires NoTabs(s) && SingleBlanks(s)
    ensures Tidy(NoTrailing(s))
  {
    if s != [] {
      var x := s[1..];
      var t := NoTrailing(x);
      SinglesTail(s);
      NoTrailingTidies(x);
      NoTrailingHead(x);
      if s[0] == ' ' && SpacesThenNewline(s) {
        assert [] + t == t;
      } else {
        ConsTidy(s[0], t);
      }
    }
  }

  lemma SinglesTail(s: string)
    requires NoTabs(s) && SingleBlanks(s) && s != []
    ensures NoTabs(s[1..]) && SingleBlanks(s[1..])
    ensures s[0] == ' ' && !SpacesThenNewline(s) && |s| > 1 ==> s[1] != ' ' && s[1] != '\n' && !SpacesThenNewline(s[1..])
  {
    var t := s[1..];
    assert forall i :: 0 <= i < |t| ==> t[i] == s[i + 1];
    forall i | 0 < i < |t| && t[i - 1] == ' ' ensures t[i] != ' ' {
      assert s[i + 1 - 1] == ' ';
    }
    assert |s| > 1 && s[0] == ' ' ==> s[1] != ' ';
    if |s| > 1 && s[0] == ' ' {
      assert t[0] == s[1];
      assert SpacesThenNewline(s) <==> SpacesThenNewline(t);
      assert t[0] == '\n' ==> SpacesThenNewline(t);
    }
  }

  lemma {:induction false} CappedTidy(s: string, before: nat)
    requires Tidy(s)
    ensures Tidy(Capped(s, before))
  {
    if s != [] {
      TidyTail(s);
      if s[0] == '\n' {
        var t := Capped(s[1..], before + 1);
        CappedTidy(s[1..], before + 1);
        ConsTidy('\n', t);
        assert [] + t == t;
      } else {
        var t := Capped(s[1..], 0);
        CappedTidy(s[1..], 0);
        CappedHead(s[1..], 0);
        ConsTidy(s[0], t);
      }
    }
  }

  // ---- stripping ----

  lemma StripIsSlice(s: string) returns (lo: nat, hi: nat)
    ensures lo <= hi <= |s| && Strip(s) == s[lo..hi]
  {
    hide IsSpace;
    LStripFacts(s);
    RStripFacts(LStrip(s));
    lo := |s| - |LStrip(s)|;
    hi := lo + |Strip(s)|;
    assert s[lo..][..|Strip(s)|] == s[lo..hi];
  }

  lemma SliceTidy(s: string, lo: nat, hi: nat)
    requires Tidy(s) && lo <= hi <= |s|
    ensures Tidy(s[lo..hi])
  {
    var t := s[lo..hi];
    assert forall i :: 0 <= i < |t| ==> t[i] == s[lo + i];
    forall i | 0 < i < |t| && t[i - 1] == ' ' ensures t[i] != ' ' && t[i] != '\n' {
      assert s[lo + i - 1] == ' ';
    }
  }

  lemma SliceInPairs(s: string, lo: nat, hi: nat)
    requires NewlinesInPairs(s) && lo <= hi <= |s| && Stripped(s[lo..hi])
    ensures NewlinesInPairs(s[lo..hi])
  {
    var t := s[lo..hi];
    assert forall i :: 0 <= i < |t| ==> t[i] == s[lo + i];
    forall i | 0 <= i < |t| && t[i] == '\n' ensures PairedAt(t, i) {
      assert IsSpace('\n');
      assert 0 < i && i + 1 < |t|;
      assert s[lo + i] == '\n' && PairedAt(s, lo + i);
      assert t[i - 1] == s[lo + i - 1] && t[i + 1] == s[lo + i + 1];
    }
  }

  /** Step 6 leaves a text whose newlines come in even runs in the normal form. */
  lemma TidiedIsNormal(s: string)
    requires EvenNewlines(s)
    ensures Normal(Tidied(s))
  {
    hide IsSpace, OneSpace, NoTrailing, Capped, Strip, Stripped;
    var a := OneSpace(s, false);
    OneSpaceEven(s, false);
    OneSpaceSingles(s, false);
    var b := NoTrailing(a);
    NoTrailingEven(a);
    NoTrailingTidies(a);
    var c := Capped(b, 0);
    CappedPairs(b, 0);
    CappedTidy(b, 0);
    PairsByIndex(c);
    StripFacts(c);
    var lo, hi := StripIsSlice(c);
    SliceTidy(c, lo, hi);
    SliceInPairs(c, lo, hi);
  }

  lemma ParagraphsIsNormal(s: string)
    ensures Normal(Paragraphs(s))
  {
    hide Normal, Tidied, Joined;
    JoinedInOnePass(s);
    OnePassEven(s);
    TidiedIsNormal(Joined(s));
  }

  /** Every layout output is in the normal form, whatever the text, markers included. */
  lemma LayoutIsNormal(s: string)
    ensures Normal(Layout(s))
  {
    hide Normal, Paragraphs;
    ParagraphsIsNormal(Capped(Wrapped(s, true), 0));
  }

  // ---- no marker is left ----

  ghost predicate MarkerFree(s: string) {
    forall i :: 0 < i < |s| && s[i - 1] == MARK0 ==> s[i] != MARK1
  }

  lemma {:induction false} MarkerFreeWhen(s: string)
    ensures Markers(s) == 0 <==> MarkerFree(s)
  {
    if s != [] {
      var t := s[1..];
      MarkerAtHead(s);
      MarkerFreeWhen(t);
      assert forall i :: 0 <= i < |t| ==> t[i] == s[i + 1];
      if MarkerFree(s) {
        forall i | 0 < i < |t| && t[i - 1] == MARK0 ensures t[i] != MARK1 {
          assert s[i + 1 - 1] == MARK0;
        }
      }
      if MarkerFree(t) && !(NL_MARKER <= s) {
        forall i | 0 < i < |s| && s[i - 1] == MARK0 ensures s[i] != MARK1 {
          assert i > 1 ==> t[i - 2] == MARK0;
        }
      }
    }
  }

  lemma ConsMarkers(c: char, s: string)
    requires Markers(s) == 0 && (c == MARK0 && s != [] ==> s[0] != MARK1)
    ensures Markers([c] + s) == 0
  {
    MarkerAtHead([c] + s);
    assert ([c] + s)[1..] == s;
  }

  lemma {:induction false} OnePassUnmarked(s: string)
    ensures Markers(OnePass(s)) == 0
    ensures s != [] && OnePass(s) != [] && OnePass(s)[0] == MARK1 ==> s[0] == MARK1
    decreases |s|
  {
    if s != [] {
      MarkerAtHead(s);
      if "\n\n" <= s || NL_MARKER <= s {
        OnePassUnmarked(s[2..]);
        var t := OnePass(s[2..]);
        ConsMarkers('\n', t);
        ConsMarkers('\n', ['\n'] + t);
        assert ['\n'] + (['\n'] + t) == "\n\n" + t;
      } else {
        OnePassUnmarked(s[1..]);
        ConsMarkers(if s[0] == '\n' then ' ' else s[0], OnePass(s[1..]));
      }
    }
  }

  lemma {:induction false} OneSpaceUnmarked(s: string, afterBlank: bool)
    requires Markers(s) == 0
    ensures Markers(OneSpace(s, afterBlank)) == 0
    ensures !afterBlank && s != [] ==> OneSpace(s, afterBlank) != [] && (OneSpace(s, afterBlank)[0] == s[0] || OneSpace(s, afterBlank)[0] == ' ')
  {
    if s != [] {
      MarkerAtHead(s);
      var blank := s[0] == ' ' || s[0] == '\t';
      OneSpaceUnmarked(s[1..], blank);
      var t := OneSpace(s[1..], blank);
      if blank {
        ConsMarkers(' ', t);
        assert [] + t == t;
      } else {
        ConsMarkers(s[0], t);
      }
    }
  }

  lemma {:induction false} NoTrailingUnmarked(s: string)
    requires Markers(s) == 0
    ensures Markers(NoTrailing(s)) == 0
  {
    if s != [] {
      MarkerAtHead(s);
      NoTrailingUnmarked(s[1..]);
      NoTrailingHead(s[1..]);
      ConsMarkers(s[0], NoTrailing(s[1..]));
      assert [] + NoTrailing(s[1..]) == NoTrailing(s[1..]);
    }
  }

  lemma ParagraphsUnmarked(s: string)
    ensures Markers(Paragraphs(s)) == 0
  {
    hide Markers, OneSpace, NoTrailing, Capped, Strip, Joined, OnePass;
    JoinedInOnePass(s);
    OnePassUnmarked(s);
    var a := OneSpace(Joined(s), false);
    OneSpaceUnmarked(Joined(s), false);
    NoTrailingUnmarked(a);
    CappedMarkers(NoTrailing(a), 0);
    var c := Capped(NoTrailing(a), 0);
    MarkerFreeWhen(c);
    MarkerFreeWhen(Strip(c));
    var lo, hi := StripIsSlice(c);
    SliceMarkerFree(c, lo, hi);
  }

  lemma SliceMarkerFree(s: string, lo: nat, hi: nat)
    requires MarkerFree(s) && lo <= hi <= |s|
    ensures MarkerFree(s[lo..hi])
  {
    var t := s[lo..hi];
    assert forall i :: 0 <= i < |t| ==> t[i] == s[lo + i];
    forall i | 0 < i < |t| && t[i - 1] == MARK0 ensures t[i] != MARK1 {
      assert s[lo + i - 1] == MARK0;
    }
  }

  // ---- the normal form stays ----

  lemma {:induction false} PairsFromIndex(s: string)
    requires NewlinesInPairs(s)
    ensures Pairs(s)
    decreases |s|
  {
    if s != [] {
      var k := if s[0] == '\n' then 2 else 1;
      if s[0] == '\n' {
        assert PairedAt(s, 0);
        assert PairedAt(s, 1);
      }
      var t := s[k..];
      assert forall i :: 0 <= i < |t| ==> t[i] == s[i + k];
      forall i | 0 <= i < |t| && t[i] == '\n' ensures PairedAt(t, i) {
        assert s[i + k] == '\n' && PairedAt(s, i + k);
        assert i > 0 ==> t[i - 1] == s[i + k - 1];
        assert i + 1 < |t| ==> t[i + 1] == s[i + k + 1];
      }
      PairsFromIndex(t);
    }
  }

  lemma {:induction false} OnePassStays(s: string)
    requires Pairs(s) && Markers(s) == 0
    ensures OnePass(s) == s
    decreases |s|
  {
    if s != [] {
      MarkerAtHead(s);
      if s[0] == '\n' {
        assert s[..2] == "\n\n";
        MarkersSkip(s);
        OnePassStays(s[2..]);
        assert "\n\n" + s[2..] == s;
      } else {
        OnePassStays(s[1..]);
        assert [s[0]] + s[1..] == s;
      }
    }
  }

  lemma {:induction false} OneSpaceStays(s: string, afterBlank: bool)
    requires Tidy(s) && (afterBlank && s != [] ==> s[0] != ' ')
    ensures OneSpace(s, afterBlank) == s
  {
    if s != [] {
      TidyTail(s);
      OneSpaceStays(s[1..], s[0] == ' ');
      assert [s[0]] + s[1..] == s;
    }
  }

  lemma {:induction false} NoTrailingStays(s: string)
    requires Tidy(s)
    ensures NoTrailing(s) == s
  {
    if s != [] {
      TidyTail(s);
      NoTrailingStays(s[1..]);
      assert s[0] == ' ' ==> !SpacesThenNewline(s[1..]);
      assert [s[0]] + s[1..] == s;
    }
  }

  lemma {:induction false} CappedStays(s: string)
    requires Pairs(s)
    ensures Capped(s, 0) == s
    decreases |s|
  {
    if s != [] {
      if s[0] == '\n' {
        CappedStays(s[2..]);
        assert s[1..][1..] == s[2..];
        NextNotNewline(s[2..], 2);
        assert Capped(s, 0) == ['\n'] + (['\n'] + s[2..]);
      } else {
        CappedStays(s[1..]);
        assert [s[0]] + s[1..] == s;
      }
    }
  }

  /** Before a character that is no newline, the newlines before do not matter. */
  lemma NextNotNewline(s: string, before: nat)
    requires s == [] || s[0] != '\n'
    ensures Capped(s, before) == Capped(s, 0)
  {
  }

  /** Text in the normal form, but perhaps with a pair of newlines before or after it, goes to its core. */
  lemma ParagraphsToCore(u: string, core: string)
    requires Pairs(u) && Tidy(u) && Markers(u) == 0 && Strip(u) == core
    ensures Paragraphs(u) == core
  {
    hide Joined, OnePass, OneSpace, NoTrailing, Capped, Strip;
    JoinedInOnePass(u);
    OnePassStays(u);
    OneSpaceStays(u, false);
    NoTrailingStays(u);
    CappedStays(u);
  }

  /** Steps 5 and 6 are idempotent. */
  lemma ParagraphsIdempotent(s: string)
    ensures Paragraphs(Paragraphs(s)) == Paragraphs(s)
  {
    hide Paragraphs, Strip, Markers, Pairs, Stripped;
    var t := Paragraphs(s);
    ParagraphsIsNormal(s);
    ParagraphsUnmarked(s);
    PairsFromIndex(t);
    StripFacts(t);
    ParagraphsToCore(t, t);
  }

  // ---- headings in the normal form ----

  lemma {:induction false} CappedThrough(a: string, s: string, before: nat)
    requires forall i :: 0 <= i < |a| ==> a[i] != '\n'
    ensures Capped(a + s, before) == a + Capped(s, if a == [] then before else 0)
  {
    if a == [] {
      assert a + s == s;
    } else {
      assert (a + s)[1..] == a[1..] + s;
      CappedThrough(a[1..], s, 0);
      assert [a[0]] + (a[1..] + Capped(s, 0)) == a + Capped(s, 0);
    }
  }

  lemma CappedPair(s: string, before: nat)
    ensures Capped("\n\n" + s, before) == (if before == 0 then "\n\n" else if before == 1 then "\n" else "") + Capped(s, before + 2)
  {
    var u := "\n\n" + s;
    assert u[1..] == "\n" + s && u[1..][1..] == s;
    var t := Capped(s, before + 2);
    assert ['\n'] + (['\n'] + t) == "\n\n" + t && [] + t == t;
  }

  lemma CappedNewline(s: string, before: nat)
    ensures Capped("\n" + s, before) == (if before < 2 then "\n" else "") + Capped(s, before + 1)
  {
    assert ("\n" + s)[1..] == s;
  }

  lemma {:induction false} PairsAfter(a: string, s: string)
    requires Pairs(a + s) && forall i :: 0 <= i < |a| ==> a[i] != '\n'
    ensures Pairs(s)
  {
    if a == [] {
      assert a + s == s;
    } else {
      assert (a + s)[1..] == a[1..] + s;
      PairsAfter(a[1..], s);
    }
  }

  lemma WrappedPair(r: string, atLineStart: bool)
    ensures Wrapped("\n\n" + r, atLineStart) == "\n\n" + Wrapped(r, true)
  {
    var u := "\n\n" + r;
    assert u[1..] == "\n" + r && u[1..][1..] == r;
    assert Hashes(u) == 0 && Hashes(u[1..]) == 0;
    assert ['\n'] + (['\n'] + Wrapped(r, true)) == "\n\n" + Wrapped(r, true);
  }

  lemma WrappedNewline(r: string, atLineStart: bool)
    ensures Wrapped("\n" + r, atLineStart) == "\n" + Wrapped(r, true)
  {
    var u := "\n" + r;
    assert u[1..] == r;
    assert Hashes(u) == 0;
  }

  /** A position that follows a pair of newlines at least, or another character. */
  ghost predicate Placed(s: string, atLineStart: bool, before: nat) {
    if atLineStart then before >= 2 && (s == [] || s[0] != '\n') else before == 0
  }

  predicate IsFrame(s: string) {
    s == "" || s == "\n\n"
  }

  /** Setting headings apart again adds nothing, but perhaps a pair of newlines at the end. */
  lemma {:induction false} WrappedAgain(s: string, atLineStart: bool, before: nat) returns (trail: string)
    requires Pairs(s) && Placed(s, atLineStart, before)
    ensures IsFrame(trail) && Capped(Wrapped(s, atLineStart), before) == s + trail
    decreases |s|
  {
    hide HeadingLength, IsFrame;
    if s == [] {
      trail := "";
      NoFrame();
    } else if atLineStart && HeadingLength(s) > 0 {
      trail := HeadingAgain(s, before);
    } else if s[0] == '\n' {
      var r := s[2..];
      assert s == "\n\n" + r;
      hide Wrapped, Capped;
      WrappedPair(r, false);
      CappedPair(Wrapped(r, true), 0);
      trail := WrappedAgain(r, true, 2);
      assert "\n\n" + (r + trail) == s + trail;
    } else {
      var w := Wrapped(s[1..], false);
      trail := WrappedAgain(s[1..], false, 0);
      assert ([s[0]] + w)[1..] == w;
      assert [s[0]] + (s[1..] + trail) == s + trail;
    }
  }

  lemma NoFrame()
    ensures IsFrame("") && IsFrame("\n\n")
  {
  }

  lemma {:induction false} HeadingAgain(s: string, before: nat) returns (trail: string)
    requires Pairs(s) && before >= 2 && HeadingLength(s) > 0
    ensures IsFrame(trail) && Capped(Wrapped(s, true), before) == s + trail
    decreases |s|, 0
  {
    hide Wrapped, Capped, IsSpace, Pairs, IsFrame;
    var n, h := HeadingLength(s), Hashes(s);
    HeadingShape(s);
    hide HeadingLength, Hashes;
    if s[h] == '\n' {
      BareHeading(s, h);
      trail := WrappedAgain(s[h + 2..], true, 4);
      BareAgainOf(s, h, before);
      assert s[..h] + "\n\n" + (s[h + 2..] + trail) == s[..h] + "\n\n" + s[h + 2..] + trail;
    } else if n == |s| {
      LastHeading(s, before);
      trail := "\n\n";
      NoFrame();
    } else {
      assert s[..n] + s[n..] == s;
      PairsAfter(s[..n], s[n..]);
      AfterHeading(s, n);
      trail := WrappedAgain(s[n + 2..], true, 4);
      FullAgainOf(s, n, before);
      assert s[..n] + "\n\n" + (s[n + 2..] + trail) == s[..n] + "\n\n" + s[n + 2..] + trail;
    }
  }

  lemma BareAgainOf(s: string, h: nat, before: nat)
    requires Pairs(s) && before >= 2 && HeadingLength(s) > 0 && h == Hashes(s) && h + 2 <= |s| && s[h] == '\n'
    ensures Capped(Wrapped(s, true), before) == s[..h] + "\n\n" + Capped(Wrapped(s[h + 2..], true), 4)
  {
    hide Wrapped, Capped, IsSpace;
    var r := s[h + 2..];
    HeadingShape(s);
    BareHeading(s, h);
    WrappedHeading(s);
    BareAgain(s[..h], r, before);
    assert s[..h + 1] == s[..h] + "\n" && s[h + 1..] == "\n" + r;
  }

  lemma FullAgainOf(s: string, n: nat, before: nat)
    requires before >= 2 && HeadingLength(s) == n > 0 && n + 2 <= |s| && s[n..] == "\n\n" + s[n + 2..]
    requires forall i :: 0 <= i < n ==> s[i] != '\n'
    ensures Capped(Wrapped(s, true), before) == s[..n] + "\n\n" + Capped(Wrapped(s[n + 2..], true), 4)
  {
    WrappedHeading(s);
    hide Wrapped, Capped, HeadingLength;
    FullAgain(s[..n], s[n + 2..], before);
  }

  lemma BareHeading(s: string, h: nat)
    requires Pairs(s) && HeadingLength(s) > 0 && h == Hashes(s) && h < |s| && s[h] == '\n'
    ensures h + 2 <= |s| && s[h + 1] == '\n' && HeadingLength(s) == h + 1
    ensures var r := s[h + 2..]; s == s[..h] + "\n\n" + r && Pairs(r) && (r == [] || r[0] != '\n')
  {
    hide IsSpace;
    HeadingShape(s);
    assert s[..h] + s[h..] == s;
    PairsAfter(s[..h], s[h..]);
    assert s[h..][0] == '\n' && s[h..][1] == s[h + 1];
    assert s[h..][2..] == s[h + 2..];
    assert |s| > h + 2 ==> s[h..][2] == s[h + 2];
    assert s[h + 1..][0] == '\n' && RestOfLine(s[h + 1..]) == 0;
  }

  lemma AfterHeading(s: string, n: nat)
    requires n < |s| && s[n] == '\n' && Pairs(s[n..])
    ensures n + 2 <= |s| && s == s[..n] + "\n\n" + s[n + 2..] && s[n..] == "\n\n" + s[n + 2..]
    ensures Pairs(s[n + 2..]) && (s[n + 2..] == [] || s[n + 2..][0] != '\n')
  {
    var t := s[n..];
    assert t[0] == '\n' && t[1] == s[n + 1] && t[2..] == s[n + 2..];
    assert |t| > 2 ==> t[2] == s[n + 2];
  }

  lemma BareAgain(marks: string, r: string, before: nat)
    requires marks != [] && before >= 2 && forall i :: 0 <= i < |marks| ==> marks[i] != '\n'
    ensures Capped("\n\n" + (marks + "\n") + "\n\n" + Wrapped("\n" + r, true), before) == marks + "\n\n" + Capped(Wrapped(r, true), 4)
  {
    hide Capped, Wrapped;
    var w := Wrapped(r, true);
    WrappedNewline(r, true);
    var x3 := "\n" + w;
    var x2 := "\n\n" + x3;
    var x1 := "\n" + x2;
    assert "\n\n" + (marks + "\n") + "\n\n" + ("\n" + w) == "\n\n" + (marks + x1);
    CappedPair(marks + x1, before);
    CappedThrough(marks, x1, before + 2);
    CappedNewline(x2, 0);
    CappedPair(x3, 1);
    CappedNewline(w, 3);
    assert "" + (marks + ("\n" + ("\n" + ("" + Capped(w, 4))))) == marks + "\n\n" + Capped(w, 4);
  }

  lemma FullAgain(heading: string, r: string, before: nat)
    requires heading != [] && before >= 2 && forall i :: 0 <= i < |heading| ==> heading[i] != '\n'
    ensures Capped("\n\n" + heading + "\n\n" + Wrapped("\n\n" + r, false), before) == heading + "\n\n" + Capped(Wrapped(r, true), 4)
  {
    hide Capped, Wrapped;
    var w := Wrapped(r, true);
    WrappedPair(r, false);
    var x2 := "\n\n" + w;
    var x1 := "\n\n" + x2;
    assert "\n\n" + heading + "\n\n" + ("\n\n" + w) == "\n\n" + (heading + x1);
    CappedPair(heading + x1, before);
    CappedThrough(heading, x1, before + 2);
    CappedPair(x2, 0);
    CappedPair(w, 2);
    assert "" + (heading + ("\n\n" + ("" + Capped(w, 4)))) == heading + "\n\n" + Capped(w, 4);
  }

  lemma LastHeading(s: string, before: nat)
    requires HeadingLength(s) == |s| > 0 && before >= 2 && forall i :: 0 <= i < |s| ==> s[i] != '\n'
    ensures Capped(Wrapped(s, true), before) == s + "\n\n"
  {
    WrappedHeading(s);
    assert s[..|s|] == s && s[|s|..] == [];
    assert Wrapped([], false) == [];
    assert "\n\n" + s + "\n\n" + [] == "\n\n" + (s + "\n\n");
    hide Capped, Wrapped, HeadingLength;
    CappedPair(s + "\n\n", before);
    CappedThrough(s, "\n\n", before + 2);
    assert "\n\n" + [] == "\n\n";
    CappedPair([], 0);
    CappedNothing(2);
    assert "" + (s + ("\n\n" + "")) == s + "\n\n";
  }

  lemma CappedNothing(before: nat)
    ensures Capped([], before) == []
  {
  }

  // ---- steps 4b to 6 again ----

  lemma {:induction false} PairsWithEnd(s: string)
    requires Pairs(s) && (s == [] || s[|s| - 1] != '\n')
    ensures Pairs(s + "\n\n")
    decreases |s|
  {
    var u := s + "\n\n";
    if s != [] {
      var k := if s[0] == '\n' then 2 else 1;
      assert u[k..] == s[k..] + "\n\n";
      PairsWithEnd(s[k..]);
    }
  }

  lemma PairsWithStart(s: string)
    requires Pairs(s) && (s == [] || s[0] != '\n')
    ensures Pairs("\n\n" + s)
  {
    assert ("\n\n" + s)[2..] == s;
  }

  lemma TidyConcat(a: string, b: string)
    requires Tidy(a) && Tidy(b) && (a == [] || a[|a| - 1] != ' ')
    ensures Tidy(a + b)
  {
    var u := a + b;
    forall i | 0 < i < |u| && u[i - 1] == ' ' ensures u[i] != ' ' && u[i] != '\n' {
      if i < |a| {
        assert a[i - 1] == ' ' && a[i] == u[i];
      } else {
        assert i > |a| && b[i - |a| - 1] == ' ' && b[i - |a|] == u[i];
      }
    }
  }

  lemma {:induction false} StripAround(a: string, s: string, b: string)
    requires Stripped(s) && s != []
    requires forall i :: 0 <= i < |a| ==> IsSpace(a[i])
    requires forall i :: 0 <= i < |b| ==> IsSpace(b[i])
    ensures Strip(a + s + b) == s
  {
    hide IsSpace;
    LStripAround(a, s + b);
    assert a + (s + b) == a + s + b;
    RStripAround(s, b);
  }

  lemma {:induction false} LStripAround(a: string, s: string)
    requires s != [] && !IsSpace(s[0]) && forall i :: 0 <= i < |a| ==> IsSpace(a[i])
    ensures LStrip(a + s) == s
  {
    hide IsSpace;
    if a == [] {
      assert a + s == s;
    } else {
      LStripAround(a[1..], s);
      assert (a + s)[1..] == a[1..] + s;
    }
  }

  lemma {:induction false} RStripAround(s: string, b: string)
    requires s != [] && !IsSpace(s[|s| - 1]) && forall i :: 0 <= i < |b| ==> IsSpace(b[i])
    ensures RStrip(s + b) == s
  {
    hide IsSpace;
    if b == [] {
      assert s + b == s;
    } else {
      var n := |b| - 1;
      RStripAround(s, b[..n]);
      assert (s + b)[..|s + b| - 1] == s + b[..n];
    }
  }

  lemma FramedInPairs(lead: string, t: string, trail: string)
    requires Pairs(t) && t != [] && t[0] != '\n' && t[|t| - 1] != '\n' && IsFrame(lead) && IsFrame(trail)
    ensures Pairs(lead + t + trail)
  {
    hide Pairs;
    PairsWithEnd(t);
    assert t + "" == t;
    PairsWithStart(t + trail);
    assert lead + (t + trail) == lead + t + trail && "" + (t + trail) == t + trail;
  }

  lemma FramedTidy(lead: string, t: string, trail: string)
    requires Tidy(t) && t != [] && t[|t| - 1] != ' ' && IsFrame(lead) && IsFrame(trail)
    ensures Tidy(lead + t + trail)
  {
    assert Tidy(lead) && Tidy(trail);
    hide Tidy;
    TidyConcat(lead, t);
    TidyConcat(lead + t, trail);
  }

  lemma FramedUnmarked(lead: string, t: string, trail: string)
    requires Markers(t) == 0 && IsFrame(lead) && IsFrame(trail)
    ensures Markers(lead + t + trail) == 0
  {
    assert Markers("") == 0;
    hide Markers;
    NoMarkerInNewlines();
    MarkersConcat(lead, t);
    MarkersConcat(lead + t, trail);
  }

  /** A pair of newlines before or after a normal text is stripped again, and nothing else happens to it. */
  lemma FramedCore(lead: string, t: string, trail: string)
    requires Normal(t) && Markers(t) == 0 && t != [] && IsFrame(lead) && IsFrame(trail)
    ensures Paragraphs(lead + t + trail) == t
  {
    assert IsSpace('\n') && IsSpace(' ') && !IsSpace(t[0]) && !IsSpace(t[|t| - 1]);
    assert forall i :: 0 <= i < |lead| ==> IsSpace(lead[i]);
    assert forall i :: 0 <= i < |trail| ==> IsSpace(trail[i]);
    hide Pairs, Tidy, Markers, Strip, Paragraphs, IsSpace, NewlinesInPairs, IsFrame, Stripped;
    PairsFromIndex(t);
    FramedInPairs(lead, t, trail);
    FramedTidy(lead, t, trail);
    FramedUnmarked(lead, t, trail);
    StripAround(lead, t, trail);
    ParagraphsToCore(lead + t + trail, t);
  }

  lemma LayoutOfNormal(t: string)
    requires Normal(t) && Markers(t) == 0
    ensures Layout(t) == t
  {
    if t == [] {
      NothingToLayOut();
    } else {
      assert t[0] != '\n' by {
        assert IsSpace('\n');
      }
      PairsFromIndex(t);
      hide Normal, Paragraphs, Wrapped, Capped, Markers, Pairs, IsSpace, IsFrame;
      var lead, trail := AgainFromStart(t);
      FramedCore(lead, t, trail);
    }
  }

  lemma AgainFromStart(t: string) returns (lead: string, trail: string)
    requires Pairs(t) && t != [] && t[0] != '\n'
    ensures IsFrame(lead) && IsFrame(trail) && Capped(Wrapped(t, true), 0) == lead + t + trail
  {
    NoFrame();
    if HeadingLength(t) > 0 {
      StartsWithHeading(t);
      hide Wrapped, Capped, HeadingLength, IsFrame;
      lead := "\n\n";
      trail := WrappedAgain(t, true, 2);
      assert "\n\n" + (t + trail) == "\n\n" + t + trail;
    } else {
      var w := Wrapped(t[1..], false);
      assert Wrapped(t, true) == [t[0]] + w;
      assert Capped([t[0]] + w, 0) == [t[0]] + Capped(w, 0) by {
        assert ([t[0]] + w)[1..] == w;
      }
      assert Pairs(t[1..]);
      hide Wrapped, Capped, HeadingLength, IsFrame, Pairs;
      lead := "";
      trail := WrappedAgain(t[1..], false, 0);
      assert [t[0]] + (t[1..] + trail) == "" + t + trail;
    }
  }

  lemma StartsWithHeading(t: string)
    requires HeadingLength(t) > 0
    ensures Capped(Wrapped(t, true), 0) == "\n\n" + Capped(Wrapped(t, true), 2)
  {
    var n := HeadingLength(t);
    var rest := t[..n] + "\n\n" + Wrapped(t[n..], t[n - 1] == '\n');
    WrappedHeading(t);
    assert "\n\n" + t[..n] + "\n\n" + Wrapped(t[n..], t[n - 1] == '\n') == "\n\n" + rest;
    hide Wrapped, Capped, HeadingLength;
    CappedPair(rest, 0);
    CappedPair(rest, 2);
    CappedBeyond(rest, 2, 4);
    assert "" + Capped(rest, 4) == Capped(rest, 4);
  }

  /** Past two newlines, their number does not matter. */
  lemma {:induction false} CappedBeyond(s: string, a: nat, b: nat)
    requires a >= 2 && b >= 2
    ensures Capped(s, a) == Capped(s, b)
  {
    if s != [] && s[0] == '\n' {
      CappedBeyond(s[1..], a + 1, b + 1);
    }
  }

  lemma NothingToLayOut()
    ensures Layout([]) == []
  {
    assert Joined([]) == [] && OneSpace([], false) == [] && NoTrailing([]) == [] && Strip([]) == [];
  }

  /** Steps 4b to 6 are idempotent, for every text. */
  lemma LayoutIdempotent(s: string)
    ensures Layout(Layout(s)) == Layout(s)
  {
    LayoutIsNormal(s);
    ParagraphsUnmarked(Capped(Wrapped(s, true), 0));
    hide Normal, Markers, Paragraphs;
    LayoutOfNormal(Layout(s));
  }
}
