/** What the chunker promises about its chunks, for every text and every embedding answer. */
module SemanticChunkerTheorems {
  import opened Text
  import opened Seqs
  import opened SemanticChunker

  // ---- conservation through sentence splitting ----

  lemma {:induction false} HeadingSegmentsCover(s: string, from: nat, p: nat)
    requires from <= p <= |s|
    ensures Concat(HeadingSegments(s, from, p)) == s[from..]
    decreases |s| - p
  {
    hide Concat, HeadingLineEnd;
    if p < |s| {
      match HeadingLineEnd(s, p)
      case Some(e) =>
        HeadingSegmentsCover(s, e, e);
        var tail := HeadingSegments(s, e, e);
        ConcatCons(s[p..e], tail);
        ConcatCons(s[from..p], [s[p..e]] + tail);
        assert [s[from..p], s[p..e]] + tail == [s[from..p]] + ([s[p..e]] + tail);
        assert s[from..] == s[from..p] + (s[p..e] + s[e..]);
      case None =>
        HeadingSegmentsCover(s, from, p + 1);
    } else {
      ConcatOne(s[from..]);
    }
  }

  lemma InkDropsGap(head: string, gap: string, rest: string)
    requires forall i :: 0 <= i < |gap| ==> IsSpace(gap[i])
    ensures Ink(head + (gap + rest)) == Ink(head) + Ink(rest)
  {
    hide Ink, IsSpace;
    InkConcat(head, gap + rest);
    InkConcat(gap, rest);
    InkOfSpaces(gap);
  }

  lemma {:induction false} SplitByKeepsInk(sep: Separator, s: string, from: nat, p: nat)
    requires from <= p <= |s| && SeparatesBySpace(sep)
    ensures Ink(Concat(SplitBy(sep, s, from, p))) == Ink(s[from..])
    decreases |s| - p
  {
    hide Ink, Concat, IsSpace;
    if p < |s| {
      var e := sep(s, p);
      if p < e {
        var head, gap, rest := s[from..p], s[p..e], s[e..];
        var tail := SplitBy(sep, s, e, e);
        SplitByKeepsInk(sep, s, e, e);
        ConcatCons(head, tail);
        InkConcat(head, Concat(tail));
        InkDropsGap(head, gap, rest);
        assert s[from..] == head + (gap + rest);
      } else {
        SplitByKeepsInk(sep, s, from, p + 1);
      }
    } else {
      ConcatOne(s[from..]);
    }
  }

  lemma GapsAreSpace()
    ensures SeparatesBySpace(BlankLines) && SeparatesBySpace(SentenceGap)
  {
  }

  /** Rewriting every piece into pieces with the same ink keeps the ink of the whole. */
  lemma {:induction false} FlatMapKeepsInk(f: string -> seq<string>, xs: seq<string>)
    requires forall i :: 0 <= i < |xs| ==> Ink(Concat(f(xs[i]))) == Ink(xs[i])
    ensures Ink(Concat(FlatMap(f, xs))) == Ink(Concat(xs))
  {
    if xs != [] {
      var n := |xs| - 1;
      FlatMapKeepsInk(f, xs[..n]);
      ConcatAppend(FlatMap(f, xs[..n]), f(xs[n]));
      InkConcat(Concat(FlatMap(f, xs[..n])), Concat(f(xs[n])));
      ConcatAppend(xs[..n], [xs[n]]);
      assert xs[..n] + [xs[n]] == xs;
      ConcatOne(xs[n]);
      InkConcat(Concat(xs[..n]), xs[n]);
    }
  }

  lemma StripOrDropKeepsInk(s: string)
    ensures Ink(Concat(StripOrDrop(s))) == Ink(s)
    ensures forall x :: x in StripOrDrop(s) ==> x != [] && Stripped(x)
  {
    StripFacts(s);
    ConcatOne(Strip(s));
  }

  ghost predicate AllClean(xs: seq<string>) {
    forall x :: x in xs ==> x != [] && Stripped(x)
  }

  lemma {:induction false} FlatMapClean(f: string -> seq<string>, xs: seq<string>)
    requires forall i :: 0 <= i < |xs| ==> AllClean(f(xs[i]))
    ensures AllClean(FlatMap(f, xs))
  {
    forall u | u in FlatMap(f, xs) ensures u != [] && Stripped(u) {
      FlatMapMember(f, xs, u);
    }
  }

  lemma ParagraphSentencesFacts(para: string)
    ensures Ink(Concat(ParagraphSentences(para))) == Ink(para)
    ensures AllClean(ParagraphSentences(para))
  {
    StripFacts(para);
    var p := Strip(para);
    ConcatOne(p);
    if p != [] && !StartsAsHeading(p) {
      var pieces := SplitBy(SentenceGap, p, 0, 0);
      forall s ensures Ink(Concat(StripOrDrop(s))) == Ink(s) && AllClean(StripOrDrop(s)) { StripOrDropKeepsInk(s); }
      FlatMapKeepsInk(StripOrDrop, pieces);
      FlatMapClean(StripOrDrop, pieces);
      GapsAreSpace();
      SplitByKeepsInk(SentenceGap, p, 0, 0);
      assert p[0..] == p;
    }
  }

  lemma SegmentSentencesFacts(seg: string)
    ensures Ink(Concat(SegmentSentences(seg))) == Ink(seg)
    ensures AllClean(SegmentSentences(seg))
  {
    StripFacts(seg);
    var g := Strip(seg);
    ConcatOne(g);
    if g != [] && !(StartsAsHeading(g) && '\n' !in g) {
      var paras := SplitBy(BlankLines, g, 0, 0);
      forall s ensures Ink(Concat(ParagraphSentences(s))) == Ink(s) && AllClean(ParagraphSentences(s)) {
        ParagraphSentencesFacts(s);
      }
      FlatMapKeepsInk(ParagraphSentences, paras);
      FlatMapClean(ParagraphSentences, paras);
      GapsAreSpace();
      SplitByKeepsInk(BlankLines, g, 0, 0);
      assert g[0..] == g;
    }
  }

  /** Sentence splitting loses only white space, and every sentence is stripped and not empty. */
  lemma SentencesConserve(text: string)
    ensures Ink(Concat(Sentences(text))) == Ink(text)
    ensures AllClean(Sentences(text))
  {
    StripFacts(text);
    if !Blank(text) {
      var segs := HeadingSegments(text, 0, 0);
      forall s ensures Ink(Concat(SegmentSentences(s))) == Ink(s) && AllClean(SegmentSentences(s)) {
        SegmentSentencesFacts(s);
      }
      FlatMapKeepsInk(SegmentSentences, segs);
      FlatMapClean(SegmentSentences, segs);
      HeadingSegmentsCover(text, 0, 0);
      assert text[0..] == text;
    }
  }

  // ---- the soft split ----

  lemma StripOfPrefixIsClean(text: string, cut: nat)
    requires text != [] && Stripped(text) && 1 <= cut <= |text|
    ensures Strip(text[..cut]) != []
  {
    StripFacts(text[..cut]);
    InkSplit(text[..cut], 1);
    assert text[..cut][..1] == [text[0]];
    assert Ink([text[0]]) == [text[0]] + Ink([text[0]][1..]);
  }

  /** Pieces fit, keep the ink, and of a clean text are clean: no cut leaves a blank piece. */
  lemma {:induction false} SoftPiecesFacts(text: string, max: int, soft: int, window: int)
    requires max >= 1
    ensures forall i :: 0 <= i < |SoftPieces(text, max, soft, window)| ==> |SoftPieces(text, max, soft, window)[i]| <= max
    ensures Ink(Concat(SoftPieces(text, max, soft, window))) == Ink(text)
    ensures Stripped(text) ==> AllClean(SoftPieces(text, max, soft, window))
    decreases |text|
  {
    if |text| > max {
      var cut := Cut(text, max, soft, window);
      PiecesStep(text, max, soft, window);
      var head, rest := Strip(text[..cut]), Strip(text[cut..]);
      var tail := SoftPieces(rest, max, soft, window);
      SoftPiecesFacts(rest, max, soft, window);
      StripFacts(text[..cut]);
      StripFacts(text[cut..]);
      assert ([head] + tail)[1..] == tail;
      InkConcat(head, Concat(tail));
      InkSplit(text, cut);
      if Stripped(text) {
        StripOfPrefixIsClean(text, cut);
      }
    } else if text != [] {
      ConcatOne(text);
    }
  }

  lemma SoftSplitFacts(text: string, max: int, soft: int, window: int)
    requires max >= 1
    ensures forall i :: 0 <= i < |SoftSplitOf(text, max, soft, window)| ==> |SoftSplitOf(text, max, soft, window)[i]| <= max
    ensures Ink(Concat(SoftSplitOf(text, max, soft, window))) == Ink(text)
    ensures text != [] && Stripped(text) ==> AllClean(SoftSplitOf(text, max, soft, window))
  {
    if |text| <= max {
      ConcatOne(text);
    } else {
      SoftPiecesFacts(text, max, soft, window);
    }
  }

  /**
    A cut goes through a word only for want of a better place: the window ended on a
    punctuation mark (the search cannot see what follows), or the first `max` characters
    hold no space at all.
   */
  lemma WordsAreCutOnlyWhen(text: string, max: int, soft: int, window: int)
    requires 1 <= max < |text|
    ensures var cut := Cut(text, max, soft, window);
      0 < cut && !IsSpace(text[cut - 1]) && !IsSpace(text[cut]) ==>
        || (cut == WindowEnd(max, soft, window) && IsEnder(text[cut - 1]))
        || (cut == max && forall i :: 0 <= i < max ==> text[i] != ' ')
  {
  }

  // ---- blocks ----

  lemma {:induction false} RawBlocksShape(ss: seq<string>, bs: seq<bool>, n: nat)
    requires n <= |ss| == |bs|
    ensures RawBlocks(ss, bs, n).current == [] <==> n == 0 || bs[n - 1]
    ensures forall k :: 0 <= k < |RawBlocks(ss, bs, n).closed| ==> RawBlocks(ss, bs, n).closed[k] != []
    ensures n > 0 ==>
        var b := RawBlocks(ss, bs, n - 1);
        RawBlocks(ss, bs, n).All() == b.closed + [b.current + [ss[n - 1]]]
  {
    if n > 0 {
      RawBlocksShape(ss, bs, n - 1);
    }
  }

  lemma AllFlatten(b: Blocks)
    ensures Flatten(b.All()) == Flatten(b.closed) + b.current
  {
    if b.current != [] {
      FlattenSnoc(b.closed, b.current);
    }
  }

  /** No sentence is lost or moved when the blocks are assembled. */
  lemma {:induction false} RawBlocksFlatten(ss: seq<string>, bs: seq<bool>, n: nat)
    requires n <= |ss| == |bs|
    ensures Flatten(RawBlocks(ss, bs, n).closed) + RawBlocks(ss, bs, n).current == ss[..n]
    ensures Flatten(RawBlocks(ss, bs, n).All()) == ss[..n]
  {
    hide Flatten;
    FlattenEmpty<string>();
    if n > 0 {
      var m := n - 1;
      var b := RawBlocks(ss, bs, m);
      var current := b.current + [ss[m]];
      RawBlocksFlatten(ss, bs, m);
      assert Flatten(b.closed) + current == ss[..n] by {
        Associate(Flatten(b.closed), b.current, [ss[m]]);
        PrefixStep(ss, m);
      }
      FlattenSnoc(b.closed, current);
      assert ss[..n] + [] == ss[..n];
    }
    AllFlatten(RawBlocks(ss, bs, n));
  }

  lemma FlattenEmpty<T>()
    ensures Flatten<T>([]) == []
  {
  }

  lemma FlattenSnoc<T>(xss: seq<seq<T>>, xs: seq<T>)
    ensures Flatten(xss + [xs]) == Flatten(xss) + xs
  {
    assert (xss + [xs])[..|xss|] == xss;
  }

  lemma FlattenExtendLast(result: seq<seq<string>>, block: seq<string>)
    requires result != []
    ensures Flatten(ExtendLast(result, block)) == Flatten(result) + block
  {
    var n := |result| - 1;
    FlattenSnoc(result[..n], result[n] + block);
    FlattenSnoc(result[..n], result[n]);
    assert result[..n] + [result[n]] == result;
  }

  lemma {:induction false} HeadingGuardFlatten(heading: string -> bool, blocks: seq<seq<string>>)
    ensures Flatten(HeadingGuard(heading, blocks)) == Flatten(blocks)
  {
    if blocks != [] {
      var n := |blocks| - 1;
      HeadingGuardFlatten(heading, blocks[..n]);
      var result := HeadingGuard(heading, blocks[..n]);
      FlattenSnoc(result, blocks[n]);
      if result != [] {
        FlattenExtendLast(result, blocks[n]);
      }
    }
  }

  lemma {:induction false} MinGuardLengths(blocks: seq<seq<string>>, min: int)
    ensures forall j :: 1 <= j < |MinGuard(blocks, min)| ==> |MinGuard(blocks, min)[j]| >= min
  {
    if blocks != [] {
      MinGuardLengths(blocks[..|blocks| - 1], min);
    }
  }

  lemma {:induction false} MinGuardFlatten(blocks: seq<seq<string>>, min: int)
    ensures Flatten(MinGuard(blocks, min)) == Flatten(blocks)
  {
    if blocks != [] {
      hide Flatten, ExtendLast;
      var n := |blocks| - 1;
      MinGuardFlatten(blocks[..n], min);
      var result := MinGuard(blocks[..n], min);
      assert blocks == blocks[..n] + [blocks[n]];
      FlattenSnoc(blocks[..n], blocks[n]);
      FlattenSnoc(result, blocks[n]);
      if result != [] {
        FlattenExtendLast(result, blocks[n]);
      }
    }
  }

  /** Without headings: the sentence order is kept, and every block but the first is long enough. */
  lemma MinGuardFacts(blocks: seq<seq<string>>, min: int)
    ensures Flatten(MinGuard(blocks, min)) == Flatten(blocks)
    ensures forall j :: 1 <= j < |MinGuard(blocks, min)| ==> |MinGuard(blocks, min)[j]| >= min
  {
    MinGuardFlatten(blocks, min);
    MinGuardLengths(blocks, min);
  }

  // ---- sections ----

  /** The partition of the sentences at the headings: sections open with their heading and hold no other. */
  ghost predicate IsSectionPartition(heading: string -> bool, blocks: seq<seq<string>>, ss: seq<string>) {
    && Flatten(blocks) == ss
    && forall j :: 0 <= j < |blocks| ==> IsSection(heading, blocks[j], j == 0)
  }

  ghost predicate IsSection(heading: string -> bool, block: seq<string>, first: bool) {
    && block != []
    && (first || heading(block[0]))
    && forall k :: 1 <= k < |block| ==> !heading(block[k])
  }

  /** There is only one such partition. */
  lemma {:induction false} SectionPartitionUnique(heading: string -> bool, a: seq<seq<string>>, b: seq<seq<string>>, ss: seq<string>)
    requires IsSectionPartition(heading, a, ss) && IsSectionPartition(heading, b, ss)
    ensures a == b
  {
    if a != [] && b != [] {
      var m, n := |a| - 1, |b| - 1;
      var x, y := a[m], b[n];
      LastSectionNoLonger(heading, a, b, ss);
      LastSectionNoLonger(heading, b, a, ss);
      assert x == ss[|ss| - |x|..] == y;
      var rest := ss[..|ss| - |x|];
      assert Flatten(a[..m]) == rest && Flatten(b[..n]) == rest;
      SectionPartitionUnique(heading, a[..m], b[..n], rest);
      assert a == a[..m] + [x] && b == b[..n] + [y];
    }
  }

  /** The last section of one partition is no longer than that of another. */
  lemma LastSectionNoLonger(heading: string -> bool, a: seq<seq<string>>, b: seq<seq<string>>, ss: seq<string>)
    requires IsSectionPartition(heading, a, ss) && IsSectionPartition(heading, b, ss) && a != [] && b != []
    ensures |a[|a| - 1]| <= |b[|b| - 1]|
  {
    var x, y := a[|a| - 1], b[|b| - 1];
    assert IsSection(heading, x, |a| == 1) && IsSection(heading, y, |b| == 1);
    assert x == ss[|ss| - |x|..] && y == ss[|ss| - |y|..];
    assert |y| <= |x| ==> x[|x| - |y|..] == y;
    assert |b| == 1 ==> Flatten(b[..0]) == [] && ss == [] + y;
  }

  lemma OpenSection(heading: string -> bool, r: seq<seq<string>>, ss: seq<string>, s: string)
    requires IsSectionPartition(heading, r, ss) && (heading(s) || r == [])
    ensures IsSectionPartition(heading, r + [[s]], ss + [s])
  {
    FlattenSnoc(r, [s]);
    assert IsSection(heading, [s], r == []);
  }

  lemma ContinueSection(heading: string -> bool, r: seq<seq<string>>, ss: seq<string>, s: string)
    requires IsSectionPartition(heading, r, ss) && r != [] && !heading(s)
    ensures IsSectionPartition(heading, ExtendLast(r, [s]), ss + [s])
  {
    FlattenExtendLast(r, [s]);
    var r' := ExtendLast(r, [s]);
    var n := |r| - 1;
    assert IsSection(heading, r[n], n == 0);
    assert IsSection(heading, r[n] + [s], n == 0);
    assert forall j :: 0 <= j < n ==> r'[j] == r[j];
  }

  lemma HeadingGuardSnoc(heading: string -> bool, closed: seq<seq<string>>, block: seq<string>)
    ensures HeadingGuard(heading, closed + [block]) ==
      (var r := HeadingGuard(heading, closed);
       if (block != [] && heading(block[0])) || r == [] then r + [block] else ExtendLast(r, block))
  {
    assert (closed + [block])[..|closed|] == closed;
  }

  /** Sections stay sections when a sentence opens a new block... */
  lemma HeadingGuardOpens(heading: string -> bool, closed: seq<seq<string>>, ss: seq<string>, s: string)
    requires IsSectionPartition(heading, HeadingGuard(heading, closed), ss)
    ensures IsSectionPartition(heading, HeadingGuard(heading, closed + [[s]]), ss + [s])
  {
    var r := HeadingGuard(heading, closed);
    HeadingGuardSnoc(heading, closed, [s]);
    if heading(s) || r == [] {
      OpenSection(heading, r, ss, s);
    } else {
      ContinueSection(heading, r, ss, s);
    }
  }

  /** ... and when it joins the block before it. */
  lemma HeadingGuardContinues(heading: string -> bool, closed: seq<seq<string>>, block: seq<string>, ss: seq<string>, s: string)
    requires block != [] && !heading(s)
    requires IsSectionPartition(heading, HeadingGuard(heading, closed + [block]), ss)
    ensures IsSectionPartition(heading, HeadingGuard(heading, closed + [block + [s]]), ss + [s])
  {
    var r, g := HeadingGuard(heading, closed), HeadingGuard(heading, closed + [block]);
    HeadingGuardSnoc(heading, closed, block);
    HeadingGuardSnoc(heading, closed, block + [s]);
    ContinueSection(heading, g, ss, s);
    ExtendLastTwice(r, block, s);
  }

  lemma ExtendLastTwice(r: seq<seq<string>>, block: seq<string>, s: string)
    ensures ExtendLast(r + [block], [s]) == r + [block + [s]]
    ensures r != [] ==> ExtendLast(ExtendLast(r, block), [s]) == ExtendLast(r, block + [s])
  {
    if r != [] {
      assert r[|r| - 1] + block + [s] == r[|r| - 1] + (block + [s]);
    }
  }

  lemma {:induction false} HeadingGuardSections(heading: string -> bool, ss: seq<string>, bs: seq<bool>, n: nat)
    requires n <= |ss| == |bs|
    requires forall i :: 0 <= i && i + 1 < |ss| && heading(ss[i + 1]) ==> bs[i]
    ensures IsSectionPartition(heading, HeadingGuard(heading, RawBlocks(ss, bs, n).All()), ss[..n])
  {
    if n > 0 {
      var m := n - 1;
      var b, after := RawBlocks(ss, bs, m), RawBlocks(ss, bs, n).All();
      HeadingGuardSections(heading, ss, bs, m);
      assert ss[..n] == ss[..m] + [ss[m]];
      assert after == b.closed + [b.current + [ss[m]]] by { RawBlocksShape(ss, bs, n); }
      assert b.current != [] ==> !heading(ss[m]) by { RawBlocksShape(ss, bs, m); }
      assert IsSectionPartition(heading, HeadingGuard(heading, after), ss[..m] + [ss[m]]) by {
        if b.current == [] {
          HeadingGuardOpens(heading, b.closed, ss[..m], ss[m]);
          assert b.current + [ss[m]] == [ss[m]];
        } else {
          HeadingGuardContinues(heading, b.closed, b.current, ss[..m], ss[m]);
        }
      }
    }
  }

  // ---- where blocks start ----

  /** The position in the flattened sequence where block `i` starts. */
  ghost function Offset<T>(blocks: seq<seq<T>>, i: nat): nat
    requires i <= |blocks|
  {
    |Flatten(blocks[..i])|
  }

  ghost predicate StartsAt<T>(blocks: seq<seq<T>>, p: nat) {
    exists i: nat :: i < |blocks| && Offset(blocks, i) == p
  }

  lemma OffsetStep<T>(blocks: seq<seq<T>>, i: nat)
    requires i < |blocks|
    ensures Offset(blocks, i + 1) == Offset(blocks, i) + |blocks[i]|
  {
    PrefixStep(blocks, i);
  }

  lemma OffsetZero<T>(blocks: seq<seq<T>>)
    ensures Offset(blocks, 0) == 0
  {
  }

  lemma OffsetOfPrefix<T>(blocks: seq<seq<T>>, n: nat, i: nat)
    requires i <= n <= |blocks|
    ensures Offset(blocks[..n], i) == Offset(blocks, i)
  {
    assert blocks[..n][..i] == blocks[..i];
  }

  lemma {:induction false} OffsetsIncrease<T>(blocks: seq<seq<T>>, i: nat, j: nat)
    requires i < j <= |blocks|
    requires forall k :: 0 <= k < |blocks| ==> blocks[k] != []
    ensures Offset(blocks, i) + |blocks[i]| <= Offset(blocks, j)
    decreases j
  {
    OffsetStep(blocks, j - 1);
    if i < j - 1 {
      OffsetsIncrease(blocks, i, j - 1);
    }
  }

  lemma StartsSnoc<T>(blocks: seq<seq<T>>, b: seq<T>, p: nat)
    ensures StartsAt(blocks + [b], p) <==> StartsAt(blocks, p) || p == |Flatten(blocks)|
  {
    var all := blocks + [b];
    assert all[..|blocks|] == blocks;
    if i: nat :| i < |all| && Offset(all, i) == p {
      if i < |blocks| {
        OffsetOfPrefix(all, |blocks|, i);
      }
    }
    if i: nat :| i < |blocks| && Offset(blocks, i) == p {
      OffsetOfPrefix(all, |blocks|, i);
      assert Offset(all, i) == p;
    }
    assert Offset(all, |blocks|) == |Flatten(blocks)|;
  }

  lemma StartsExtendLast(blocks: seq<seq<string>>, b: seq<string>, p: nat)
    requires blocks != []
    ensures StartsAt(ExtendLast(blocks, b), p) <==> StartsAt(blocks, p)
  {
    var n := |blocks| - 1;
    StartsSnoc(blocks[..n], blocks[n], p);
    StartsSnoc(blocks[..n], blocks[n] + b, p);
    assert blocks == blocks[..n] + [blocks[n]];
  }

  lemma StartsAfterSentence(b: Blocks, s: string, p: nat)
    ensures StartsAt(b.closed + [b.current + [s]], p) <==>
      StartsAt(b.All(), p) || (b.current == [] && p == |Flatten(b.closed)|)
  {
    StartsSnoc(b.closed, b.current + [s], p);
    StartsSnoc(b.closed, b.current, p);
  }

  /** The raw blocks start at 0 and after every break, and nowhere else. */
  lemma {:induction false} RawBlocksStart(ss: seq<string>, bs: seq<bool>, n: nat, p: nat)
    requires n <= |ss| == |bs|
    ensures StartsAt(RawBlocks(ss, bs, n).All(), p) <==> p < n && (p == 0 || bs[p - 1])
  {
    if n > 0 {
      var m := n - 1;
      var b, after := RawBlocks(ss, bs, m), RawBlocks(ss, bs, n).All();
      RawBlocksStart(ss, bs, m, p);
      var before := StartsAt(b.All(), p);
      assert before <==> p < m && (p == 0 || bs[p - 1]);
      assert b.current == [] ==> |Flatten(b.closed)| == m by { RawBlocksFlatten(ss, bs, m); }
      assert b.current == [] <==> m == 0 || bs[m - 1] by { RawBlocksShape(ss, bs, m); }
      assert StartsAt(after, p) <==> before || (b.current == [] && p == |Flatten(b.closed)|) by {
        RawBlocksShape(ss, bs, n);
        StartsAfterSentence(b, ss[m], p);
      }
    }
  }

  /** The guard keeps the start of a block exactly when the block is long enough (or is the first). */
  lemma {:induction false} MinGuardStarts(blocks: seq<seq<string>>, min: int, p: nat)
    ensures StartsAt(MinGuard(blocks, min), p) <==> LongBlockStartsAt(blocks, min, p)
  {
    if blocks != [] {
      var n := |blocks| - 1;
      var init, last := blocks[..n], blocks[n];
      var result := MinGuard(init, min);
      MinGuardStarts(init, min, p);
      assert LongBlockStartsAt(blocks, min, p) <==>
        LongBlockStartsAt(init, min, p) || (p == |Flatten(init)| && (n == 0 || |last| >= min)) by {
        LongBlockSnoc(init, last, min, p);
        assert blocks == init + [last];
      }
      if |last| < min && result != [] {
        StartsExtendLast(result, last, p);
      } else {
        MinGuardFacts(init, min);
        StartsSnoc(result, last, p);
      }
    }
  }

  ghost predicate LongBlockStartsAt(blocks: seq<seq<string>>, min: int, p: nat) {
    exists i: nat :: i < |blocks| && Offset(blocks, i) == p && (i == 0 || |blocks[i]| >= min)
  }

  lemma LongBlockSnoc(init: seq<seq<string>>, last: seq<string>, min: int, p: nat)
    ensures LongBlockStartsAt(init + [last], min, p) <==>
      LongBlockStartsAt(init, min, p) || (p == |Flatten(init)| && (init == [] || |last| >= min))
  {
    var all, n := init + [last], |init|;
    forall i: nat | i <= n ensures Offset(all, i) == Offset(init, i) {
      OffsetOfPrefix(all, n, i);
      assert all[..n] == init;
    }
    assert Offset(init, n) == |Flatten(init)| by { assert init[..n] == init; }
    hide Offset;
    if i: nat :| i < |all| && Offset(all, i) == p && (i == 0 || |all[i]| >= min) {
      assert i < n ==> Offset(init, i) == p;
    }
    if i: nat :| i < n && Offset(init, i) == p && (i == 0 || |init[i]| >= min) {
      assert Offset(all, i) == p;
    }
    assert Offset(all, n) == |Flatten(init)|;
  }

  /** A raw block has at least two sentences exactly when no break follows its first one. */
  lemma RawBlockIsLong(ss: seq<string>, bs: seq<bool>, i: nat)
    requires |ss| == |bs| && i < |RawBlocks(ss, bs, |ss|).All()|
    ensures var b := RawBlocks(ss, bs, |ss|).All();
      |b[i]| >= 2 <==> Offset(b, i) + 1 < |ss| && !bs[Offset(b, i)]
  {
    var b := RawBlocks(ss, bs, |ss|).All();
    var p := Offset(b, i);
    RawBlocksStart(ss, bs, |ss|, p + 1);
    RawBlocksFlatten(ss, bs, |ss|);
    RawBlocksShape(ss, bs, |ss|);
    OffsetStep(b, i);
    assert b[..|b|] == b && ss[..|ss|] == ss;
    OffsetsIncrease(b, i, |b|);
    if |b[i]| >= 2 {
      if j: nat :| j < |b| && Offset(b, j) == p + 1 {
        if j < i {
          OffsetsIncrease(b, j, i);
        } else if i < j {
          OffsetsIncrease(b, i, j);
        }
      }
    } else if i + 1 < |b| {
      assert Offset(b, i + 1) == p + 1;
    }
  }

  lemma OffsetsDiffer<T>(blocks: seq<seq<T>>, i: nat, j: nat)
    requires i < |blocks| && j < |blocks|
    requires forall k :: 0 <= k < |blocks| ==> blocks[k] != []
    ensures Offset(blocks, i) == Offset(blocks, j) <==> i == j
  {
    if i < j {
      OffsetsIncrease(blocks, i, j);
    } else if j < i {
      OffsetsIncrease(blocks, j, i);
    }
  }

  /** The merged blocks start where a raw block of at least two sentences does, and at 0. */
  lemma MinGuardOfRawStarts(ss: seq<string>, bs: seq<bool>, p: nat)
    requires |ss| == |bs|
    ensures StartsAt(MinGuard(RawBlocks(ss, bs, |ss|).All(), 2), p) <==>
      p < |ss| && (p == 0 || (bs[p - 1] && p + 1 < |ss| && !bs[p]))
  {
    hide Offset, Flatten, RawBlocks, MinGuard;
    var raw := RawBlocks(ss, bs, |ss|).All();
    assert StartsAt(raw, p) <==> p < |ss| && (p == 0 || bs[p - 1]) by { RawBlocksStart(ss, bs, |ss|, p); }
    assert StartsAt(MinGuard(raw, 2), p) <==> LongBlockStartsAt(raw, 2, p) by { MinGuardStarts(raw, 2, p); }
    assert forall k :: 0 <= k < |raw| ==> raw[k] != [] by { RawBlocksShape(ss, bs, |ss|); }
    assert LongBlockStartsAt(raw, 2, p) ==> StartsAt(raw, p);
    if i: nat :| i < |raw| && Offset(raw, i) == p {
      assert |raw[i]| >= 2 <==> p + 1 < |ss| && !bs[p] by { RawBlockIsLong(ss, bs, i); }
      assert p == 0 <==> i == 0 by {
        OffsetZero(raw);
        OffsetsDiffer(raw, 0, i);
      }
      assert LongBlockStartsAt(raw, 2, p) <==> (i == 0 || |raw[i]| >= 2) by {
        forall j: nat | j < |raw| && Offset(raw, j) == p ensures j == i {
          OffsetsDiffer(raw, i, j);
        }
      }
    }
  }

  // ---- the whole pipeline ----

  lemma MergedBlocksFlatten(ss: seq<string>, far: Oracle)
    ensures Flatten(MergedBlocks(ss, far)) == ss
  {
    var bs := Breaks(ss, far);
    RawBlocksFlatten(ss, bs, |ss|);
    HeadingGuardFlatten(IsHeading, RawBlocks(ss, bs, |ss|).All());
    MinGuardFacts(RawBlocks(ss, bs, |ss|).All(), MIN_CHUNK_SENTENCES);
  }

  lemma BlockTextFacts(block: seq<string>)
    ensures Ink(Concat(BlockText(block))) == Ink(Concat(block))
    ensures AllClean(BlockText(block))
  {
    StripOrDropKeepsInk(Join(" ", block));
    assert Ink(" ") == Ink(" "[1..]);
    InkJoin(" ", block);
  }

  lemma {:induction false} BlockTextsKeepInk(blocks: seq<seq<string>>)
    ensures Ink(Concat(FlatMap(BlockText, blocks))) == Ink(Concat(Flatten(blocks)))
    ensures AllClean(FlatMap(BlockText, blocks))
  {
    if blocks != [] {
      var n := |blocks| - 1;
      BlockTextsKeepInk(blocks[..n]);
      BlockTextFacts(blocks[n]);
      ConcatAppend(FlatMap(BlockText, blocks[..n]), BlockText(blocks[n]));
      ConcatAppend(Flatten(blocks[..n]), blocks[n]);
      InkConcat(Concat(FlatMap(BlockText, blocks[..n])), Concat(BlockText(blocks[n])));
      InkConcat(Concat(Flatten(blocks[..n])), Concat(blocks[n]));
    }
  }

  /** Clean chunks go through the soft split into clean pieces that fit, and the final filter drops none. */
  lemma PiecesOfCleanChunks(chunks: seq<string>)
    requires AllClean(chunks)
    ensures var pieces := FlatMap(ChunkPieces, chunks);
      && NotBlank(pieces) == pieces
      && AllClean(pieces)
      && (forall x :: x in pieces ==> |x| <= MAX_CHUNK_CHARS)
      && Ink(Concat(pieces)) == Ink(Concat(chunks))
  {
    var pieces := FlatMap(ChunkPieces, chunks);
    forall i | 0 <= i < |chunks|
      ensures Ink(Concat(ChunkPieces(chunks[i]))) == Ink(chunks[i])
      ensures AllClean(ChunkPieces(chunks[i]))
      ensures forall x :: x in ChunkPieces(chunks[i]) ==> |x| <= MAX_CHUNK_CHARS
    {
      assert chunks[i] in chunks;
      SoftSplitFacts(chunks[i], MAX_CHUNK_CHARS, SOFT_THRESHOLD, SENTENCE_SEARCH_WINDOW);
    }
    FlatMapKeepsInk(ChunkPieces, chunks);
    FlatMapClean(ChunkPieces, chunks);
    forall x | x in pieces ensures |x| <= MAX_CHUNK_CHARS && !Blank(x) {
      FlatMapMember(ChunkPieces, chunks, x);
      StripFacts(x);
    }
    FilterAll(c => !Blank(c), pieces);
  }

  lemma BlocksConserve(ss: seq<string>, far: Oracle)
    ensures AllClean(FlatMap(BlockText, MergedBlocks(ss, far)))
    ensures Ink(Concat(FlatMap(BlockText, MergedBlocks(ss, far)))) == Ink(Concat(ss))
  {
    MergedBlocksFlatten(ss, far);
    BlockTextsKeepInk(MergedBlocks(ss, far));
  }

  /**
    For every text and every embedding answer: the chunks are stripped and not blank, none is
    longer than MAX_CHUNK_CHARS, and read in order they hold exactly the ink of the text.
   */
  lemma SplitConserves(text: string, far: Oracle)
    ensures AllClean(SplitOf(text, far))
    ensures forall x :: x in SplitOf(text, far) ==> |x| <= MAX_CHUNK_CHARS
    ensures Ink(Concat(SplitOf(text, far))) == Ink(text)
  {
    var ss := Sentences(text);
    SentencesConserve(text);
    if Blank(text) || ss == [] {
      StripFacts(text);
    } else if |ss| == 1 {
      PiecesOfCleanChunks(ss);
      FlatMapOne(ChunkPieces, ss);
    } else {
      BlocksConserve(ss, far);
      PiecesOfCleanChunks(FlatMap(BlockText, MergedBlocks(ss, far)));
    }
  }

  lemma FlatMapOne<T, U>(f: T -> seq<U>, xs: seq<T>)
    requires |xs| == 1
    ensures FlatMap(f, xs) == f(xs[0])
  {
    assert xs[..0] == [];
  }

  /** With headings, the blocks are the sections, whatever the embeddings and the threshold say. */
  lemma BlocksAreSections(ss: seq<string>, far: Oracle)
    requires HasHeading(ss)
    ensures IsSectionPartition(IsHeading, MergedBlocks(ss, far), ss)
  {
    HeadingGuardSections(IsHeading, ss, Breaks(ss, far), |ss|);
    assert ss[..|ss|] == ss;
  }

  /** A document with a heading is chunked the same way for every embedding answer and every threshold. */
  lemma HeadingsDecide(text: string, far: Oracle, far': Oracle)
    requires HasHeading(Sentences(text))
    ensures SplitOf(text, far) == SplitOf(text, far')
  {
    var ss := Sentences(text);
    BlocksAreSections(ss, far);
    BlocksAreSections(ss, far');
    SectionPartitionUnique(IsHeading, MergedBlocks(ss, far), MergedBlocks(ss, far'), ss);
  }

  /** Without headings, sentences keep their order and only the first block may be short. */
  lemma BlocksAreLongEnough(ss: seq<string>, far: Oracle)
    requires !HasHeading(ss)
    ensures Flatten(MergedBlocks(ss, far)) == ss
    ensures forall j :: 1 <= j < |MergedBlocks(ss, far)| ==> |MergedBlocks(ss, far)[j]| >= MIN_CHUNK_SENTENCES
  {
    MergedBlocksFlatten(ss, far);
    MinGuardFacts(RawBlocks(ss, Breaks(ss, far), |ss|).All(), MIN_CHUNK_SENTENCES);
  }

  /**
    Without headings, a block starts at sentence `p` exactly when `p` is the first sentence, or
    the embeddings put a boundary before it and none right after it, and it is not the last.
   */
  lemma BlocksStartWhere(ss: seq<string>, far: Oracle, p: nat)
    requires !HasHeading(ss)
    ensures StartsAt(MergedBlocks(ss, far), p) <==>
      p < |ss| && (p == 0 || (far(ss, p - 1) && p + 1 < |ss| && !far(ss, p)))
  {
    MinGuardOfRawStarts(ss, Breaks(ss, far), p);
  }

  lemma {:induction false} MinGuardFirst(blocks: seq<seq<string>>, min: int)
    requires blocks != [] && blocks[0] != []
    ensures MinGuard(blocks, min)[0] != []
  {
    if |blocks| > 1 {
      MinGuardFirst(blocks[..|blocks| - 1], min);
    } else {
      assert blocks[..0] == [];
    }
  }

  /**
    Without headings, a short first block stays beside the next, which the source means to join it
    to, exactly when the embeddings put a boundary after the first sentence, none after the second,
    and there is a third.
   */
  lemma FirstBlockStaysShortWhen(ss: seq<string>, far: Oracle)
    requires !HasHeading(ss) && ss != []
    ensures MergedBlocks(ss, far) != []
    ensures |MergedBlocks(ss, far)| > 1 && |MergedBlocks(ss, far)[0]| < MIN_CHUNK_SENTENCES <==>
      |ss| > 2 && far(ss, 0) && !far(ss, 1)
  {
    hide MergedBlocks, Offset;
    var blocks := MergedBlocks(ss, far);
    BlocksAreLongEnough(ss, far);
    FirstBlockHolds(ss, far);
    BlocksStartWhere(ss, far, 1);
    OffsetZero(blocks);
    OffsetStep(blocks, 0);
    if StartsAt(blocks, 1) {
      var i: nat :| i < |blocks| && Offset(blocks, i) == 1;
      if i > 1 {
        OffsetsIncrease(blocks, 1, i);
      }
    }
  }

  lemma FirstBlockHolds(ss: seq<string>, far: Oracle)
    requires !HasHeading(ss) && ss != []
    ensures MergedBlocks(ss, far) != [] && MergedBlocks(ss, far)[0] != []
  {
    hide MinGuard, RawBlocks;
    var bs := Breaks(ss, far);
    RawBlocksFlatten(ss, bs, |ss|);
    RawBlocksShape(ss, bs, |ss|);
    assert ss[..|ss|] == ss && Flatten<string>([]) == [];
    MinGuardFirst(RawBlocks(ss, bs, |ss|).All(), MIN_CHUNK_SENTENCES);
  }

  /** Three sentences, and a boundary after the first only: the first block stays alone. */
  lemma FirstBlockMayStayShort(far: Oracle)
    requires forall ss, i :: far(ss, i) <==> i == 0
    ensures var blocks := MergedBlocks(["a.", "b.", "c."], far);
      |blocks| > 1 && |blocks[0]| < MIN_CHUNK_SENTENCES
  {
    hide IsHeading, MergedBlocks;
    NoHeadingsHere();
    FirstBlockStaysShortWhen(["a.", "b.", "c."], far);
  }

  lemma NoHeadingsHere()
    ensures !IsHeading("a.") && !IsHeading("b.") && !IsHeading("c.")
  {
  }
}
