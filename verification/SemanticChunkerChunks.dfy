/** The chunks of a text are its blocks, one after the other, each whole or cut to size. */
module SemanticChunkerChunks {
  import opened Wrappers
  import opened Text
  import opened Seqs
  import opened SemanticChunker
  import opened SemanticChunkerTheorems

  // ---- positions in blocks ----

  lemma FlattenAt<T>(blocks: seq<seq<T>>, i: nat, k: nat)
    requires i < |blocks| && k < |blocks[i]|
    ensures Offset(blocks, i) + k < |Flatten(blocks)| && Flatten(blocks)[Offset(blocks, i) + k] == blocks[i][k]
  {
    hide Flatten;
    assert blocks == blocks[..i] + blocks[i..] && blocks[i..] == [blocks[i]] + blocks[i + 1..];
    FlattenConcat(blocks[..i], blocks[i..]);
    FlattenConcat([blocks[i]], blocks[i + 1..]);
    FlattenOne(blocks[i]);
  }

  lemma FlattenOne<T>(block: seq<T>)
    ensures Flatten([block]) == block
  {
    assert [block][..0] == [];
  }

  /** Every position lies in a block. */
  lemma {:induction false} BlockAt<T>(blocks: seq<seq<T>>, p: nat) returns (i: nat, k: nat)
    requires p < |Flatten(blocks)|
    ensures i < |blocks| && k < |blocks[i]| && p == Offset(blocks, i) + k
  {
    var n := |blocks| - 1;
    if p < |Flatten(blocks[..n])| {
      i, k := BlockAt(blocks[..n], p);
      OffsetOfPrefix(blocks, n, i);
    } else {
      i, k := n, p - |Flatten(blocks[..n])|;
    }
  }

  /** In a section partition the blocks start at 0 and at the headings. */
  lemma SectionsStart(heading: string -> bool, blocks: seq<seq<string>>, ss: seq<string>, p: nat)
    requires IsSectionPartition(heading, blocks, ss)
    ensures StartsAt(blocks, p) <==> p < |ss| && (p == 0 || heading(ss[p]))
  {
    hide Flatten, Offset;
    OffsetZero(blocks);
    if StartsAt(blocks, p) {
      var i: nat :| i < |blocks| && Offset(blocks, i) == p;
      assert IsSection(heading, blocks[i], i == 0);
      FlattenAt(blocks, i, 0);
    }
    if p < |ss| && (p == 0 || heading(ss[p])) {
      var i, k := BlockAt(blocks, p);
      FlattenAt(blocks, i, k);
      assert IsSection(heading, blocks[i], i == 0);
      if p == 0 {
        assert k == 0;
      }
      assert k == 0;
      assert StartsAt(blocks, p);
    }
  }

  // ---- the blocks of a text ----

  /** Does a block start at sentence `p`: the first, a heading, or without headings one after a boundary that is not alone? */
  ghost predicate StartsBlock(ss: seq<string>, far: Oracle, p: nat) {
    && p < |ss|
    && (p == 0 || if exists i :: 0 <= i < |ss| && IsHeading(ss[i]) then IsHeading(ss[p]) else far(ss, p - 1) && p + 1 < |ss| && !far(ss, p))
  }

  /** The sentences in blocks that start where they should. */
  ghost predicate BlocksFit(ss: seq<string>, far: Oracle, blocks: seq<seq<string>>) {
    && Flatten(blocks) == ss
    && (forall i :: 0 <= i < |blocks| ==> blocks[i] != [])
    && forall p: nat :: StartsAt(blocks, p) <==> StartsBlock(ss, far, p)
  }

  lemma {:induction false} MinGuardFull(blocks: seq<seq<string>>, min: int)
    requires forall i :: 0 <= i < |blocks| ==> blocks[i] != []
    ensures forall i :: 0 <= i < |MinGuard(blocks, min)| ==> MinGuard(blocks, min)[i] != []
  {
    if blocks != [] {
      MinGuardFull(blocks[..|blocks| - 1], min);
    }
  }

  lemma MergedBlocksFit(ss: seq<string>, far: Oracle)
    ensures BlocksFit(ss, far, MergedBlocks(ss, far))
  {
    hide MinGuard, HeadingGuard, RawBlocks, Offset, Flatten, StartsAt, IsHeading;
    var blocks, bs := MergedBlocks(ss, far), Breaks(ss, far);
    MergedBlocksFlatten(ss, far);
    if HasHeading(ss) {
      BlocksAreSections(ss, far);
      forall i | 0 <= i < |blocks| ensures blocks[i] != [] {
        assert IsSection(IsHeading, blocks[i], i == 0);
      }
      forall p: nat ensures StartsAt(blocks, p) <==> StartsBlock(ss, far, p) {
        SectionsStart(IsHeading, blocks, ss, p);
      }
    } else {
      RawBlocksShape(ss, bs, |ss|);
      MinGuardFull(RawBlocks(ss, bs, |ss|).All(), MIN_CHUNK_SENTENCES);
      forall p: nat ensures StartsAt(blocks, p) <==> StartsBlock(ss, far, p) {
        BlocksStartWhere(ss, far, p);
      }
    }
  }

  lemma OneBlockFits(ss: seq<string>, far: Oracle)
    requires |ss| <= 1
    ensures BlocksFit(ss, far, if ss == [] then [] else [ss])
  {
    if ss != [] {
      FlattenOne(ss);
      forall p: nat ensures StartsAt([ss], p) <==> StartsBlock(ss, far, p) {
        OffsetZero([ss]);
        if p == 0 {
          assert Offset([ss], 0) == 0;
        }
      }
    }
  }

  // ---- the chunks of a block ----

  /** A sentence ends at `i`, as far as a search up to `end` can see. */
  ghost predicate EndsAt(text: string, end: int, i: int) {
    && 0 <= i < |text| && (text[i] == '.' || text[i] == '!' || text[i] == '?' || text[i] == '\U{2026}')
    && (i + 1 == end || (i + 1 < |text| && IsSpace(text[i + 1])))
  }

  /**
    Where a long text is cut: after the last sentence end between 700 and 1300, else before the last
    space among the first 1500 characters, else after these.
   */
  ghost predicate IsCut(text: string, cut: nat) {
    if exists i :: 700 <= i < 1300 && EndsAt(text, 1300, i)
    then 700 < cut <= 1300 && EndsAt(text, 1300, cut - 1) && forall i :: cut <= i < 1300 ==> !EndsAt(text, 1300, i)
    else if exists i :: 0 <= i < 1500 && i < |text| && text[i] == ' '
    then cut < 1500 && cut < |text| && text[cut] == ' ' && forall i :: cut < i < 1500 && i < |text| ==> text[i] != ' '
    else cut == 1500
  }

  lemma CutWhere(text: string)
    requires |text| > MAX_CHUNK_CHARS
    ensures IsCut(text, Cut(text, MAX_CHUNK_CHARS, SOFT_THRESHOLD, SENTENCE_SEARCH_WINDOW))
  {
    hide IsSpace;
    var stop := LastStop(text, 700, 1300, 1300);
    assert forall i :: EndsAt(text, 1300, i) <==> SentenceEndsAt(text, 1300, i);
    if stop != -1 {
      assert EndsAt(text, 1300, stop);
    }
  }

  /** The text in pieces: whole while it is short enough, else its start up to a cut, stripped, and the rest in pieces. */
  ghost predicate InPieces(text: string, pieces: seq<string>)
    decreases |pieces|
  {
    if |text| <= 1500 then pieces == if text == "" then [] else [text]
    else
      && pieces != []
      && exists cut: nat :: cut <= |text| && IsCut(text, cut) && pieces[0] == Strip(text[..cut]) && InPieces(Strip(text[cut..]), pieces[1..])
  }

  lemma {:induction false} PiecesAre(text: string)
    ensures InPieces(text, SoftPieces(text, MAX_CHUNK_CHARS, SOFT_THRESHOLD, SENTENCE_SEARCH_WINDOW))
    decreases |text|
  {
    hide IsCut, Strip, Cut;
    if |text| > MAX_CHUNK_CHARS {
      var cut := Cut(text, MAX_CHUNK_CHARS, SOFT_THRESHOLD, SENTENCE_SEARCH_WINDOW);
      CutWhere(text);
      PiecesStep(text, MAX_CHUNK_CHARS, SOFT_THRESHOLD, SENTENCE_SEARCH_WINDOW);
      PiecesAre(Strip(text[cut..]));
      var pieces := SoftPieces(text, MAX_CHUNK_CHARS, SOFT_THRESHOLD, SENTENCE_SEARCH_WINDOW);
      assert pieces[1..] == SoftPieces(Strip(text[cut..]), MAX_CHUNK_CHARS, SOFT_THRESHOLD, SENTENCE_SEARCH_WINDOW);
      assert pieces[0] == Strip(text[..cut]);
    }
  }

  /** The chunks of one block: its sentences joined by spaces, whole or in pieces, with all its ink. */
  ghost predicate ChunksOf(block: seq<string>, chunks: seq<string>) {
    var text := Join(" ", block);
    && (|text| <= 1500 ==> chunks == [text])
    && InPieces(text, chunks)
    && Ink(Concat(chunks)) == Ink(Concat(block))
  }

  lemma {:induction false} JoinIsClean(block: seq<string>)
    requires block != [] && AllClean(block)
    ensures var text := Join(" ", block); text != "" && Stripped(text)
    ensures var text := Join(" ", block); text[0] == block[0][0]
  {
    hide IsSpace;
    assert block[0] in block;
    if |block| > 1 {
      assert forall x :: x in block[1..] ==> x in block;
      JoinIsClean(block[1..]);
    }
  }

  lemma BlockChunks(block: seq<string>)
    requires block != [] && AllClean(block)
    ensures BlockText(block) == [Join(" ", block)]
    ensures ChunksOf(block, ChunkPieces(Join(" ", block)))
  {
    hide Strip, SoftPieces, InPieces;
    var text := Join(" ", block);
    JoinIsClean(block);
    StripFacts(text);
    SoftSplitFacts(text, MAX_CHUNK_CHARS, SOFT_THRESHOLD, SENTENCE_SEARCH_WINDOW);
    PiecesAre(text);
    if |text| <= 1500 {
      ShortInPieces(text);
    }
    BlockTextFacts(block);
    ConcatOne(text);
  }

  lemma ShortInPieces(text: string)
    requires text != "" && |text| <= 1500
    ensures InPieces(text, [text])
  {
  }

  /** The chunks are those of the blocks, one after the other. */
  ghost predicate Chunked(blocks: seq<seq<string>>, groups: seq<seq<string>>, chunks: seq<string>) {
    && |groups| == |blocks| && chunks == Flatten(groups)
    && forall i :: 0 <= i < |blocks| ==> ChunksOf(blocks[i], groups[i])
  }

  lemma {:induction false} BlocksChunked(blocks: seq<seq<string>>) returns (groups: seq<seq<string>>)
    requires forall i :: 0 <= i < |blocks| ==> blocks[i] != [] && AllClean(blocks[i])
    ensures Chunked(blocks, groups, FlatMap(ChunkPieces, FlatMap(BlockText, blocks)))
  {
    hide BlockText, ChunkPieces, ChunksOf, AllClean;
    groups := [];
    if blocks != [] {
      var n := |blocks| - 1;
      var text := Join(" ", blocks[n]);
      var before := BlocksChunked(blocks[..n]);
      BlockChunks(blocks[n]);
      groups := before + [ChunkPieces(text)];
      FlatMapSnoc(ChunkPieces, FlatMap(BlockText, blocks[..n]), text);
      assert groups[..n] == before;
    }
  }

  lemma FlatMapSnoc<T, U>(f: T -> seq<U>, xs: seq<T>, x: T)
    ensures FlatMap(f, xs + [x]) == FlatMap(f, xs) + f(x)
  {
    assert (xs + [x])[..|xs|] == xs;
  }

  lemma BlocksAreClean(ss: seq<string>, blocks: seq<seq<string>>)
    requires AllClean(ss) && Flatten(blocks) == ss
    ensures forall i :: 0 <= i < |blocks| ==> AllClean(blocks[i])
  {
    hide Flatten, Stripped;
    forall i, k | 0 <= i < |blocks| && 0 <= k < |blocks[i]| ensures blocks[i][k] in ss {
      FlattenAt(blocks, i, k);
    }
  }

  /**
    For every text and every embedding answer: the sentences lie in blocks, in order, that start at
    the headings, or without headings after the boundaries that are not alone, and the chunks are
    those of the blocks, one after the other, each block's joined by spaces, whole or cut to size.
   */
  lemma ChunksFollowBlocks(text: string, far: Oracle)
    ensures exists blocks, groups ::
      BlocksFit(Sentences(text), far, blocks) && Chunked(blocks, groups, SplitOf(text, far))
  {
    hide Sentences, MergedBlocks, BlockText, ChunkPieces, ChunksOf, BlocksFit;
    var ss := Sentences(text);
    SentencesConserve(text);
    if |ss| <= 1 {
      var blocks := if ss == [] then [] else [ss];
      OneBlockFits(ss, far);
      var groups := BlocksChunked(blocks);
      OneBlockText(text, far);
      assert Chunked(blocks, groups, SplitOf(text, far));
    } else {
      var blocks := MergedBlocks(ss, far);
      MergedBlocksFit(ss, far);
      FitParts(ss, far, blocks);
      BlocksAreClean(ss, blocks);
      var groups := BlocksChunked(blocks);
      SeveralSentences(text, far);
      assert Chunked(blocks, groups, SplitOf(text, far));
    }
  }

  lemma FitParts(ss: seq<string>, far: Oracle, blocks: seq<seq<string>>)
    requires BlocksFit(ss, far, blocks)
    ensures Flatten(blocks) == ss && forall i :: 0 <= i < |blocks| ==> blocks[i] != []
  {
  }

  lemma OneBlockText(text: string, far: Oracle)
    requires |Sentences(text)| <= 1
    ensures var ss := Sentences(text);
      SplitOf(text, far) == FlatMap(ChunkPieces, FlatMap(BlockText, if ss == [] then [] else [ss]))
  {
    hide Sentences, ChunkPieces, Strip;
    var ss := Sentences(text);
    SentencesConserve(text);
    StripFacts(text);
    if ss != [] {
      assert ss == [ss[0]] && ss[0] in ss;
      OneIsNotBlank(text);
      FlatMapOne(BlockText, [ss]);
      BlockChunks(ss);
      FlatMapOne(ChunkPieces, ss);
      PiecesOfCleanChunks(ss);
      assert Join(" ", ss) == ss[0];
    }
  }

  lemma OneIsNotBlank(text: string)
    requires Sentences(text) != []
    ensures !Blank(text)
  {
  }

  lemma SeveralSentences(text: string, far: Oracle)
    requires |Sentences(text)| > 1
    ensures SplitOf(text, far) == FlatMap(ChunkPieces, FlatMap(BlockText, MergedBlocks(Sentences(text), far)))
  {
    hide MergedBlocks, BlockText, ChunkPieces;
    OneIsNotBlank(text);
    BlocksConserve(Sentences(text), far);
    SentencesConserve(text);
    hide Sentences;
    PiecesOfCleanChunks(FlatMap(BlockText, MergedBlocks(Sentences(text), far)));
  }

  // ---- where sentences are cut ----

  /** A heading starts, after any white space, with one to six marks and a white space. */
  lemma HeadingWhen(s: string)
    ensures IsHeading(s) <==>
      exists n :: 1 <= n <= 6 && n < |Strip(s)| && (forall i :: 0 <= i < n ==> Strip(s)[i] == '#') && IsSpace(Strip(s)[n])
  {
    hide Strip;
    var t := Strip(s);
    var a := RunEnd(c => c == '#', t, 0);
    if n :| 1 <= n <= 6 && n < |t| && (forall i :: 0 <= i < n ==> t[i] == '#') && IsSpace(t[n]) {
      assert t[n] != '#';
      assert a == n;
    }
  }

  ghost predicate SeparatesParagraphs(s: string, p: nat, e: nat) {
    && p + 2 <= e <= |s| && (forall i :: p <= i < e ==> s[i] == '\n') && (e < |s| ==> s[e] != '\n')
  }

  /** The white space from `p` to `e` lies between a sentence's end mark and a character that opens one. */
  ghost predicate MeetsOpener(s: string, p: nat, e: nat) {
    && 0 < p < e < |s|
    && (s[p - 1] == '.' || s[p - 1] == '!' || s[p - 1] == '?' || s[p - 1] == '\U{2026}')
    && (forall i :: p <= i < e ==> IsSpace(s[i]))
    && ('A' <= s[e] <= 'Z' || '\U{0410}' <= s[e] <= '\U{042F}' || s[e] == '\U{0401}' || s[e] == '"' || s[e] == '\U{00AB}' || s[e] == '(')
  }

  ghost predicate SeparatesSentences(s: string, p: nat, e: nat) {
    MeetsOpener(s, p, e) || (SeparatesParagraphs(s, p, e) && forall q: nat :: !MeetsOpener(s, p, q))
  }

  lemma ParagraphGapWhen(s: string, p: nat, e: nat)
    requires p <= |s|
    ensures p < e && BlankLines(s, p) == e <==> SeparatesParagraphs(s, p, e)
  {
    if p < |s| {
      var q := RunEnd(c => c == '\n', s, p);
      if SeparatesParagraphs(s, p, e) {
        assert !(q < e);
        assert !(e < q);
      }
    }
  }

  lemma OpenerIsAfterRun(s: string, p: nat, e: nat)
    requires p < |s|
    ensures var q := RunEnd(IsSpace, s, p);
      MeetsOpener(s, p, e) <==> p > 0 && IsEnder(s[p - 1]) && p < q < |s| && IsOpener(s[q]) && e == q
  {
    var q := RunEnd(IsSpace, s, p);
    if MeetsOpener(s, p, e) {
      assert !IsSpace(s[e]);
      assert q == e;
    }
  }

  lemma SentenceGapWhen(s: string, p: nat, e: nat)
    requires p <= |s|
    ensures p < e && SentenceGap(s, p) == e <==> SeparatesSentences(s, p, e)
  {
    if p < |s| {
      hide IsSpace, IsEnder, IsOpener, MeetsOpener, SeparatesParagraphs, BlankLines;
      ParagraphGapWhen(s, p, e);
      forall q: nat ensures MeetsOpener(s, p, q) <==>
        p > 0 && IsEnder(s[p - 1]) && p < RunEnd(IsSpace, s, p) < |s| && IsOpener(s[RunEnd(IsSpace, s, p)]) && q == RunEnd(IsSpace, s, p) {
        OpenerIsAfterRun(s, p, q);
      }
      var r := RunEnd(IsSpace, s, p);
      assert MeetsOpener(s, p, r) <==> p > 0 && IsEnder(s[p - 1]) && p < r < |s| && IsOpener(s[r]);
    }
  }

  /** The pieces of the text from `from` on: cut at the first separator, and again after its end. */
  ghost predicate CutBy(sep: Separator, s: string, from: nat, pieces: seq<string>)
    requires from <= |s|
    decreases |pieces|
  {
    if forall p :: from <= p < |s| ==> !(p < sep(s, p) <= |s|) then pieces == [s[from..]]
    else
      && pieces != []
      && exists p ::
        && from <= p < |s| && p < sep(s, p) <= |s| && (forall i :: from <= i < p ==> !(i < sep(s, i) <= |s|))
        && pieces[0] == s[from..p] && CutBy(sep, s, sep(s, p), pieces[1..])
  }

  lemma {:induction false} SplitByCuts(sep: Separator, s: string, from: nat, p: nat)
    requires from <= p <= |s| && forall i :: from <= i < p ==> !(i < sep(s, i) <= |s|)
    ensures CutBy(sep, s, from, SplitBy(sep, s, from, p))
    decreases |s| - p
  {
    if p < |s| {
      var e := sep(s, p);
      if p < e <= |s| {
        var tail := SplitBy(sep, s, e, e);
        SplitByCuts(sep, s, e, e);
        var pieces := [s[from..p]] + tail;
        assert pieces[1..] == tail && pieces[0] == s[from..p];
      } else {
        SplitByCuts(sep, s, from, p + 1);
      }
    }
  }

  /** A paragraph that is no heading is cut at its sentence separators; what is left of the pieces after stripping are its sentences. */
  lemma ParagraphIsCut(para: string)
    requires !Blank(para) && !IsHeading(para)
    ensures exists pieces ::
      && CutBy(SentenceGap, Strip(para), 0, pieces)
      && ParagraphSentences(para) == Filter((x: string) => x != "", Map(Strip, pieces))
  {
    hide Strip, SentenceGap;
    var pieces := SplitBy(SentenceGap, Strip(para), 0, 0);
    SplitByCuts(SentenceGap, Strip(para), 0, 0);
    CleanedIs(pieces);
  }

  lemma {:induction false} CleanedIs(pieces: seq<string>)
    ensures Cleaned(pieces) == Filter((x: string) => x != "", Map(Strip, pieces))
  {
    if pieces != [] {
      hide Strip;
      var n := |pieces| - 1;
      CleanedIs(pieces[..n]);
      assert Map(Strip, pieces)[..n] == Map(Strip, pieces[..n]);
    }
  }

  // ---- where headings are cut out ----

  /** From `p` to `a` one to six marks, then a white space. */
  ghost predicate MarksTo(s: string, p: nat, a: nat) {
    && 1 <= a - p <= 6 && a < |s| && (forall i :: p <= i < a ==> s[i] == '#') && IsSpace(s[a])
  }

  /** Only white space between `a` and `dot`, and no newline there. */
  ghost predicate AfterSpace(s: string, a: nat, dot: nat) {
    a < dot < |s| && s[dot] != '\n' && forall i :: a <= i < dot ==> IsSpace(s[i])
  }

  /** A heading from `p` to `e`: at the start of a line, to the end of the line of the last character that can be its first. */
  ghost predicate HeadingFrom(s: string, p: nat, e: nat) {
    && (p == 0 || (p <= |s| && s[p - 1] == '\n'))
    && exists a, dot :: MarksTo(s, p, a) && AfterSpace(s, a, dot) && (forall d :: AfterSpace(s, a, d) ==> d <= dot) && EndsLine(s, dot, e)
  }

  ghost predicate EndsLine(s: string, dot: nat, e: nat) {
    dot < e <= |s| && (forall i :: dot <= i < e ==> s[i] != '\n') && (e < |s| ==> s[e] == '\n')
  }

  lemma MarksWhen(s: string, p: nat, a: nat)
    requires p <= |s|
    ensures MarksTo(s, p, a) <==> HashesThenSpace(s, p) == Some(a)
  {
    var r := RunEnd(c => c == '#', s, p);
    if MarksTo(s, p, a) {
      assert s[a] != '#';
      assert a == r;
    }
  }

  /** The first character of the heading's text, as far right as it can be. */
  function DotAt(s: string, a: nat): int
    requires a < |s|
  {
    var q := RunEnd(IsSpace, s, a);
    if q < |s| then q else LastIndex(c => c != '\n', s, a + 1, |s|)
  }

  lemma DotWhen(s: string, a: nat)
    requires a < |s| && IsSpace(s[a])
    ensures DotAt(s, a) == -1 || (DotAt(s, a) > 0 && AfterSpace(s, a, DotAt(s, a)))
    ensures forall d: nat :: AfterSpace(s, a, d) ==> d <= DotAt(s, a)
  {
    var q := RunEnd(IsSpace, s, a);
    assert q > a;
    if q < |s| {
      assert s[q] != '\n' by {
        assert IsSpace('\n');
      }
    }
  }

  lemma LineEndIs(s: string, dot: nat, e: nat)
    requires dot < |s| && s[dot] != '\n'
    ensures EndsLine(s, dot, e) <==> RunEnd(c => c != '\n', s, dot) == e
  {
    var r := RunEnd(c => c != '\n', s, dot);
    if EndsLine(s, dot, e) {
      assert !(r < e);
      assert !(e < r);
    }
  }

  lemma HeadingLineWhen(s: string, p: nat, e: nat)
    requires p <= |s|
    ensures HeadingLineEnd(s, p) == Some(e) <==> HeadingFrom(s, p, e)
  {
    hide IsSpace, MarksTo, AfterSpace, EndsLine, HashesThenSpace;
    forall a: nat ensures MarksTo(s, p, a) <==> HashesThenSpace(s, p) == Some(a) {
      MarksWhen(s, p, a);
    }
    var found := HashesThenSpace(s, p);
    if found.Some? && (p == 0 || s[p - 1] == '\n') {
      var a := found.value;
      MarksEnd(s, p, a);
      DotWhen(s, a);
      if DotAt(s, a) != -1 {
        AfterSpaceParts(s, a, DotAt(s, a));
        LineEndIs(s, DotAt(s, a), e);
      }
    }
  }

  lemma MarksEnd(s: string, p: nat, a: nat)
    requires MarksTo(s, p, a)
    ensures a < |s| && IsSpace(s[a])
  {
    hide IsSpace;
  }

  lemma AfterSpaceParts(s: string, a: nat, dot: nat)
    requires AfterSpace(s, a, dot)
    ensures dot < |s| && s[dot] != '\n'
  {
    hide IsSpace;
  }

  /** The segments of the text from `from` on: what is before the first heading, the heading, and the rest alike. */
  ghost predicate HeadingsCut(s: string, from: nat, segments: seq<string>)
    requires from <= |s|
    decreases |segments|
  {
    if forall p: nat, e: nat :: from <= p < |s| ==> !HeadingFrom(s, p, e) then segments == [s[from..]]
    else
      && |segments| > 1
      && exists p: nat, e: nat ::
        && from <= p < e <= |s| && HeadingFrom(s, p, e) && (forall i: nat, j: nat :: from <= i < p ==> !HeadingFrom(s, i, j))
        && segments[0] == s[from..p] && segments[1] == s[p..e] && HeadingsCut(s, e, segments[2..])
  }

  lemma {:induction false} HeadingSegmentsCut(s: string, from: nat, p: nat)
    requires from <= p <= |s| && forall i: nat, j: nat :: from <= i < p ==> !HeadingFrom(s, i, j)
    ensures HeadingsCut(s, from, HeadingSegments(s, from, p))
    decreases |s| - p
  {
    hide HeadingFrom, HeadingLineEnd;
    if p < |s| {
      forall e: nat ensures HeadingLineEnd(s, p) == Some(e) <==> HeadingFrom(s, p, e) {
        HeadingLineWhen(s, p, e);
      }
      match HeadingLineEnd(s, p)
      case Some(e) =>
        var tail := HeadingSegments(s, e, e);
        HeadingSegmentsCut(s, e, e);
        var segments := [s[from..p], s[p..e]] + tail;
        assert segments[2..] == tail;
        assert segments[0] == s[from..p] && segments[1] == s[p..e];
      case None =>
        HeadingSegmentsCut(s, from, p + 1);
    }
  }

  /** A segment is a heading on one line, or cut at its blank lines into paragraphs. */
  lemma SegmentIsCut(segment: string)
    requires !Blank(segment)
    ensures if IsHeading(segment) && '\n' !in Strip(segment) then SegmentSentences(segment) == [Strip(segment)]
      else exists paras :: CutBy(BlankLines, Strip(segment), 0, paras) && SegmentSentences(segment) == FlatMap(ParagraphSentences, paras)
  {
    hide Strip, BlankLines, ParagraphSentences;
    SplitByCuts(BlankLines, Strip(segment), 0, 0);
  }

  /** The sentences of a text are those of its segments, which are cut out at the headings. */
  lemma TextIsCut(text: string)
    requires !Blank(text)
    ensures exists segments :: HeadingsCut(text, 0, segments) && Sentences(text) == FlatMap(SegmentSentences, segments)
  {
    hide Strip, SegmentSentences;
    HeadingSegmentsCut(text, 0, 0);
  }
}
