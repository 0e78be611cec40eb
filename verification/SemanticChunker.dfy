/**
  The semantic chunker: sentence splitting, semantic blocks, the two merge guards and the
  bounded soft split.  Regular expressions are the small scanners below; the embedding model
  is an arbitrary oracle that says, for a batch of sentences, after which ones the cosine
  distance exceeds the threshold.
 */
module SemanticChunker {
  import opened Wrappers
  import opened Text
  import opened Seqs

  const MIN_CHUNK_SENTENCES := 2
  const MAX_CHUNK_CHARS := 1500
  const SOFT_THRESHOLD := 1000
  const SENTENCE_SEARCH_WINDOW := 300

  /** `far(sentences, i)`: does the embedding answer put a boundary after sentence `i`? */
  type Oracle = (seq<string>, nat) -> bool

  // ---- scanners ----

  predicate IsEnder(c: char) {
    c == '.' || c == '!' || c == '?' || c == '\U{2026}'
  }

  predicate IsOpener(c: char) {
    'A' <= c <= 'Z' || '\U{0410}' <= c <= '\U{042F}' || c == '\U{0401}' || c == '"' || c == '\U{00AB}' || c == '('
  }

  /** The end of the run of characters satisfying `ok` that starts at `p`. */
  function RunEnd(ok: char -> bool, s: string, p: nat): (q: nat)
    requires p <= |s|
    ensures p <= q <= |s|
    ensures forall i :: p <= i < q ==> ok(s[i])
    ensures q < |s| ==> !ok(s[q])
    decreases |s| - p
  {
    if p < |s| && ok(s[p]) then RunEnd(ok, s, p + 1) else p
  }

  /** The last position in `[lo, hi)` whose character satisfies `ok`, or -1 (Python's `rfind`). */
  function LastIndex(ok: char -> bool, s: string, lo: nat, hi: int): (r: int)
    requires hi <= |s|
    ensures r == -1 || (lo <= r < hi && ok(s[r]))
    ensures forall i :: lo <= i < hi && r < i ==> !ok(s[i])
    decreases hi
  {
    if hi <= lo then -1
    else if ok(s[hi - 1]) then hi - 1
    else LastIndex(ok, s, lo, hi - 1)
  }

  /** Where the white space after one to six leading `#` begins, when that is how the text at `p` starts. */
  function HashesThenSpace(s: string, p: nat): (r: Option<nat>)
    requires p <= |s|
    ensures r.Some? ==> p < r.value < |s|
  {
    var a := RunEnd(c => c == '#', s, p);
    if 1 <= a - p <= 6 && a < |s| && IsSpace(s[a]) then Some(a) else None
  }

  /** `^#{1,6}\s+` matched at the start of `s`. */
  predicate StartsAsHeading(s: string) {
    HashesThenSpace(s, 0).Some?
  }

  /** `^#{1,6}\s+.+$` matched, in multi-line mode, at `p`: where the match ends. */
  function HeadingLineEnd(s: string, p: nat): (r: Option<nat>)
    requires p <= |s|
    ensures r.Some? ==> p < r.value <= |s|
  {
    var a := HashesThenSpace(s, p);
    if a.None? || (p > 0 && s[p - 1] != '\n') then None
    else
      var q := RunEnd(IsSpace, s, a.value);
      // `.+` starts after the white space, or, when only white space is left, gets its last character back
      var dot := if q < |s| then q else LastIndex(c => c != '\n', s, a.value + 1, |s|);
      if dot == -1 then None else Some(RunEnd(c => c != '\n', s, dot))
  }

  /** `re.split` by heading lines, the headings kept: the segments of `s[from..]`, scanning at `p`. */
  function HeadingSegments(s: string, from: nat, p: nat): seq<string>
    requires from <= p <= |s|
    decreases |s| - p
  {
    if p == |s| then [s[from..]]
    else
      match HeadingLineEnd(s, p)
      case Some(e) => [s[from..p], s[p..e]] + HeadingSegments(s, e, e)
      case None => HeadingSegments(s, from, p + 1)
  }

  /** A separator that matches at `p` and ends at the result; no match is `p` itself. */
  type Separator = (string, nat) -> nat

  ghost predicate SeparatesBySpace(sep: Separator) {
    forall s: string, p: nat | p <= |s| ::
      p <= sep(s, p) <= |s| && forall i :: p <= i < sep(s, p) ==> IsSpace(s[i])
  }

  /** `re.split` by a separator that is dropped. */
  function SplitBy(sep: Separator, s: string, from: nat, p: nat): seq<string>
    requires from <= p <= |s|
    decreases |s| - p
  {
    if p == |s| then [s[from..]]
    else
      var e := sep(s, p);
      if p < e <= |s| then [s[from..p]] + SplitBy(sep, s, e, e) else SplitBy(sep, s, from, p + 1)
  }

  /** `\n{2,}` */
  function BlankLines(s: string, p: nat): nat {
    if p >= |s| then p
    else
      var q := RunEnd(c => c == '\n', s, p);
      if q >= p + 2 then q else p
  }

  /** `(?<=[.!?…])\s+(?=[A-ZА-ЯЁ"«(])|\n{2,}` */
  function SentenceGap(s: string, p: nat): nat {
    if p >= |s| then p
    else
      var q := RunEnd(IsSpace, s, p);
      if p > 0 && IsEnder(s[p - 1]) && p < q < |s| && IsOpener(s[q]) then q else BlankLines(s, p)
  }

  // ---- sentence splitting ----

  function StripOrDrop(s: string): seq<string> {
    if Strip(s) == [] then [] else [Strip(s)]
  }

  /** Each piece stripped, the empty ones dropped. */
  function Cleaned(xs: seq<string>): seq<string> {
    FlatMap(StripOrDrop, xs)
  }

  function ParagraphSentences(para: string): seq<string> {
    var p := Strip(para);
    if p == [] then []
    else if StartsAsHeading(p) then [p]
    else Cleaned(SplitBy(SentenceGap, p, 0, 0))
  }

  function SegmentSentences(seg: string): seq<string> {
    var g := Strip(seg);
    if g == [] then []
    else if StartsAsHeading(g) && '\n' !in g then [g]
    else FlatMap(ParagraphSentences, SplitBy(BlankLines, g, 0, 0))
  }

  function Sentences(text: string): seq<string> {
    if Blank(text) then [] else FlatMap(SegmentSentences, HeadingSegments(text, 0, 0))
  }

  method SplitParagraph(paragraph: string) returns (parts: seq<string>)
    ensures parts == ParagraphSentences(paragraph)
  {
    var para := Strip(paragraph);
    if para == [] {
      return [];
    }
    if StartsAsHeading(para) {
      return [para];
    }
    parts := [];
    var sents := SplitBy(SentenceGap, para, 0, 0);
    for k := 0 to |sents|
      invariant parts == Cleaned(sents[..k])
    {
      PrefixStep(sents, k);
      var s := Strip(sents[k]);
      if s != [] {
        parts := parts + [s];
      }
    }
    assert sents[..|sents|] == sents;
  }

  method SplitSegment(segment: string) returns (parts: seq<string>)
    ensures parts == SegmentSentences(segment)
  {
    var seg := Strip(segment);
    if seg == [] {
      return [];
    }
    if StartsAsHeading(seg) && '\n' !in seg {
      return [seg];
    }
    parts := [];
    var paras := SplitBy(BlankLines, seg, 0, 0);
    for j := 0 to |paras|
      invariant parts == FlatMap(ParagraphSentences, paras[..j])
    {
      PrefixStep(paras, j);
      var sents := SplitParagraph(paras[j]);
      parts := parts + sents;
    }
    assert paras[..|paras|] == paras;
  }

  method SplitSentences(text: string) returns (parts: seq<string>)
    ensures parts == Sentences(text)
  {
    if Blank(text) {
      return [];
    }
    parts := [];
    var segments := HeadingSegments(text, 0, 0);
    for i := 0 to |segments|
      invariant parts == FlatMap(SegmentSentences, segments[..i])
    {
      PrefixStep(segments, i);
      var sents := SplitSegment(segments[i]);
      parts := parts + sents;
    }
    assert segments[..|segments|] == segments;
  }

  // ---- the bounded soft split ----

  predicate IsBlank(c: char) {
    c == ' '
  }

  /** The search window around the soft threshold, as `finditer(text, start, end)` clips it. */
  function WindowStart(soft: int, window: int): nat {
    if soft - window < 0 then 0 else soft - window
  }

  function WindowEnd(max: int, soft: int, window: int): int {
    if soft + window < max then soft + window else max
  }

  /** Does a sentence end at `i`, for a search that cannot see past `end`? */
  predicate SentenceEndsAt(text: string, end: int, i: int) {
    0 <= i < |text| && IsEnder(text[i]) && (i + 1 == end || (i + 1 < |text| && IsSpace(text[i + 1])))
  }

  /** The last sentence end in `[start, hi)` for a search that stops at `end`, or -1. */
  function LastStop(text: string, start: nat, hi: int, end: int): (r: int)
    ensures r == -1 || (start <= r < hi && SentenceEndsAt(text, end, r))
    ensures forall i :: start <= i < hi && r < i ==> !SentenceEndsAt(text, end, i)
    decreases hi
  {
    if hi <= start then -1
    else if SentenceEndsAt(text, end, hi - 1) then hi - 1
    else LastStop(text, start, hi - 1, end)
  }

  /** Where a text longer than `max` is cut. */
  function Cut(text: string, max: int, soft: int, window: int): (cut: int)
    requires 1 <= max < |text|
    ensures 0 <= cut <= max
    ensures cut == 0 ==> text[0] == ' '
  {
    var end := WindowEnd(max, soft, window);
    var stop := LastStop(text, WindowStart(soft, window), end, end);
    if stop != -1 then stop + 1
    else
      var space := LastIndex(IsBlank, text, 0, max);
      if space != -1 then space else max
  }

  lemma CutShrinks(text: string, cut: nat)
    requires cut <= |text| && text != []
    requires cut == 0 ==> IsSpace(text[0])
    ensures |Strip(text[cut..])| < |text|
  {
    if cut == 0 {
      assert text[0..] == text;
      LStripFacts(text);
      RStripFacts(LStrip(text));
    } else {
      StripFacts(text[cut..]);
    }
  }

  function SoftPieces(text: string, max: int, soft: int, window: int): seq<string>
    requires max >= 1
    decreases |text|
  {
    if |text| > max then
      var cut := Cut(text, max, soft, window);
      CutShrinks(text, cut);
      [Strip(text[..cut])] + SoftPieces(Strip(text[cut..]), max, soft, window)
    else if text != [] then [text]
    else []
  }

  function SoftSplitOf(text: string, max: int, soft: int, window: int): seq<string>
    requires max >= 1
  {
    if |text| <= max then [text] else SoftPieces(text, max, soft, window)
  }

  /** The loop over the matches: where the last sentence end in the window stops, or -1. */
  method LastSentenceEnd(text: string, start: nat, end: int) returns (splitAt: int)
    ensures splitAt == if LastStop(text, start, end, end) == -1 then -1 else LastStop(text, start, end, end) + 1
  {
    splitAt := -1;
    var i := start;
    while i < end
      invariant start <= i
      invariant i <= end || i == start
      invariant splitAt == -1 || (start < splitAt <= i && SentenceEndsAt(text, end, splitAt - 1))
      invariant forall j :: start <= j < i && splitAt <= j ==> !SentenceEndsAt(text, end, j)
    {
      if SentenceEndsAt(text, end, i) {
        splitAt := i + 1;
      }
      i := i + 1;
    }
  }

  /** One turn of the loop. */
  method NextCut(text: string, max: int, soft: int, window: int) returns (splitAt: int)
    requires 1 <= max < |text|
    ensures splitAt == Cut(text, max, soft, window)
  {
    splitAt := LastSentenceEnd(text, WindowStart(soft, window), WindowEnd(max, soft, window));
    if splitAt == -1 {
      splitAt := LastIndex(IsBlank, text, 0, max);
    }
    if splitAt == -1 {
      splitAt := max;
    }
  }

  lemma PiecesStep(text: string, max: int, soft: int, window: int)
    requires 1 <= max < |text|
    ensures var cut := Cut(text, max, soft, window);
      && |Strip(text[cut..])| < |text|
      && SoftPieces(text, max, soft, window) == [Strip(text[..cut])] + SoftPieces(Strip(text[cut..]), max, soft, window)
  {
    CutShrinks(text, Cut(text, max, soft, window));
  }

  method SoftSplit(source: string, max: int, soft: int, window: int) returns (chunks: seq<string>)
    requires max >= 1
    ensures chunks == SoftSplitOf(source, max, soft, window)
  {
    if |source| <= max {
      return [source];
    }
    chunks := [];
    var text := source;
    ghost var all := SoftPieces(source, max, soft, window);
    while |text| > max
      invariant chunks + SoftPieces(text, max, soft, window) == all
      decreases |text|
    {
      var splitAt := NextCut(text, max, soft, window);
      PiecesStep(text, max, soft, window);
      chunks := chunks + [Strip(text[..splitAt])];
      text := Strip(text[splitAt..]);
    }
    if text != [] {
      chunks := chunks + [text];
    }
  }

  // ---- blocks ----

  predicate IsHeading(sentence: string) {
    StartsAsHeading(Strip(sentence))
  }

  /** Is there a break after sentence `i`? */
  predicate BreakAfter(sentences: seq<string>, far: Oracle, i: nat) {
    (i + 1 < |sentences| && far(sentences, i)) || (i + 1 < |sentences| && IsHeading(sentences[i + 1]))
  }

  function Breaks(sentences: seq<string>, far: Oracle): (b: seq<bool>)
    ensures |b| == |sentences|
  {
    seq(|sentences|, i requires 0 <= i < |sentences| => BreakAfter(sentences, far, i))
  }

  datatype Blocks = Blocks(closed: seq<seq<string>>, current: seq<string>) {
    function All(): seq<seq<string>> {
      if current == [] then closed else closed + [current]
    }
  }

  /** The blocks after the first `n` sentences. */
  function RawBlocks(sentences: seq<string>, breaks: seq<bool>, n: nat): Blocks
    requires n <= |sentences| == |breaks|
  {
    if n == 0 then Blocks([], [])
    else
      var b := RawBlocks(sentences, breaks, n - 1);
      var current := b.current + [sentences[n - 1]];
      if breaks[n - 1] then Blocks(b.closed + [current], []) else Blocks(b.closed, current)
  }

  /** `result[-1].extend(block)` */
  function ExtendLast(result: seq<seq<string>>, block: seq<string>): seq<seq<string>>
    requires result != []
  {
    result[..|result| - 1] + [result[|result| - 1] + block]
  }

  /** Blocks join the section before them unless they open with a heading; `heading` says what is one. */
  function HeadingGuard(heading: string -> bool, blocks: seq<seq<string>>): (r: seq<seq<string>>)
    ensures blocks != [] ==> r != []
  {
    if blocks == [] then []
    else
      var result := HeadingGuard(heading, blocks[..|blocks| - 1]);
      var block := blocks[|blocks| - 1];
      if (block != [] && heading(block[0])) || result == [] then result + [block]
      else ExtendLast(result, block)
  }

  function MinGuard(blocks: seq<seq<string>>, min: int): (r: seq<seq<string>>)
    ensures blocks != [] ==> r != []
  {
    if blocks == [] then []
    else
      var result := MinGuard(blocks[..|blocks| - 1], min);
      var block := blocks[|blocks| - 1];
      if |block| < min && result != [] then ExtendLast(result, block) else result + [block]
  }

  method ApplyHeadingGuard(blocks: seq<seq<string>>) returns (result: seq<seq<string>>)
    ensures result == HeadingGuard(IsHeading, blocks)
  {
    result := [];
    for i := 0 to |blocks|
      invariant result == HeadingGuard(IsHeading, blocks[..i])
    {
      PrefixStep(blocks, i);
      var block := blocks[i];
      if block != [] && IsHeading(block[0]) {
        result := result + [block];
      } else {
        if result != [] {
          result := ExtendLast(result, block);
        } else {
          result := result + [block];
        }
      }
    }
    assert blocks[..|blocks|] == blocks;
  }

  method ApplyMinGuard(blocks: seq<seq<string>>, min: int) returns (result: seq<seq<string>>)
    ensures result == MinGuard(blocks, min)
  {
    result := [];
    for i := 0 to |blocks|
      invariant result == MinGuard(blocks[..i], min)
    {
      PrefixStep(blocks, i);
      var block := blocks[i];
      if |block| < min && result != [] {
        result := ExtendLast(result, block);
      } else {
        result := result + [block];
      }
    }
    assert blocks[..|blocks|] == blocks;
  }

  // ---- split ----

  predicate HasHeading(sentences: seq<string>) {
    exists i :: 0 <= i < |sentences| && IsHeading(sentences[i])
  }

  /** The merged blocks of a document of several sentences. */
  function MergedBlocks(sentences: seq<string>, far: Oracle): seq<seq<string>> {
    var raw := RawBlocks(sentences, Breaks(sentences, far), |sentences|).All();
    if HasHeading(sentences) then HeadingGuard(IsHeading, raw) else MinGuard(raw, MIN_CHUNK_SENTENCES)
  }

  function BlockText(block: seq<string>): seq<string> {
    StripOrDrop(Join(" ", block))
  }

  function ChunkPieces(chunk: string): seq<string> {
    SoftSplitOf(chunk, MAX_CHUNK_CHARS, SOFT_THRESHOLD, SENTENCE_SEARCH_WINDOW)
  }

  function NotBlank(chunks: seq<string>): seq<string> {
    Filter(c => !Blank(c), chunks)
  }

  function SplitOf(text: string, far: Oracle): seq<string> {
    var sentences := Sentences(text);
    if Blank(text) || sentences == [] then []
    else if |sentences| == 1 then NotBlank(ChunkPieces(sentences[0]))
    else NotBlank(FlatMap(ChunkPieces, FlatMap(BlockText, MergedBlocks(sentences, far))))
  }

  method Split(text: string, far: Oracle) returns (result: seq<string>)
    ensures result == SplitOf(text, far)
  {
    if Blank(text) {
      return [];
    }
    var sentences := SplitSentences(text);
    if sentences == [] {
      return [];
    }
    if |sentences| == 1 {
      var chunks := SoftSplit(sentences[0], MAX_CHUNK_CHARS, SOFT_THRESHOLD, SENTENCE_SEARCH_WINDOW);
      return NotBlank(chunks);
    }
    var breakAfter := MarkBreaks(sentences, far);
    var rawBlocks := CollectBlocks(sentences, breakAfter);
    var mergedBlocks;
    if HasHeading(sentences) {
      mergedBlocks := ApplyHeadingGuard(rawBlocks);
    } else {
      mergedBlocks := ApplyMinGuard(rawBlocks, MIN_CHUNK_SENTENCES);
    }
    var rawChunks := BlockTexts(mergedBlocks);
    var finalChunks := SplitLong(rawChunks);
    result := NotBlank(finalChunks);
  }

  method BlockTexts(blocks: seq<seq<string>>) returns (rawChunks: seq<string>)
    ensures rawChunks == FlatMap(BlockText, blocks)
  {
    rawChunks := [];
    for i := 0 to |blocks|
      invariant rawChunks == FlatMap(BlockText, blocks[..i])
    {
      PrefixStep(blocks, i);
      var chunkText := Strip(Join(" ", blocks[i]));
      if chunkText != [] {
        rawChunks := rawChunks + [chunkText];
      }
    }
    assert blocks[..|blocks|] == blocks;
  }

  method SplitLong(rawChunks: seq<string>) returns (finalChunks: seq<string>)
    ensures finalChunks == FlatMap(ChunkPieces, rawChunks)
  {
    finalChunks := [];
    for i := 0 to |rawChunks|
      invariant finalChunks == FlatMap(ChunkPieces, rawChunks[..i])
    {
      PrefixStep(rawChunks, i);
      var pieces := SoftSplit(rawChunks[i], MAX_CHUNK_CHARS, SOFT_THRESHOLD, SENTENCE_SEARCH_WINDOW);
      finalChunks := finalChunks + pieces;
    }
    assert rawChunks[..|rawChunks|] == rawChunks;
  }

  /** The break array: set where the distance exceeds the threshold, and before every heading. */
  method MarkBreaks(sentences: seq<string>, far: Oracle) returns (breakAfter: array<bool>)
    ensures fresh(breakAfter) && breakAfter[..] == Breaks(sentences, far)
  {
    var n := |sentences|;
    breakAfter := new bool[n](_ => false);
    for i := 0 to if n == 0 then 0 else n - 1
      invariant forall j :: 0 <= j < n ==> breakAfter[j] == (j < i && j + 1 < n && far(sentences, j))
    {
      if far(sentences, i) {
        breakAfter[i] := true;
      }
    }
    for i := 0 to n
      invariant forall j :: 0 <= j < n ==>
        breakAfter[j] == ((j + 1 < n && far(sentences, j)) || (j + 1 < i && IsHeading(sentences[j + 1])))
    {
      if IsHeading(sentences[i]) && i > 0 {
        breakAfter[i - 1] := true;
      }
    }
  }

  method CollectBlocks(sentences: seq<string>, breakAfter: array<bool>) returns (rawBlocks: seq<seq<string>>)
    requires breakAfter.Length == |sentences|
    ensures rawBlocks == RawBlocks(sentences, breakAfter[..], |sentences|).All()
  {
    rawBlocks := [];
    var current := [];
    for i := 0 to |sentences|
      invariant RawBlocks(sentences, breakAfter[..], i) == Blocks(rawBlocks, current)
    {
      current := current + [sentences[i]];
      if breakAfter[i] {
        rawBlocks := rawBlocks + [current];
        current := [];
      }
    }
    if current != [] {
      rawBlocks := rawBlocks + [current];
    }
  }
}
