/** Splitting a PDF into page batches, and merging the elements of batches that complete in any order. */
module PdfBatches {
  import opened Wrappers
  import opened Seqs
  import opened Sorting

  const MIN_BATCH_SIZE: nat := 8
  const MAX_BATCH_SIZE: nat := 30

  /** First and last page, counted from 1. */
  datatype Batch = Batch(first: nat, last: nat)

  /** Workers allowed by the setting and by the machine. */
  function TargetWorkers(maxWorkers: nat, cpuCount: nat): nat {
    if maxWorkers <= cpuCount then maxWorkers else cpuCount
  }

  /** `ceil(pages / workers)`, clamped. */
  function BatchSize(totalPages: nat, workers: nat): nat
    requires workers > 0
  {
    var raw := (totalPages + workers - 1) / workers;
    if raw < MIN_BATCH_SIZE then MIN_BATCH_SIZE else if raw > MAX_BATCH_SIZE then MAX_BATCH_SIZE else raw
  }

  /** The batches cover pages 1 to `total` in order, each of `size` pages but the last, which may be shorter. */
  ghost predicate Tiles(batches: seq<Batch>, total: nat, size: nat) {
    && (batches == [] <==> total == 0)
    && (forall i :: 0 <= i < |batches| ==> batches[i].first <= batches[i].last && batches[i].last - batches[i].first < size)
    && (forall i :: 0 <= i < |batches| ==> batches[i].first == if i == 0 then 1 else batches[i - 1].last + 1)
    && (forall i :: 0 <= i < |batches| - 1 ==> batches[i].last - batches[i].first + 1 == size)
    && (batches != [] ==> batches[|batches| - 1].last == total)
  }

  /** `_make_batches`: no more batches than workers exactly when the largest batches suffice. */
  method MakeBatches(totalPages: nat, maxWorkers: nat, cpuCount: nat) returns (batches: seq<Batch>)
    requires maxWorkers > 0 && cpuCount > 0
    ensures Tiles(batches, totalPages, BatchSize(totalPages, TargetWorkers(maxWorkers, cpuCount)))
    ensures |batches| <= TargetWorkers(maxWorkers, cpuCount) <==> totalPages <= MAX_BATCH_SIZE * TargetWorkers(maxWorkers, cpuCount)
  {
    hide BatchSize;
    var workers := TargetWorkers(maxWorkers, cpuCount);
    SizeIsPositive(totalPages, workers);
    var size := BatchSize(totalPages, workers);
    batches := [];
    var page := 1;
    while page <= totalPages
      invariant 1 <= page <= totalPages + 1
      invariant Tiles(batches, page - 1, size)
      invariant page <= totalPages ==> page - 1 == |batches| * size
      invariant batches != [] ==> (|batches| - 1) * size < page - 1 <= |batches| * size
      invariant forall i :: 0 <= i < |batches| && page <= totalPages ==> batches[i].last - batches[i].first + 1 == size
    {
      var last := if page + size - 1 <= totalPages then page + size - 1 else totalPages;
      assert (|batches| + 1) * size == |batches| * size + size;
      batches := batches + [Batch(page, last)];
      page := last + 1;
    }
    CountOfBatches(|batches|, size, totalPages, workers);
  }

  lemma SizeIsPositive(totalPages: nat, workers: nat)
    requires workers > 0
    ensures BatchSize(totalPages, workers) > 0
  {
  }

  lemma MulMonotone(a: nat, b: nat, c: nat)
    requires a <= b
    ensures a * c <= b * c
  {
  }

  lemma CeilFacts(total: nat, workers: nat)
    requires workers > 0
    ensures var raw := (total + workers - 1) / workers; raw * workers >= total && (total > 0 ==> (raw - 1) * workers < total)
  {
    var raw := (total + workers - 1) / workers;
    assert raw * workers <= total + workers - 1 < raw * workers + workers;
    assert (raw - 1) * workers == raw * workers - workers;
  }

  /** The size is the least that the workers can finish in one round, but at least 8 and at most 30 pages. */
  lemma SizeIs(totalPages: nat, maxWorkers: nat, cpuCount: nat)
    requires maxWorkers > 0 && cpuCount > 0
    ensures var workers, size := TargetWorkers(maxWorkers, cpuCount), BatchSize(totalPages, TargetWorkers(maxWorkers, cpuCount));
      && 0 < workers <= maxWorkers && workers <= cpuCount && (workers == maxWorkers || workers == cpuCount)
      && 8 <= size <= 30
      && (size < 30 ==> size * workers >= totalPages)
      && (size > 8 ==> (size - 1) * workers < totalPages)
  {
    var workers := TargetWorkers(maxWorkers, cpuCount);
    var raw := (totalPages + workers - 1) / workers;
    CeilFacts(totalPages, workers);
    var size := BatchSize(totalPages, workers);
    if size < 30 {
      MulMonotone(raw, size, workers);
    }
    if size > 8 {
      MulMonotone(size - 1, raw - 1, workers);
    }
  }

  lemma CountOfBatches(n: nat, size: nat, total: nat, workers: nat)
    requires workers > 0 && size == BatchSize(total, workers)
    requires n == 0 <==> total == 0
    requires n > 0 ==> (n - 1) * size < total <= n * size
    ensures n <= workers <==> total <= MAX_BATCH_SIZE * workers
  {
    var raw := (total + workers - 1) / workers;
    CeilFacts(total, workers);
    if total <= MAX_BATCH_SIZE * workers {
      if raw > MAX_BATCH_SIZE {
        MulMonotone(MAX_BATCH_SIZE, raw - 1, workers);
      }
      assert size >= raw;
      MulMonotone(raw, size, workers);
      if n > workers {
        MulMonotone(workers, n - 1, size);
      }
    } else {
      if raw <= MAX_BATCH_SIZE {
        MulMonotone(raw, MAX_BATCH_SIZE, workers);
      }
      assert size == MAX_BATCH_SIZE;
      if n <= workers {
        MulMonotone(n, workers, size);
      }
    }
  }

  // ---- merging ----

  /** An element of a page; the rest of it does not matter to the order. */
  datatype Element = Element(page: int, y0: real, category: string, text: string)

  predicate AtOrAbove(a: Element, b: Element) {
    a.page < b.page || (a.page == b.page && a.y0 <= b.y0)
  }

  /** The elements of each batch, or None when its worker failed. */
  type Results = seq<Option<seq<Element>>>

  function Extracted(results: Results, i: nat): seq<Element> {
    if i < |results| && results[i].Some? then results[i].value else []
  }

  /** The elements in order of completion. */
  function Collected(results: Results, order: seq<nat>): seq<Element> {
    if order == [] then []
    else Collected(results, order[..|order| - 1]) + Extracted(results, order[|order| - 1])
  }

  function Merged(results: Results, order: seq<nat>): seq<Element> {
    SortBy(AtOrAbove, Collected(results, order))
  }

  /** The collecting loop and the sort of `_parse_parallel`. */
  method MergeAsCompleted(results: Results, order: seq<nat>) returns (elements: seq<Element>)
    ensures elements == Merged(results, order)
  {
    elements := [];
    for i := 0 to |order|
      invariant elements == Collected(results, order[..i])
    {
      PrefixStep(order, i);
      if order[i] < |results| && results[order[i]].Some? {
        elements := elements + results[order[i]].value;
      } else {
        assert elements + [] == elements;
      }
    }
    assert order[..|order|] == order;
    elements := SortBy(AtOrAbove, elements);
  }

  /** Each batch sorted by itself, one after the other. */
  function InPageOrder(results: Results): seq<Element> {
    if results == [] then []
    else
      var n := |results| - 1;
      InPageOrder(results[..n]) + SortBy(AtOrAbove, if results[n].Some? then results[n].value else [])
  }

  /** The elements of a batch lie on its pages. */
  ghost predicate InRange(batches: seq<Batch>, results: Results) {
    && |results| == |batches|
    && forall i :: 0 <= i < |results| && results[i].Some? ==> OnPages(batches[i], results[i].value)
  }

  ghost predicate OnPages(b: Batch, elements: seq<Element>) {
    forall j :: 0 <= j < |elements| ==> b.first <= elements[j].page <= b.last
  }

  /** The pages of a batch come before those of the next ones. */
  ghost predicate Ascending(batches: seq<Batch>) {
    forall i, j :: 0 <= i < j < |batches| ==> batches[i].last < batches[j].first
  }

  lemma {:induction false} TilesAscend(batches: seq<Batch>, total: nat, size: nat)
    requires Tiles(batches, total, size)
    ensures Ascending(batches)
  {
    forall i, j | 0 <= i < j < |batches| ensures batches[i].last < batches[j].first {
      TileAfter(batches, total, size, i, j);
    }
  }

  lemma {:induction false} TileAfter(batches: seq<Batch>, total: nat, size: nat, i: nat, j: nat)
    requires Tiles(batches, total, size) && i < j < |batches|
    ensures batches[i].last < batches[j].first
    decreases j
  {
    if i < j - 1 {
      TileAfter(batches, total, size, i, j - 1);
    }
  }

  lemma PositionIsTotalPreorder()
    ensures TotalPreorder(AtOrAbove)
  {
  }

  /** Every batch completes, once. */
  ghost predicate EachOnce(order: seq<nat>, n: nat) {
    && Distinct(order)
    && (forall i :: 0 <= i < |order| ==> order[i] < n)
    && (forall b: nat :: b < n ==> b in order)
  }

  lemma AlikeNothing(k: Element)
    ensures Alike(AtOrAbove, k, []) == []
  {
  }

  lemma {:induction false} AlikeConcat(k: Element, a: seq<Element>, b: seq<Element>)
    ensures Alike(AtOrAbove, k, a + b) == Alike(AtOrAbove, k, a) + Alike(AtOrAbove, k, b)
  {
    hide Alike, AtOrAbove;
    if a == [] {
      AlikeNothing(k);
      assert a + b == b;
    } else {
      AlikeConcat(k, a[1..], b);
      AlikeCons(AtOrAbove, k, a[0], a[1..]);
      AlikeCons(AtOrAbove, k, a[0], a[1..] + b);
      assert a == [a[0]] + a[1..] && a + b == [a[0]] + (a[1..] + b);
    }
  }

  lemma {:induction false} AlikeElsewhere(k: Element, s: seq<Element>)
    requires forall j :: 0 <= j < |s| ==> s[j].page != k.page
    ensures Alike(AtOrAbove, k, s) == []
  {
    if s != [] {
      AlikeElsewhere(k, s[1..]);
    }
  }

  /** The batch a page belongs to. */
  ghost predicate HasPage(b: Batch, page: int) {
    b.first <= page <= b.last
  }

  lemma ExtractedElsewhere(batches: seq<Batch>, results: Results, i: nat, k: Element)
    requires InRange(batches, results) && i < |batches| && !HasPage(batches[i], k.page)
    ensures Alike(AtOrAbove, k, Extracted(results, i)) == []
  {
    AlikeElsewhere(k, Extracted(results, i));
  }

  /** Elements level with `k` come from one batch, wherever it stands in the order. */
  lemma {:induction false} CollectedAlike(batches: seq<Batch>, results: Results, order: seq<nat>, k: Element, b: nat)
    requires InRange(batches, results) && Ascending(batches) && Distinct(order)
    requires forall i :: 0 <= i < |order| ==> order[i] < |batches|
    requires b < |batches| && HasPage(batches[b], k.page)
    ensures Alike(AtOrAbove, k, Collected(results, order)) == if b in order then Alike(AtOrAbove, k, Extracted(results, b)) else []
  {
    hide Alike, AtOrAbove, InRange, Extracted;
    if order == [] {
      NoneAlike(k);
    } else {
      var n := |order| - 1;
      var init, last := order[..n], order[n];
      assert order == init + [last];
      CollectedAlike(batches, results, init, k, b);
      AlikeConcat(k, Collected(results, init), Extracted(results, last));
      if last == b {
        assert b !in init;
        assert [] + Alike(AtOrAbove, k, Extracted(results, b)) == Alike(AtOrAbove, k, Extracted(results, b));
      } else {
        assert last < b ==> batches[last].last < batches[b].first;
        assert b < last ==> batches[b].last < batches[last].first;
        ExtractedElsewhere(batches, results, last, k);
        assert b in order <==> b in init;
      }
    }
  }

  lemma NoneAlike(k: Element)
    ensures Alike(AtOrAbove, k, []) == []
  {
  }

  lemma {:induction false} CollectedNowhere(batches: seq<Batch>, results: Results, order: seq<nat>, k: Element)
    requires InRange(batches, results)
    requires forall i :: 0 <= i < |order| ==> order[i] < |batches|
    requires forall b :: 0 <= b < |batches| ==> !HasPage(batches[b], k.page)
    ensures Alike(AtOrAbove, k, Collected(results, order)) == []
  {
    hide Alike, AtOrAbove, InRange, Extracted;
    if order == [] {
      NoneAlike(k);
    } else {
      var n := |order| - 1;
      CollectedNowhere(batches, results, order[..n], k);
      AlikeConcat(k, Collected(results, order[..n]), Extracted(results, order[n]));
      ExtractedElsewhere(batches, results, order[n], k);
    }
  }

  /** The elements merged are the same sequence for every order of completion. */
  lemma CompletionOrderIsIrrelevant(batches: seq<Batch>, results: Results, a: seq<nat>, b: seq<nat>)
    requires InRange(batches, results) && Ascending(batches)
    requires EachOnce(a, |batches|) && EachOnce(b, |batches|)
    ensures Merged(results, a) == Merged(results, b)
  {
    hide AtOrAbove, Alike, Collected, InRange, Ascending, HasPage;
    PositionIsTotalPreorder();
    forall k ensures Alike(AtOrAbove, k, Collected(results, a)) == Alike(AtOrAbove, k, Collected(results, b)) {
      if i: nat :| i < |batches| && HasPage(batches[i], k.page) {
        CollectedAlike(batches, results, a, k, i);
        CollectedAlike(batches, results, b, k, i);
      } else {
        CollectedNowhere(batches, results, a, k);
        CollectedNowhere(batches, results, b, k);
      }
    }
    SortByDetermined(AtOrAbove, Collected(results, a), Collected(results, b));
  }

  // ---- the order that results ----

  function Upto(n: nat): seq<nat> {
    if n == 0 then [] else Upto(n - 1) + [n - 1]
  }

  lemma {:induction false} UptoFacts(n: nat)
    ensures |Upto(n)| == n && forall i :: 0 <= i < n ==> Upto(n)[i] == i
  {
    if n > 0 {
      UptoFacts(n - 1);
    }
  }

  lemma {:induction false} CollectedPrefix(results: Results, more: Results, n: nat)
    requires n <= |results|
    ensures Collected(results + more, Upto(n)) == Collected(results, Upto(n))
  {
    if n > 0 {
      CollectedPrefix(results, more, n - 1);
      assert Upto(n)[..n - 1] == Upto(n - 1) by {
        UptoFacts(n - 1);
      }
      UptoFacts(n);
    }
  }

  lemma {:induction false} SortByAbove(a: seq<Element>, b: seq<Element>)
    requires forall x, y :: x in a && y in b ==> x.page < y.page
    ensures SortBy(AtOrAbove, a + b) == SortBy(AtOrAbove, a) + SortBy(AtOrAbove, b)
  {
    if a == [] {
      assert a + b == b;
    } else {
      assert (a + b)[1..] == a[1..] + b && (a + b)[0] == a[0];
      SortByAbove(a[1..], b);
      var tail := SortBy(AtOrAbove, b);
      forall y | y in tail ensures a[0].page < y.page {
        InMultiset(tail, b, y);
      }
      InsertBefore(a[0], SortBy(AtOrAbove, a[1..]), tail);
    }
  }

  lemma {:induction false} InsertBefore(x: Element, s: seq<Element>, tail: seq<Element>)
    requires forall y :: y in tail ==> x.page < y.page
    ensures Insert(AtOrAbove, x, s + tail) == Insert(AtOrAbove, x, s) + tail
  {
    if s == [] {
      assert s + tail == tail;
      assert tail != [] ==> tail[0] in tail;
      assert [x] + tail == Insert(AtOrAbove, x, tail);
    } else {
      assert (s + tail)[1..] == s[1..] + tail;
      if !AtOrAbove(x, s[0]) {
        InsertBefore(x, s[1..], tail);
      }
    }
  }

  lemma {:induction false} CollectedMember(results: Results, order: seq<nat>, x: Element)
    ensures x in Collected(results, order) ==> exists i :: 0 <= i < |order| && x in Extracted(results, order[i])
  {
    if order != [] && x in Collected(results, order) {
      var n := |order| - 1;
      CollectedMember(results, order[..n], x);
      if x in Collected(results, order[..n]) {
        var i :| 0 <= i < n && x in Extracted(results, order[..n][i]);
        assert x in Extracted(results, order[i]);
      }
    }
  }

  /** Whatever the order of completion, the result is every batch sorted by itself, one after the other. */
  lemma MergeIsInPageOrder(batches: seq<Batch>, results: Results, order: seq<nat>)
    requires InRange(batches, results) && Ascending(batches) && EachOnce(order, |batches|)
    ensures Merged(results, order) == InPageOrder(results)
  {
    hide AtOrAbove;
    var n := |batches|;
    UptoFacts(n);
    forall b: nat | b < n ensures b in Upto(n) {
      assert Upto(n)[b] == b;
    }
    CompletionOrderIsIrrelevant(batches, results, order, Upto(n));
    SequentialMerge(batches, results);
  }

  /** The elements of all batches that did not fail. */
  function AllElements(results: Results): seq<Element> {
    if results == [] then []
    else
      var n := |results| - 1;
      AllElements(results[..n]) + if results[n].Some? then results[n].value else []
  }

  lemma {:induction false} PageOrderHoldsAll(results: Results)
    ensures multiset(InPageOrder(results)) == multiset(AllElements(results))
  {
    if results != [] {
      PageOrderHoldsAll(results[..|results| - 1]);
    }
  }

  /** The merged elements are all of the batches', by page, then by height. */
  lemma MergedReads(batches: seq<Batch>, results: Results, order: seq<nat>)
    requires InRange(batches, results) && Ascending(batches) && EachOnce(order, |batches|)
    ensures multiset(Merged(results, order)) == multiset(AllElements(results))
    ensures var m := Merged(results, order);
      forall i, j :: 0 <= i < j < |m| ==> m[i].page < m[j].page || (m[i].page == m[j].page && m[i].y0 <= m[j].y0)
  {
    hide InRange, Ascending, EachOnce, SortBy, Collected, InPageOrder;
    MergeIsInPageOrder(batches, results, order);
    PageOrderHoldsAll(results);
    SortBySorted(AtOrAbove, Collected(results, order));
    var m := Merged(results, order);
    forall i, j | 0 <= i < j < |m| ensures m[i].page < m[j].page || (m[i].page == m[j].page && m[i].y0 <= m[j].y0) {
      assert AtOrAbove(m[i], m[j]);
    }
  }

  lemma EarlierPages(batches: seq<Batch>, results: Results, n: nat)
    requires InRange(batches, results) && Ascending(batches) && n + 1 == |results|
    ensures forall x, y :: x in Collected(results[..n], Upto(n)) && y in Extracted(results, n) ==> x.page < y.page
  {
    var init, last := results[..n], Extracted(results, n);
    UptoFacts(n);
    forall x, y | x in Collected(init, Upto(n)) && y in last ensures x.page < y.page {
      CollectedMember(init, Upto(n), x);
      var i :| 0 <= i < n && x in Extracted(init, Upto(n)[i]);
      assert OnPages(batches[i], results[i].value) && OnPages(batches[n], results[n].value);
    }
  }

  lemma {:induction false} SequentialMerge(batches: seq<Batch>, results: Results)
    requires InRange(batches, results) && Ascending(batches)
    ensures Merged(results, Upto(|results|)) == InPageOrder(results)
    decreases |results|
  {
    assert |batches| == |results|;
    hide AtOrAbove, Ascending, InRange, SortBy, Collected, Extracted, Upto, InPageOrder;
    if results == [] {
      NothingMerged();
    } else {
      var n := |results| - 1;
      PrefixInRange(batches, results, n);
      SequentialMerge(batches[..n], results[..n]);
      EarlierPages(batches, results, n);
      LastBatch(results, n);
      SortByAbove(Collected(results[..n], Upto(n)), Extracted(results, n));
    }
  }

  lemma NothingMerged()
    ensures Merged([], Upto(0)) == InPageOrder([])
  {
  }

  lemma LastBatch(results: Results, n: nat)
    requires n + 1 == |results|
    ensures Collected(results, Upto(n + 1)) == Collected(results[..n], Upto(n)) + Extracted(results, n)
    ensures InPageOrder(results) == InPageOrder(results[..n]) + SortBy(AtOrAbove, Extracted(results, n))
  {
    hide SortBy, AtOrAbove;
    assert results == results[..n] + [results[n]];
    CollectedPrefix(results[..n], [results[n]], n);
    UptoFacts(n);
    assert Upto(n + 1)[..n] == Upto(n);
  }

  lemma PrefixInRange(batches: seq<Batch>, results: Results, n: nat)
    requires InRange(batches, results) && Ascending(batches) && n <= |results|
    ensures InRange(batches[..n], results[..n]) && Ascending(batches[..n])
  {
  }
}
