/** When batches are built, what they hold, and that the apply request accepts them. */
module FileBatchesTheorems {
  import opened Wrappers
  import opened Seqs
  import opened Sorting
  import opened FileBatches

  /** The changes of a file in the order they are applied. */
  function InOrder(accepted: seq<Change>, file: File): seq<Change> {
    SortBy(ByRank, Group(accepted, file))
  }

  lemma RankOrders()
    ensures TotalPreorder(ByRank)
  {
  }

  /** The change is of this file. */
  predicate IsOf(c: Change, vault: string, path: string) {
    c.vault == Some(vault) && c.path == Some(path)
  }

  /** The changes of a file, in the order they came. */
  function OfFile(accepted: seq<Change>, file: File): seq<Change> {
    Filter((c: Change) => IsOf(c, file.vault, file.path), accepted)
  }

  lemma {:induction false} GroupIs(accepted: seq<Change>, file: File)
    ensures Group(accepted, file) == OfFile(accepted, file)
  {
    if accepted != [] {
      GroupIs(accepted[..|accepted| - 1], file);
    }
  }

  /** A negative resolve order counts as 0. */
  function OrderOf(c: Change): nat {
    if c.resolveOrder >= 0 then c.resolveOrder else 0
  }

  /** The changes that share a resolve order. */
  function AtOrder(changes: seq<Change>, order: nat): seq<Change> {
    Filter((c: Change) => OrderOf(c) == order, changes)
  }

  lemma {:induction false} AlikeIsAtOrder(k: Change, changes: seq<Change>)
    ensures Alike(ByRank, k, changes) == AtOrder(changes, OrderOf(k))
  {
    if changes != [] {
      AlikeIsAtOrder(k, changes[1..]);
      FilterConcat((c: Change) => OrderOf(c) == OrderOf(k), [changes[0]], changes[1..]);
      assert changes == [changes[0]] + changes[1..];
      OneAtOrder(changes[0], OrderOf(k));
    }
  }

  lemma OneAtOrder(c: Change, order: nat)
    ensures AtOrder([c], order) == if OrderOf(c) == order then [c] else []
  {
    assert [c][..0] == [] && [] + [c] == [c];
    assert AtOrder([], order) == [];
  }

  /** A file's changes are applied by resolve order, those of one order as they came. */
  lemma InOrderIsStable(accepted: seq<Change>, file: File, k: Change)
    ensures forall i, j :: 0 <= i < j < |InOrder(accepted, file)| ==> OrderOf(InOrder(accepted, file)[i]) <= OrderOf(InOrder(accepted, file)[j])
    ensures multiset(InOrder(accepted, file)) == multiset(OfFile(accepted, file))
    ensures AtOrder(InOrder(accepted, file), OrderOf(k)) == AtOrder(OfFile(accepted, file), OrderOf(k))
  {
    hide Group, TotalPreorder, OfFile, SortBy;
    RankOrders();
    GroupIs(accepted, file);
    var changes := InOrder(accepted, file);
    SortBySorted(ByRank, Group(accepted, file));
    SortByStable(ByRank, k, Group(accepted, file));
    AlikeIsAtOrder(k, changes);
    AlikeIsAtOrder(k, Group(accepted, file));
    forall i, j | 0 <= i < j < |changes| ensures OrderOf(changes[i]) <= OrderOf(changes[j]) {
      assert ByRank(changes[i], changes[j]);
    }
  }

  /** Change `i` is the first of this file. */
  ghost predicate FirstOf(accepted: seq<Change>, i: nat, file: File) {
    && i < |accepted| && IsOf(accepted[i], file.vault, file.path)
    && forall j :: 0 <= j < i ==> !IsOf(accepted[j], file.vault, file.path)
  }

  /** The files come in the order of their first changes. */
  lemma {:induction false} FilesInOrder(accepted: seq<Change>, a: nat, b: nat) returns (i: nat, j: nat)
    requires a < b < |Keys(accepted)|
    ensures FirstOf(accepted, i, Keys(accepted)[a]) && FirstOf(accepted, j, Keys(accepted)[b]) && i < j
    decreases |accepted|
  {
    var n := |accepted| - 1;
    var init := accepted[..n];
    assert forall k :: 0 <= k < n ==> init[k] == accepted[k];
    if b < |Keys(init)| {
      i, j := FilesInOrder(init, a, b);
    } else {
      i := FirstOfKey(init, a);
      j := n;
      forall k | 0 <= k < n ensures !IsOf(accepted[k], Keys(accepted)[b].vault, Keys(accepted)[b].path) {
        if IsOf(init[k], Keys(accepted)[b].vault, Keys(accepted)[b].path) {
          CompleteHasKey(init, init[k]);
          assert false;
        }
      }
    }
  }

  lemma {:induction false} FirstOfKey(accepted: seq<Change>, a: nat) returns (i: nat)
    requires a < |Keys(accepted)|
    ensures FirstOf(accepted, i, Keys(accepted)[a])
    decreases |accepted|
  {
    var n := |accepted| - 1;
    var init := accepted[..n];
    assert forall k :: 0 <= k < n ==> init[k] == accepted[k];
    if a < |Keys(init)| {
      i := FirstOfKey(init, a);
    } else {
      i := n;
      forall k | 0 <= k < n ensures !IsOf(accepted[k], Keys(accepted)[a].vault, Keys(accepted)[a].path) {
        if IsOf(init[k], Keys(accepted)[a].vault, Keys(accepted)[a].path) {
          CompleteHasKey(init, init[k]);
          assert false;
        }
      }
    }
  }

  function Ids(changes: seq<Change>): seq<string> {
    if changes == [] then [] else Ids(changes[..|changes| - 1]) + [changes[|changes| - 1].id]
  }

  predicate Carries(c: Change) {
    c.operation.Some?
  }

  /** The changes of a file that reach its batch: those with operations, or the last when none has. */
  function Used(changes: seq<Change>): seq<Change>
    requires changes != []
  {
    if HasOperation(changes) then Filter(Carries, changes) else [changes[|changes| - 1]]
  }

  /**
    The condition on the changes of one file, in order, under which its batch is valid: at most 20
    operations, and an update starts with an operation and a hash; without any operation, the last
    change is an update or the first a creation.
   */
  predicate GroupOk(changes: seq<Change>)
    requires changes != []
  {
    var first, last := changes[0], changes[|changes| - 1];
    if HasOperation(changes) then
      && |Filter(Carries, changes)| <= MAX_OPS
      && (first.action == Update ==> first.operation.Some? && first.sha.Some?)
    else last.action == Update || first.action == Create
  }

  /** The operation does what the change asks for. */
  predicate Does(op: FileOp, c: Change) {
    && op.id == c.id && Some(op.operation) == c.operation && op.anchor == c.anchor
    && op.content == c.opContent && op.description == c.description
  }

  /**
    What a valid batch of these changes does.  With operations: one per used change, in order, on
    the first of an update its hash, under the action of the first change.  Without: the file is
    written anew, whole, with the last change.
   */
  ghost predicate DoesAll(b: Batch, changes: seq<Change>)
    requires changes != []
  {
    if HasOperation(changes) then
      var used := Filter(Carries, changes);
      && b.action == changes[0].action && |b.ops| == |used|
      && forall i :: 0 <= i < |used| ==>
        Does(b.ops[i], used[i]) && b.ops[i].sha == if b.action == Update && i == 0 then used[i].sha else None
    else
      var last := changes[|changes| - 1];
      && b.action == Create && |b.ops| == 1
      && b.ops[0].id == last.id && b.ops[0].operation == CreateFile && b.ops[0].anchor == None
      && b.ops[0].content == last.proposed && b.ops[0].sha == None
  }

  lemma {:induction false} OpsDo(changes: seq<Change>)
    ensures |Ops(changes)| == |Filter(Carries, changes)|
    ensures forall i :: 0 <= i < |Ops(changes)| ==> Does(Ops(changes)[i], Filter(Carries, changes)[i])
  {
    if changes != [] {
      var n := |changes| - 1;
      var before, kept := Ops(changes[..n]), Filter(Carries, changes[..n]);
      OpsDo(changes[..n]);
      assert before + [] == before && kept + [] == kept;
    }
  }

  lemma {:induction false} FirstUsed(changes: seq<Change>)
    requires changes != [] && changes[0].operation.Some?
    ensures Filter(Carries, changes) != [] && Filter(Carries, changes)[0] == changes[0]
  {
    if |changes| > 1 {
      FirstUsed(changes[..|changes| - 1]);
    } else {
      assert changes[..0] == [];
    }
  }

  lemma ValidDoesAll(b: Batch, changes: seq<Change>)
    requires changes != [] && HasOperation(changes) && b.ops == Ops(changes) && b.action == changes[0].action && BatchOk(b)
    ensures DoesAll(b, changes)
  {
    hide Ops, Filter, HasOperation, Does;
    OpsDo(changes);
    OnlyFirstHasSha(changes);
    if b.action == Update {
      assert b.ops[0].sha.Some?;
      FirstUsed(changes);
    }
  }

  lemma {:induction false} OpsFacts(changes: seq<Change>)
    ensures |Ops(changes)| == |Filter(Carries, changes)|
    ensures OpIds(Ops(changes)) == Ids(Filter(Carries, changes))
  {
    if changes == [] {
      NoIds();
    } else {
      hide OpIds, Ids, OpOf;
      var n := |changes| - 1;
      var before, kept := Ops(changes[..n]), Filter(Carries, changes[..n]);
      OpsFacts(changes[..n]);
      if changes[n].operation.Some? {
        SnocIds(before, kept, OpOf(changes[n], n == 0), changes[n]);
      } else {
        assert before + [] == before && kept + [] == kept;
      }
    }
  }

  lemma {:induction false} OnlyFirstHasSha(changes: seq<Change>)
    ensures forall i :: 0 <= i < |Ops(changes)| && Ops(changes)[i].sha.Some? ==>
      i == 0 && changes[0].operation.Some? && changes[0].action == Update && changes[0].sha.Some?
    ensures changes != [] && changes[0].operation.Some? ==>
      Ops(changes) != [] && Ops(changes)[0] == OpOf(changes[0], true)
  {
    if changes != [] {
      var n := |changes| - 1;
      OnlyFirstHasSha(changes[..n]);
      if n == 0 {
        assert changes[..0] == [];
      }
    }
  }

  lemma NoIds()
    ensures OpIds([]) == [] && Ids([]) == []
  {
  }

  lemma SnocIds(ops: seq<FileOp>, changes: seq<Change>, op: FileOp, c: Change)
    ensures OpIds(ops + [op]) == OpIds(ops) + [op.id]
    ensures Ids(changes + [c]) == Ids(changes) + [c.id]
  {
    assert (ops + [op])[..|ops|] == ops && (changes + [c])[..|changes|] == changes;
  }

  lemma SomeCarries(changes: seq<Change>)
    ensures HasOperation(changes) <==> Filter(Carries, changes) != []
  {
    if HasOperation(changes) {
      var i :| 0 <= i < |changes| && changes[i].operation.Some?;
      FilterMember(Carries, changes, changes[i]);
      assert changes[i] in changes;
    }
    if Filter(Carries, changes) != [] {
      var c := Filter(Carries, changes)[0];
      FilterMember(Carries, changes, c);
      var i :| 0 <= i < |changes| && changes[i] == c;
    }
  }

  /** A file's batch is valid exactly under the condition, and then holds the used changes in order. */
  lemma BatchWhen(file: File, changes: seq<Change>)
    requires changes != []
    ensures BatchOf(file, changes).Ok? <==> GroupOk(changes)
    ensures BatchOf(file, changes).Ok? ==>
      var b := BatchOf(file, changes).value;
      b.file == file && BatchOk(b) && DoesAll(b, changes) && OpIds(b.ops) == Ids(Used(changes))
  {
    hide Filter, Ops, HasOperation, OpIds, Ids;
    OpsFacts(changes);
    SomeCarries(changes);
    if HasOperation(changes) {
      var b := Batch(file, changes[0].action, Ops(changes));
      assert |b.ops| >= 1;
      ShaPolicyWhen(b, changes);
      if BatchOk(b) {
        ValidDoesAll(b, changes);
      }
    } else {
      var last := changes[|changes| - 1];
      OneId(Overwrite(last), last);
      var b := Batch(file, if last.action == Update then Create else changes[0].action, [Overwrite(last)]);
      assert b.ops[0].sha.None? && (BatchOk(b) <==> b.action == Create);
    }
  }

  lemma ShaPolicyWhen(b: Batch, changes: seq<Change>)
    requires changes != [] && b.ops == Ops(changes) && b.action == changes[0].action && |b.ops| >= 1
    ensures BatchOk(b) <==> |b.ops| <= MAX_OPS && (b.action == Update ==> changes[0].operation.Some? && changes[0].sha.Some?)
  {
    hide Ops;
    OnlyFirstHasSha(changes);
    if BatchOk(b) && b.action == Update {
      assert b.ops[0].sha.Some?;
    }
    if changes[0].operation.Some? {
      assert b.ops[0] == OpOf(changes[0], true);
    }
  }

  lemma OneId(op: FileOp, c: Change)
    requires op.id == c.id
    ensures OpIds([op]) == [c.id] == Ids([c])
  {
    assert [op][..0] == [] && [c][..0] == [];
  }

  /** Every file's changes meet the condition. */
  ghost predicate GroupsOk(accepted: seq<Change>, n: nat)
    requires n <= |Keys(accepted)|
  {
    forall i :: 0 <= i < n ==> GroupAt(accepted, i)
  }

  predicate GroupAt(accepted: seq<Change>, i: nat)
    requires i < |Keys(accepted)|
  {
    KeysHaveGroups(accepted, Keys(accepted)[i]);
    GroupOk(InOrder(accepted, Keys(accepted)[i]))
  }

  /** The batches of the first `n` files. */
  ghost predicate Holds(accepted: seq<Change>, n: nat, batches: seq<Batch>)
    requires n <= |Keys(accepted)|
  {
    && |batches| == n
    && forall i :: 0 <= i < n ==> HoldsAt(accepted, i, batches[i])
  }

  ghost predicate HoldsAt(accepted: seq<Change>, i: nat, b: Batch)
    requires i < |Keys(accepted)|
  {
    KeysHaveGroups(accepted, Keys(accepted)[i]);
    && b.file == Keys(accepted)[i] && BatchOk(b) && DoesAll(b, InOrder(accepted, b.file))
    && OpIds(b.ops) == Ids(Used(InOrder(accepted, b.file)))
  }

  lemma {:induction false} BuiltWhen(accepted: seq<Change>, n: nat)
    requires n <= |Keys(accepted)|
    ensures Built(accepted, n).Ok? <==> GroupsOk(accepted, n)
    ensures Built(accepted, n).Ok? ==> Holds(accepted, n, Built(accepted, n).value)
  {
    hide BatchOf, SortBy, Group, Keys, GroupOk, BatchOk, Used, OpIds, Ids, DoesAll;
    if n > 0 {
      BuiltWhen(accepted, n - 1);
      KeysHaveGroups(accepted, Keys(accepted)[n - 1]);
      BatchWhen(Keys(accepted)[n - 1], InOrder(accepted, Keys(accepted)[n - 1]));
      assert GroupsOk(accepted, n) <==> GroupsOk(accepted, n - 1) && GroupAt(accepted, n - 1) by {
        if GroupsOk(accepted, n) {
          assert GroupAt(accepted, n - 1);
        }
      }
    }
  }

  /**
    The batches are built exactly when every file's changes meet the condition; they are then one
    per file, in order of first appearance, each valid, each doing what its file's used changes ask
    for, in stable order of resolution.
   */
  lemma BatchesWhen(accepted: seq<Change>)
    ensures BatchesFor(accepted).Ok? <==> GroupsOk(accepted, |Keys(accepted)|)
    ensures BatchesFor(accepted).Ok? ==> Holds(accepted, |Keys(accepted)|, BatchesFor(accepted).value)
  {
    hide Built, GroupsOk, Holds;
    BuiltWhen(accepted, |Keys(accepted)|);
  }

  // ---- every complete change once ----

  lemma {:induction false} KeysDistinct(accepted: seq<Change>)
    ensures Distinct(Keys(accepted))
  {
    if accepted != [] {
      KeysDistinct(accepted[..|accepted| - 1]);
    }
  }

  /** The used changes of the first `n` files. */
  function UsedOf(accepted: seq<Change>, n: nat): seq<Change>
    requires n <= |Keys(accepted)|
  {
    if n == 0 then []
    else
      UsedOf(accepted, n - 1) + UsedAt(accepted, n - 1)
  }

  function UsedAt(accepted: seq<Change>, i: nat): seq<Change>
    requires i < |Keys(accepted)|
  {
    KeysHaveGroups(accepted, Keys(accepted)[i]);
    Used(InOrder(accepted, Keys(accepted)[i]))
  }

  lemma {:induction false} IdsConcat(a: seq<Change>, b: seq<Change>)
    ensures Ids(a + b) == Ids(a) + Ids(b)
  {
    if b == [] {
      assert a + b == a;
    } else {
      var n := |b| - 1;
      IdsConcat(a, b[..n]);
      assert (a + b)[..|a + b| - 1] == a + b[..n];
    }
  }

  lemma SnocBatches(batches: seq<Batch>)
    requires batches != []
    ensures var n := |batches| - 1;
      AllOpIds(batches) == AllOpIds(batches[..n]) + OpIds(batches[n].ops) && Files(batches) == Files(batches[..n]) + [batches[n].file]
  {
  }

  lemma UsedStep(accepted: seq<Change>, n: nat)
    requires n < |Keys(accepted)|
    ensures Ids(UsedOf(accepted, n + 1)) == Ids(UsedOf(accepted, n)) + Ids(UsedAt(accepted, n))
  {
    hide SortBy, Group, Keys, UsedAt, Ids;
    IdsConcat(UsedOf(accepted, n), UsedAt(accepted, n));
  }

  lemma HeldIds(accepted: seq<Change>, i: nat, b: Batch)
    requires i < |Keys(accepted)| && HoldsAt(accepted, i, b)
    ensures b.file == Keys(accepted)[i] && OpIds(b.ops) == Ids(UsedAt(accepted, i))
  {
    hide SortBy, Group, Keys, BatchOk, Used, OpIds, Ids, DoesAll;
  }

  lemma NoBatches(accepted: seq<Change>)
    ensures AllOpIds([]) == Ids(UsedOf(accepted, 0)) == [] && Files([]) == []
  {
  }

  lemma HoldsPrefix(accepted: seq<Change>, n: nat, batches: seq<Batch>)
    requires 0 < n <= |Keys(accepted)| && Holds(accepted, n, batches)
    ensures |batches| == n && Holds(accepted, n - 1, batches[..n - 1]) && HoldsAt(accepted, n - 1, batches[n - 1])
  {
    hide HoldsAt, Keys;
    assert forall i :: 0 <= i < n - 1 ==> batches[..n - 1][i] == batches[i];
  }

  lemma {:induction false} IdsOfBatches(accepted: seq<Change>, n: nat, batches: seq<Batch>)
    requires n <= |Keys(accepted)| && Holds(accepted, n, batches)
    ensures AllOpIds(batches) == Ids(UsedOf(accepted, n))
    decreases n
  {
    hide Group, Keys, OpIds, Ids, AllOpIds, Files, UsedOf, UsedAt, Holds, HoldsAt;
    HoldsAll(accepted, n, batches);
    if n == 0 {
      NoBatches(accepted);
    } else {
      HoldsPrefix(accepted, n, batches);
      IdsOfBatches(accepted, n - 1, batches[..n - 1]);
      SnocBatches(batches);
      HeldIds(accepted, n - 1, batches[n - 1]);
      UsedStep(accepted, n - 1);
    }
  }

  lemma {:induction false} FilesOfBatches(accepted: seq<Change>, n: nat, batches: seq<Batch>)
    requires n <= |Keys(accepted)| && Holds(accepted, n, batches)
    ensures Files(batches) == Keys(accepted)[..n]
    decreases n
  {
    hide Keys, OpIds, AllOpIds, Files, UsedAt, Holds, HoldsAt;
    HoldsAll(accepted, n, batches);
    if n == 0 {
      NoBatches(accepted);
    } else {
      HoldsPrefix(accepted, n, batches);
      FilesOfBatches(accepted, n - 1, batches[..n - 1]);
      SnocBatches(batches);
      HeldIds(accepted, n - 1, batches[n - 1]);
      PrefixStep(Keys(accepted), n - 1);
    }
  }

  lemma HoldsAll(accepted: seq<Change>, n: nat, batches: seq<Batch>)
    requires n <= |Keys(accepted)| && Holds(accepted, n, batches)
    ensures |batches| == n
  {
  }

  /** The complete changes, in order. */
  function CompleteOnes(accepted: seq<Change>): seq<Change> {
    Filter(IsComplete, accepted)
  }

  lemma {:induction false} GroupCount(accepted: seq<Change>, file: File, x: Change)
    ensures multiset(Group(accepted, file))[x] == if IsComplete(x) && FileOf(x) == file then multiset(accepted)[x] else 0
  {
    if accepted != [] {
      var n := |accepted| - 1;
      GroupCount(accepted[..n], file, x);
      assert accepted == accepted[..n] + [accepted[n]];
    }
  }

  lemma {:induction false} CompleteCount(accepted: seq<Change>, x: Change)
    ensures multiset(CompleteOnes(accepted))[x] == if IsComplete(x) then multiset(accepted)[x] else 0
  {
    if accepted != [] {
      var n := |accepted| - 1;
      CompleteCount(accepted[..n], x);
      assert accepted == accepted[..n] + [accepted[n]];
    }
  }

  /** Every complete change carries an operation. */
  ghost predicate AllCarry(accepted: seq<Change>) {
    forall i :: 0 <= i < |accepted| && IsComplete(accepted[i]) ==> accepted[i].operation.Some?
  }

  lemma {:induction false} GroupMember(accepted: seq<Change>, file: File, x: Change)
    requires x in Group(accepted, file)
    ensures exists i :: 0 <= i < |accepted| && accepted[i] == x && IsComplete(x) && FileOf(x) == file
  {
    var n := |accepted| - 1;
    if x in Group(accepted[..n], file) {
      GroupMember(accepted[..n], file, x);
      var i :| 0 <= i < n && accepted[..n][i] == x && IsComplete(x) && FileOf(x) == file;
      assert accepted[i] == x;
    } else {
      assert accepted[n] == x;
    }
  }

  lemma UsedIsAll(accepted: seq<Change>, file: File)
    requires AllCarry(accepted) && Group(accepted, file) != []
    ensures Used(InOrder(accepted, file)) == InOrder(accepted, file)
  {
    hide SortBy, Group, IsComplete, FileOf;
    var changes := InOrder(accepted, file);
    forall i | 0 <= i < |changes| ensures Carries(changes[i]) {
      InMultiset(changes, Group(accepted, file), changes[i]);
      GroupMember(accepted, file, changes[i]);
    }
    FilterAll(Carries, changes);
    assert changes[0].operation.Some?;
  }

  lemma {:induction false} UsedCount(accepted: seq<Change>, n: nat, x: Change)
    requires n <= |Keys(accepted)| && AllCarry(accepted)
    ensures multiset(UsedOf(accepted, n))[x] ==
      if IsComplete(x) && FileOf(x) in Keys(accepted)[..n] then multiset(accepted)[x] else 0
  {
    hide SortBy, Group, Used, IsComplete, FileOf, Keys;
    if n > 0 {
      var file := Keys(accepted)[n - 1];
      UsedCount(accepted, n - 1, x);
      KeysHaveGroups(accepted, file);
      UsedIsAll(accepted, file);
      GroupCount(accepted, file, x);
      PrefixStep(Keys(accepted), n - 1);
      KeysDistinct(accepted);
      assert multiset(InOrder(accepted, file)) == multiset(Group(accepted, file));
      assert file !in Keys(accepted)[..n - 1];
    }
  }

  /** When every complete change carries an operation, the batches use each exactly as often as it was accepted. */
  lemma EveryCompleteChangeOnce(accepted: seq<Change>)
    requires AllCarry(accepted)
    ensures multiset(UsedOf(accepted, |Keys(accepted)|)) == multiset(CompleteOnes(accepted))
  {
    hide SortBy, Group, Used, Keys, UsedOf, CompleteOnes, IsComplete, FileOf;
    var keys := Keys(accepted);
    assert keys[..|keys|] == keys;
    forall x ensures multiset(UsedOf(accepted, |keys|))[x] == multiset(CompleteOnes(accepted))[x] {
      UsedCount(accepted, |keys|, x);
      CompleteCount(accepted, x);
      if IsComplete(x) && x in accepted {
        CompleteHasKey(accepted, x);
      }
    }
  }

  lemma {:induction false} CompleteHasKey(accepted: seq<Change>, x: Change)
    requires x in accepted && IsComplete(x)
    ensures FileOf(x) in Keys(accepted)
  {
    var n := |accepted| - 1;
    assert accepted == accepted[..n] + [accepted[n]];
    if x != accepted[n] {
      CompleteHasKey(accepted[..n], x);
    }
  }

  // ---- the request ----

  lemma DistinctCounts<T>(xs: seq<T>)
    ensures Distinct(xs) <==> forall x :: x in xs ==> multiset(xs)[x] <= 1
  {
    CountsTellDistinct(xs);
  }

  lemma {:induction false} CountsTellDistinct<T>(xs: seq<T>)
    ensures Distinct(xs) <==> forall x :: x in xs ==> multiset(xs)[x] <= 1
  {
    if xs != [] {
      var n := |xs| - 1;
      var init, last := xs[..n], xs[n];
      CountsTellDistinct(init);
      assert xs == init + [last];
      ToSetSnoc(init, last);
      assert multiset(xs) == multiset(init) + multiset{last};
      assert last in init <==> multiset(init)[last] > 0;
      if forall x :: x in xs ==> multiset(xs)[x] <= 1 {
        forall x | x in init ensures multiset(init)[x] <= 1 {
          assert x in xs && multiset(xs)[x] >= multiset(init)[x];
        }
        assert multiset(xs)[last] <= 1;
      }
    }
  }

  /** The batches pass the request's checks exactly when there is one and no two used changes share an id. */
  lemma RequestAcceptsWhen(accepted: seq<Change>)
    requires BatchesFor(accepted).Ok?
    ensures var batches := BatchesFor(accepted).value;
      RequestOk(batches) <==> batches != [] && Distinct(Ids(UsedOf(accepted, |Keys(accepted)|)))
  {
    hide BatchesFor, UsedOf, Keys, Holds, Files, AllOpIds, Ids;
    var batches := BatchesFor(accepted).value;
    var keys := Keys(accepted);
    BatchesWhen(accepted);
    IdsOfBatches(accepted, |keys|, batches);
    FilesOfBatches(accepted, |keys|, batches);
    assert keys[..|keys|] == keys;
    KeysDistinct(accepted);
    SizeTellsDistinct(Files(batches));
    DistinctCounts(AllOpIds(batches));
  }

  lemma MiddleOut<T>(u: seq<T>, x: T, v: seq<T>)
    ensures multiset(u + [x] + v) == multiset(u + v) + multiset{x}
  {
  }

  lemma IdsMiddleOut(u: seq<Change>, x: Change, v: seq<Change>)
    ensures multiset(Ids(u + [x] + v)) == multiset(Ids(u + v)) + multiset{x.id}
  {
    OneId(Overwrite(x), x);
    hide Ids;
    IdsConcat(u, v);
    IdsConcat(u + [x], v);
    IdsConcat(u, [x]);
    MiddleOut(Ids(u), x.id, Ids(v));
  }

  lemma SplitAt(s: seq<Change>, x: Change) returns (u: seq<Change>, v: seq<Change>)
    requires x in s
    ensures s == u + [x] + v
  {
    var i :| 0 <= i < |s| && s[i] == x;
    u, v := s[..i], s[i + 1..];
  }

  lemma Shorter(init: seq<Change>, x: Change, u: seq<Change>, v: seq<Change>)
    requires multiset(init + [x]) == multiset(u + [x] + v)
    ensures multiset(init) == multiset(u + v)
  {
    MiddleOut(u, x, v);
    assert multiset(init) == multiset(init + [x]) - multiset{x};
    assert multiset(u + v) == multiset(u + [x] + v) - multiset{x};
  }

  lemma {:induction false} IdsPermuted(a: seq<Change>, b: seq<Change>)
    requires multiset(a) == multiset(b)
    ensures multiset(Ids(a)) == multiset(Ids(b))
    decreases |a|
  {
    hide Ids;
    if a == [] {
      assert |multiset(b)| == |b|;
    } else {
      var init, x := a[..|a| - 1], a[|a| - 1];
      InMultiset(a, b, x);
      var u, v := SplitAt(b, x);
      assert a == init + [x];
      Shorter(init, x, u, v);
      IdsPermuted(init, u + v);
      IdsSnoc(init, x);
      IdsMiddleOut(u, x, v);
    }
  }

  lemma IdsSnoc(init: seq<Change>, x: Change)
    ensures multiset(Ids(init + [x])) == multiset(Ids(init)) + multiset{x.id}
  {
    assert (init + [x])[..|init|] == init;
  }

  /**
    Distinct ids, an operation on every complete change, and every group valid: the batches are
    built, use each complete change once, and unless there are none the request accepts them.
   */
  lemma OperationsReachTheRequest(accepted: seq<Change>)
    requires AllCarry(accepted) && Distinct(Ids(CompleteOnes(accepted))) && GroupsOk(accepted, |Keys(accepted)|)
    ensures BatchesFor(accepted).Ok?
    ensures var batches := BatchesFor(accepted).value;
      && multiset(AllOpIds(batches)) == multiset(Ids(CompleteOnes(accepted)))
      && (batches != [] ==> RequestOk(batches))
  {
    hide BatchesFor, UsedOf, Keys, Holds, Files, AllOpIds, Ids, GroupsOk, AllCarry, CompleteOnes, RequestOk;
    BatchesWhen(accepted);
    var used := UsedOf(accepted, |Keys(accepted)|);
    IdsOfBatches(accepted, |Keys(accepted)|, BatchesFor(accepted).value);
    EveryCompleteChangeOnce(accepted);
    IdsPermuted(used, CompleteOnes(accepted));
    DistinctCounts(Ids(used));
    DistinctCounts(Ids(CompleteOnes(accepted)));
    SameCounts(Ids(used), Ids(CompleteOnes(accepted)));
    RequestAcceptsWhen(accepted);
  }

  lemma SameCounts<T>(a: seq<T>, b: seq<T>)
    requires multiset(a) == multiset(b)
    ensures (forall x :: x in a ==> multiset(a)[x] <= 1) <==> (forall x :: x in b ==> multiset(b)[x] <= 1)
  {
    forall x ensures x in a <==> x in b {
      InMultiset(a, b, x);
    }
  }

  // ---- the older form ----

  lemma RepeatsWhen<T>(xs: seq<T>)
    ensures Repeats(xs) <==> !Distinct(xs)
  {
    DistinctCounts(xs);
    assert forall i :: 0 <= i < |xs| ==> xs[i] in xs;
    if exists x :: x in xs && multiset(xs)[x] > 1 {
      var x :| x in xs && multiset(xs)[x] > 1;
      var i :| 0 <= i < |xs| && xs[i] == x;
      assert multiset(xs)[xs[i]] > 1;
    }
  }

  ghost predicate OnePerFile(accepted: seq<Change>) {
    && (forall i :: 0 <= i < |accepted| ==> IsComplete(accepted[i]))
    && (forall i, j :: 0 <= i < j < |accepted| ==> FileOf(accepted[i]) != FileOf(accepted[j]))
  }

  lemma OnePerFileWhen(accepted: seq<Change>)
    requires forall i :: 0 <= i < |accepted| ==> IsComplete(accepted[i])
    ensures Distinct(ChangeFiles(accepted)) <==> OnePerFile(accepted)
  {
    var files := ChangeFiles(accepted);
    assert forall i :: 0 <= i < |files| ==> files[i] == FileOf(accepted[i]);
    if Distinct(files) {
      forall i, j | 0 <= i < j < |accepted| ensures FileOf(accepted[i]) != FileOf(accepted[j]) {
        assert files[i] != files[j];
      }
    }
  }

  lemma {:induction false} KeysOfOnePerFile(accepted: seq<Change>)
    requires OnePerFile(accepted)
    ensures |Keys(accepted)| == |accepted|
    ensures forall i :: 0 <= i < |accepted| ==> Keys(accepted)[i] == FileOf(accepted[i])
  {
    if accepted != [] {
      var n := |accepted| - 1;
      KeysOfOnePerFile(accepted[..n]);
      var before := Keys(accepted[..n]);
      assert forall i :: 0 <= i < n ==> before[i] == FileOf(accepted[i]);
      assert FileOf(accepted[n]) !in before;
    }
  }

  lemma {:induction false} NoGroup(accepted: seq<Change>, file: File)
    requires forall i :: 0 <= i < |accepted| ==> IsComplete(accepted[i]) && FileOf(accepted[i]) != file
    ensures Group(accepted, file) == []
  {
    if accepted != [] {
      NoGroup(accepted[..|accepted| - 1], file);
    }
  }

  lemma {:induction false} GroupOfOnePerFile(accepted: seq<Change>, i: nat)
    requires OnePerFile(accepted) && i < |accepted|
    ensures Group(accepted, FileOf(accepted[i])) == [accepted[i]]
    decreases |accepted|
  {
    var n := |accepted| - 1;
    var file := FileOf(accepted[i]);
    if i == n {
      NoGroup(accepted[..n], file);
    } else {
      GroupOfOnePerFile(accepted[..n], i);
      assert [accepted[i]] + [] == [accepted[i]];
    }
  }

  /** The batch of a change that is alone on its file. */
  function ConvertedOne(c: Change): Batch
    requires IsComplete(c)
  {
    Batch(FileOf(c), c.action,
          [if c.operation.Some? then Converted(c, true) else FileOp(c.id, AppendToFile, None, c.proposed, c.sha, "")])
  }

  lemma ConvertedAlone(c: Change)
    requires ApplyChangeOk(c)
    ensures ConvertedGroup(FileOf(c), SortBy(ByRank, [c])) == Ok(ConvertedOne(c))
  {
    hide IsComplete;
    assert [c][1..] == [] && [c][..0] == [];
    assert SortBy(ByRank, [c]) == [c];
    if c.operation.Some? {
      assert ConvertedOps([]) == Ok([]) && [] + [Converted(c, true)] == [Converted(c, true)];
      assert ConvertedOps([c]) == Ok([Converted(c, true)]);
    }
    var b := ConvertedOne(c);
    assert b.ops[0].sha == c.sha && BatchOk(b);
  }

  ghost predicate ConvertedInOrder(accepted: seq<Change>, n: nat, batches: seq<Batch>)
    requires n <= |accepted| && forall i :: 0 <= i < |accepted| ==> IsComplete(accepted[i])
  {
    |batches| == n && forall i :: 0 <= i < n ==> batches[i] == ConvertedOne(accepted[i])
  }

  lemma {:induction false} ConvertedInTurn(accepted: seq<Change>, n: nat)
    requires OnePerFile(accepted) && n <= |accepted| == |Keys(accepted)|
    requires forall i :: 0 <= i < |accepted| ==> ApplyChangeOk(accepted[i])
    ensures ConvertedFiles(accepted, n).Ok? && ConvertedInOrder(accepted, n, ConvertedFiles(accepted, n).value)
    decreases n
  {
    hide ConvertedGroup, ConvertedOne, SortBy, Group, Keys, IsComplete, FileOf, ApplyChangeOk;
    if n > 0 {
      ConvertedInTurn(accepted, n - 1);
      KeysOfOnePerFile(accepted);
      GroupOfOnePerFile(accepted, n - 1);
      ConvertedAlone(accepted[n - 1]);
    }
  }

  lemma {:induction false} ConvertedFilesAndIds(accepted: seq<Change>, batches: seq<Batch>)
    requires (forall i :: 0 <= i < |accepted| ==> IsComplete(accepted[i])) && ConvertedInOrder(accepted, |accepted|, batches)
    ensures Files(batches) == ChangeFiles(accepted) && AllOpIds(batches) == ChangeIds(accepted)
    decreases |batches|
  {
    hide IsComplete, FileOf;
    if batches != [] {
      var n := |batches| - 1;
      ConvertedFilesAndIds(accepted[..n], batches[..n]);
      SnocBatches(batches);
      assert batches[n] == ConvertedOne(accepted[n]);
      assert |batches[n].ops| == 1 && batches[n].ops == [batches[n].ops[0]];
      OneId(batches[n].ops[0], accepted[n]);
    }
  }

  /**
    The older form of a request converts exactly when it names at least one change and repeats
    neither an id nor a file, and then to one batch per change in order: no file ever has several.
   */
  lemma OlderFormConvertsWhen(accepted: seq<Change>)
    requires forall i :: 0 <= i < |accepted| ==> IsComplete(accepted[i]) && ApplyChangeOk(accepted[i])
    ensures Normalized(accepted, []).Ok? <==> accepted != [] && Distinct(ChangeIds(accepted)) && Distinct(ChangeFiles(accepted))
    ensures Normalized(accepted, []).Ok? ==> ConvertedInOrder(accepted, |accepted|, Normalized(accepted, []).value)
  {
    hide Repeats, ChangeIds, ChangeFiles, ConvertedFiles, Keys, IsComplete, Distinct;
    if accepted != [] {
      RepeatsWhen(ChangeIds(accepted));
      RepeatsWhen(ChangeFiles(accepted));
      if Distinct(ChangeIds(accepted)) && Distinct(ChangeFiles(accepted)) {
        OnePerFileWhen(accepted);
        KeysOfOnePerFile(accepted);
        ConvertedInTurn(accepted, |accepted|);
        var batches := ConvertedFiles(accepted, |accepted|).value;
        ConvertedFilesAndIds(accepted, batches);
        SizeTellsDistinct(Files(batches));
        DistinctCounts(AllOpIds(batches));
      }
    }
  }
}
