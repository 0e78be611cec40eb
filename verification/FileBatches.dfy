/**
  Grouping accepted file changes into one ordered batch per file, and the validators of the apply
  request the batches are sent in.
 */
module FileBatches {
  import opened Wrappers
  import opened Seqs
  import opened Sorting

  datatype Action = Update | Create

  datatype Operation = CreateFile | AppendToFile | OtherOperation(name: string)

  datatype File = File(vault: string, path: string)

  datatype Change = Change(id: string, vault: Option<string>, path: Option<string>, action: Action, operation: Option<Operation>,
    anchor: Option<string>, opContent: string, proposed: string, sha: Option<string>, resolveOrder: int, description: string)

  datatype FileOp = FileOp(id: string, operation: Operation, anchor: Option<string>, content: string, sha: Option<string>, description: string)

  datatype Batch = Batch(file: File, action: Action, ops: seq<FileOp>)

  /** Raised by a model's validator. */
  datatype ValidationError = ValidationError

  const MAX_OPS := 20

  // ---- validators ----

  /** `UpdateModeFileChangeBatch`: the number of operations and `_validate_sha_policy`. */
  predicate BatchOk(b: Batch) {
    && 1 <= |b.ops| <= MAX_OPS
    && forall i :: 0 <= i < |b.ops| ==> (b.ops[i].sha.Some? <==> b.action == Update && i == 0)
  }

  /** The loop of `_validate_sha_policy`. */
  method ValidateShaPolicy(b: Batch) returns (ok: bool)
    requires b.ops != []
    ensures ok <==> forall i :: 0 <= i < |b.ops| ==> (b.ops[i].sha.Some? <==> b.action == Update && i == 0)
  {
    for i := 0 to |b.ops|
      invariant forall j :: 0 <= j < i ==> (b.ops[j].sha.Some? <==> b.action == Update && j == 0)
    {
      var op := b.ops[i];
      if b.action == Create {
        if op.sha.Some? {
          return false;
        }
      } else {
        if i == 0 && op.sha.None? {
          return false;
        }
        if i > 0 && op.sha.Some? {
          return false;
        }
      }
    }
    ok := true;
  }

  function NewBatch(file: File, action: Action, ops: seq<FileOp>): Result<Batch, ValidationError> {
    if BatchOk(Batch(file, action, ops)) then Ok(Batch(file, action, ops)) else Err(ValidationError)
  }

  function Files(batches: seq<Batch>): seq<File> {
    if batches == [] then [] else Files(batches[..|batches| - 1]) + [batches[|batches| - 1].file]
  }

  function OpIds(ops: seq<FileOp>): seq<string> {
    if ops == [] then [] else OpIds(ops[..|ops| - 1]) + [ops[|ops| - 1].id]
  }

  function AllOpIds(batches: seq<Batch>): seq<string> {
    if batches == [] then [] else AllOpIds(batches[..|batches| - 1]) + OpIds(batches[|batches| - 1].ops)
  }

  /** The checks of `_normalize_and_validate` on the batches of a request. */
  predicate RequestOk(batches: seq<Batch>) {
    && batches != []
    && |ToSet(Files(batches))| == |Files(batches)|
    && forall id :: id in AllOpIds(batches) ==> multiset(AllOpIds(batches))[id] <= 1
  }

  // ---- grouping ----

  predicate IsComplete(c: Change) {
    c.vault.Some? && c.path.Some?
  }

  function FileOf(c: Change): File
    requires IsComplete(c)
  {
    File(c.vault.value, c.path.value)
  }

  /** The files changed, in order of first appearance. */
  function Keys(accepted: seq<Change>): seq<File> {
    if accepted == [] then []
    else
      var last := accepted[|accepted| - 1];
      var before := Keys(accepted[..|accepted| - 1]);
      if IsComplete(last) && FileOf(last) !in before then before + [FileOf(last)] else before
  }

  /** The changes of one file, in order. */
  function Group(accepted: seq<Change>, file: File): seq<Change> {
    if accepted == [] then []
    else
      var last := accepted[|accepted| - 1];
      Group(accepted[..|accepted| - 1], file) + if IsComplete(last) && FileOf(last) == file then [last] else []
  }

  /** `max(c.resolve_order, 0)` */
  function Rank(c: Change): int {
    if c.resolveOrder < 0 then 0 else c.resolveOrder
  }

  predicate ByRank(a: Change, b: Change) {
    Rank(a) <= Rank(b)
  }

  predicate HasOperation(changes: seq<Change>) {
    exists i :: 0 <= i < |changes| && changes[i].operation.Some?
  }

  function OpOf(c: Change, first: bool): FileOp
    requires c.operation.Some?
  {
    FileOp(c.id, c.operation.value, c.anchor, c.opContent, if first && c.action == Update then c.sha else None, c.description)
  }

  /** One operation per change that has one. */
  function Ops(changes: seq<Change>): seq<FileOp> {
    if changes == [] then []
    else
      var n := |changes| - 1;
      Ops(changes[..n]) + if changes[n].operation.Some? then [OpOf(changes[n], n == 0)] else []
  }

  /** The operation that writes a legacy change's whole file. */
  function Overwrite(c: Change): FileOp {
    FileOp(c.id, CreateFile, None, c.proposed, None, "")
  }

  /** The batch of one file, from its changes in order. */
  function BatchOf(file: File, changes: seq<Change>): Result<Batch, ValidationError>
    requires changes != []
  {
    var last := changes[|changes| - 1];
    if HasOperation(changes) then NewBatch(file, changes[0].action, Ops(changes))
    else NewBatch(file, if last.action == Update then Create else changes[0].action, [Overwrite(last)])
  }

  lemma {:induction false} KeysHaveGroups(accepted: seq<Change>, file: File)
    ensures file in Keys(accepted) <==> Group(accepted, file) != []
  {
    if accepted != [] {
      KeysHaveGroups(accepted[..|accepted| - 1], file);
    }
  }

  /** The batches of the first `n` files, or the first error. */
  function Built(accepted: seq<Change>, n: nat): Result<seq<Batch>, ValidationError>
    requires n <= |Keys(accepted)|
  {
    if n == 0 then Ok([])
    else
      var before := Built(accepted, n - 1);
      var file := Keys(accepted)[n - 1];
      KeysHaveGroups(accepted, file);
      var batch := BatchOf(file, SortBy(ByRank, Group(accepted, file)));
      if before.Err? then before else if batch.Err? then Err(ValidationError) else Ok(before.value + [batch.value])
  }

  function BatchesFor(accepted: seq<Change>): Result<seq<Batch>, ValidationError> {
    Built(accepted, |Keys(accepted)|)
  }

  // ---- the loops of the source ----

  /** The dictionary of groups, with its order of insertion. */
  method GroupChanges(accepted: seq<Change>) returns (order: seq<File>, groups: map<File, seq<Change>>)
    ensures order == Keys(accepted)
    ensures forall f :: f in order <==> f in groups
    ensures forall f :: f in groups ==> groups[f] == Group(accepted, f)
  {
    order, groups := [], map[];
    for i := 0 to |accepted|
      invariant order == Keys(accepted[..i])
      invariant forall f :: f in order <==> f in groups
      invariant forall f :: f in groups ==> groups[f] == Group(accepted[..i], f)
    {
      PrefixStep(accepted, i);
      var ch := accepted[i];
      ghost var before := groups;
      if IsComplete(ch) {
        var key := FileOf(ch);
        if key !in groups {
          KeysHaveGroups(accepted[..i], key);
          order := order + [key];
          groups := groups[key := []];
        }
        groups := groups[key := groups[key] + [ch]];
      }
      forall f | f in groups ensures groups[f] == Group(accepted[..i + 1], f) {
        assert Group(accepted[..i], f) + [] == Group(accepted[..i], f);
      }
    }
    assert accepted[..|accepted|] == accepted;
  }

  /** The loop over the changes of a file that carry operations. */
  method CollectOps(changes: seq<Change>) returns (ops: seq<FileOp>)
    ensures ops == Ops(changes)
  {
    ops := [];
    for i := 0 to |changes|
      invariant ops == Ops(changes[..i])
    {
      PrefixStep(changes, i);
      var ch := changes[i];
      if ch.operation.Some? {
        ops := ops + [FileOp(ch.id, ch.operation.value, ch.anchor, ch.opContent, if i == 0 && ch.action == Update then ch.sha else None, ch.description)];
      } else {
        assert ops + [] == ops;
      }
    }
    assert changes[..|changes|] == changes;
  }

  /** `_build_file_batches` */
  method BuildFileBatches(accepted: seq<Change>) returns (result: Result<seq<Batch>, ValidationError>)
    ensures result == BatchesFor(accepted)
  {
    hide Keys, Group, SortBy, Ops, HasOperation, BatchOk;
    var order, groups := GroupChanges(accepted);
    var batches: seq<Batch> := [];
    for i := 0 to |order|
      invariant Built(accepted, i) == Ok(batches)
    {
      var file := order[i];
      KeysHaveGroups(accepted, file);
      var changes := SortBy(ByRank, groups[file]);
      var last := changes[|changes| - 1];
      var batch;
      if HasOperation(changes) {
        var ops := CollectOps(changes);
        batch := NewBatch(file, changes[0].action, ops);
      } else if last.action == Update {
        batch := NewBatch(file, Create, [Overwrite(last)]);
      } else {
        batch := NewBatch(file, changes[0].action, [Overwrite(last)]);
      }
      assert batch == BatchOf(file, changes);
      if batch.Err? {
        FirstErrorStays(accepted, i + 1, |order|);
        return Err(ValidationError);
      }
      batches := batches + [batch.value];
    }
    result := Ok(batches);
  }

  lemma {:induction false} FirstErrorStays(accepted: seq<Change>, m: nat, n: nat)
    requires m <= n <= |Keys(accepted)| && Built(accepted, m).Err?
    ensures Built(accepted, n) == Err(ValidationError)
    decreases n
  {
    hide BatchOf, SortBy, Group, Keys;
    if m < n {
      FirstErrorStays(accepted, m, n - 1);
    } else {
      assert Built(accepted, n).error == ValidationError;
    }
  }

  // ---- the older form of the request ----

  /** `UpdateModeApplyChange._validate_sha_policy`: an update has a hash, a creation none. */
  predicate ApplyChangeOk(c: Change) {
    IsComplete(c) && (c.sha.Some? <==> c.action == Update)
  }

  function Converted(c: Change, first: bool): FileOp
    requires c.operation.Some?
  {
    FileOp(c.id, c.operation.value, c.anchor, c.opContent, if first then c.sha else None, "")
  }

  /** One operation per change; an operation is required of each. */
  function ConvertedOps(changes: seq<Change>): Result<seq<FileOp>, ValidationError> {
    if changes == [] then Ok([])
    else
      var n := |changes| - 1;
      var before := ConvertedOps(changes[..n]);
      if before.Err? || changes[n].operation.None? then Err(ValidationError)
      else Ok(before.value + [Converted(changes[n], n == 0)])
  }

  function ConvertedGroup(file: File, changes: seq<Change>): Result<Batch, ValidationError>
    requires changes != []
  {
    var last := changes[|changes| - 1];
    if changes[0].operation.Some? then
      var ops := ConvertedOps(changes);
      if ops.Err? then Err(ValidationError) else NewBatch(file, changes[0].action, ops.value)
    else NewBatch(file, changes[0].action, [FileOp(last.id, AppendToFile, None, last.proposed, changes[0].sha, "")])
  }

  function ConvertedFiles(accepted: seq<Change>, n: nat): Result<seq<Batch>, ValidationError>
    requires n <= |Keys(accepted)|
  {
    if n == 0 then Ok([])
    else
      var before := ConvertedFiles(accepted, n - 1);
      var file := Keys(accepted)[n - 1];
      KeysHaveGroups(accepted, file);
      var batch := ConvertedGroup(file, SortBy(ByRank, Group(accepted, file)));
      if before.Err? || batch.Err? then Err(ValidationError) else Ok(before.value + [batch.value])
  }

  function ChangeIds(changes: seq<Change>): seq<string> {
    seq(|changes|, i requires 0 <= i < |changes| => changes[i].id)
  }

  function ChangeFiles(changes: seq<Change>): seq<File>
    requires forall i :: 0 <= i < |changes| ==> IsComplete(changes[i])
  {
    seq(|changes|, i requires 0 <= i < |changes| => FileOf(changes[i]))
  }

  predicate Repeats<T(==)>(xs: seq<T>) {
    exists i :: 0 <= i < |xs| && multiset(xs)[xs[i]] > 1
  }

  /** `_normalize_and_validate`: the batches of the request, from the older form when only that is given. */
  function Normalized(accepted: seq<Change>, batches: seq<Batch>): Result<seq<Batch>, ValidationError>
    requires forall i :: 0 <= i < |accepted| ==> IsComplete(accepted[i])
  {
    if accepted != [] && (Repeats(ChangeIds(accepted)) || Repeats(ChangeFiles(accepted))) then Err(ValidationError)
    else
      var all := if accepted != [] && batches == [] then ConvertedFiles(accepted, |Keys(accepted)|) else Ok(batches);
      if all.Err? || !RequestOk(all.value) then Err(ValidationError) else all
  }
}
