/** A patch is a fold that works field by field. */
module CampaignStatePatchTheorems {
  import opened Wrappers
  import opened CampaignState

  /** What a version holds for one field. */
  datatype FieldState = FieldState(value: Option<Value>, items: map<string, Item>)

  ghost function StateOf(rows: Rows, f: Id): FieldState {
    FieldState(if f in rows.values then Some(rows.values[f]) else None,
               map k | k in rows.items && k.0 == f :: k.1 := rows.items[k])
  }

  /** One operation on what its field holds. */
  ghost function ApplyToField(x: FieldState, op: Op): FieldState {
    match op
    case ReplaceSingle(_, _, refs, text) => x.(value := Some(Value(text, refs)))
    case ClearSingle(_, _, _) => x.(value := None)
    case AddListItem(fieldKey, _, refs, text) =>
      var key := NextKey(fieldKey, x.items.Keys, |WithPrefix(x.items.Keys, fieldKey + "-")|);
      x.(items := x.items[key := Item(text, false, refs)])
    case UpdateListItem(_, _, refs, k, text) =>
      if k in x.items then x.(items := x.items[k := Item(text, x.items[k].resolved, refs)]) else x
    case ResolveListItem(_, _, refs, k) =>
      if k in x.items then x.(items := x.items[k := Item(x.items[k].text, true, refs)]) else x
    case RemoveListItem(_, _, _, k) => x.(items := x.items - {k})
  }

  /** The operations on field `f` among the first `n`, in order. */
  ghost function OpsOn(f: Id, byKey: map<string, Id>, ops: seq<Op>, n: nat): seq<Op>
    requires n <= |ops| && KeysKnown(byKey, ops)
  {
    if n == 0 then []
    else OpsOn(f, byKey, ops, n - 1) + if byKey[ops[n - 1].fieldKey] == f then [ops[n - 1]] else []
  }

  ghost function FoldField(x: FieldState, ops: seq<Op>): FieldState {
    if ops == [] then x else ApplyToField(FoldField(x, ops[..|ops| - 1]), ops[|ops| - 1])
  }

  lemma ItemKeysAre(rows: Rows, f: Id)
    ensures StateOf(rows, f).items.Keys == ItemKeysOf(rows.items, f)
  {
  }

  /** Storing an item row of field `f`, seen from the field; likewise dropping and reading one. */
  lemma ItemStored(rows: Rows, f: Id, k: string, item: Item)
    ensures StateOf(rows.(items := rows.items[(f, k) := item]), f) ==
      StateOf(rows, f).(items := StateOf(rows, f).items[k := item])
  {
    assert StateOf(rows.(items := rows.items[(f, k) := item]), f).items == StateOf(rows, f).items[k := item];
  }

  lemma ItemDropped(rows: Rows, f: Id, k: string)
    ensures StateOf(rows.(items := rows.items - {(f, k)}), f) ==
      StateOf(rows, f).(items := StateOf(rows, f).items - {k})
  {
    assert StateOf(rows.(items := rows.items - {(f, k)}), f).items == StateOf(rows, f).items - {k};
  }

  lemma ItemRead(rows: Rows, f: Id, k: string)
    ensures (f, k) in rows.items <==> k in StateOf(rows, f).items
    ensures (f, k) in rows.items ==> StateOf(rows, f).items[k] == rows.items[(f, k)]
  {
  }

  /** An operation acts on its own field as `ApplyToField`... */
  lemma OpOnItsField(rows: Rows, f: Id, op: Op)
    ensures StateOf(ApplyOp(rows, f, op), f) == ApplyToField(StateOf(rows, f), op)
  {
    hide NextKey, WithPrefix, ItemKeysOf;
    match op
    case ReplaceSingle(_, _, refs, text) =>
    case ClearSingle(_, _, _) =>
    case AddListItem(key, _, refs, text) =>
      hide StateOf;
      ItemKeysAre(rows, f);
      ItemStored(rows, f, AddedKey(rows.items, f, key), Item(text, false, refs));
    case UpdateListItem(_, _, refs, k, text) =>
      hide StateOf;
      ItemRead(rows, f, k);
      if (f, k) in rows.items {
        ItemStored(rows, f, k, Item(text, rows.items[(f, k)].resolved, refs));
      }
    case ResolveListItem(_, _, refs, k) =>
      hide StateOf;
      ItemRead(rows, f, k);
      if (f, k) in rows.items {
        ItemStored(rows, f, k, Item(rows.items[(f, k)].text, true, refs));
      }
    case RemoveListItem(_, _, _, k) =>
      hide StateOf;
      ItemDropped(rows, f, k);
  }

  /** ... and on no other. */
  lemma OpOnOtherField(rows: Rows, f: Id, op: Op, g: Id)
    requires f != g
    ensures StateOf(ApplyOp(rows, f, op), g) == StateOf(rows, g)
  {
    hide AddedKey;
    assert StateOf(ApplyOp(rows, f, op), g).items == StateOf(rows, g).items;
  }

  lemma FoldFieldSnoc(x: FieldState, ops: seq<Op>, op: Op)
    ensures FoldField(x, ops + [op]) == ApplyToField(FoldField(x, ops), op)
  {
    hide ApplyToField;
    assert (ops + [op])[..|ops|] == ops;
  }

  /** What a patch leaves in a field is the fold of the operations on that field alone. */
  lemma {:induction false} PatchIsPerField(rows: Rows, byKey: map<string, Id>, ops: seq<Op>, n: nat, f: Id)
    requires n <= |ops| && KeysKnown(byKey, ops)
    ensures StateOf(FoldOps(rows, byKey, ops, n), f) == FoldField(StateOf(rows, f), OpsOn(f, byKey, ops, n))
  {
    hide ApplyOp, ApplyToField, StateOf, FoldField;
    if n == 0 {
      NothingFolded(StateOf(rows, f));
    } else {
      var op := ops[n - 1];
      var g := byKey[op.fieldKey];
      var before, earlier := FoldOps(rows, byKey, ops, n - 1), OpsOn(f, byKey, ops, n - 1);
      PatchIsPerField(rows, byKey, ops, n - 1, f);
      if g == f {
        OpOnItsField(before, f, op);
        FoldFieldSnoc(StateOf(rows, f), earlier, op);
      } else {
        OpOnOtherField(before, g, op, f);
        assert OpsOn(f, byKey, ops, n) == earlier;
      }
    }
  }

  lemma NothingFolded(x: FieldState)
    ensures FoldField(x, []) == x
  {
  }

  lemma RowsDetermined(a: Rows, b: Rows)
    requires forall f :: StateOf(a, f) == StateOf(b, f)
    ensures a == b
  {
    forall f ensures f in a.values <==> f in b.values
             ensures f in a.values ==> a.values[f] == b.values[f] {
      assert StateOf(a, f) == StateOf(b, f);
    }
    assert a.values == b.values;
    forall k: (Id, string) ensures k in a.items <==> k in b.items
                           ensures k in a.items ==> a.items[k] == b.items[k] {
      var x, y := StateOf(a, k.0), StateOf(b, k.0);
      assert k in a.items <==> k.1 in x.items;
      assert k in b.items <==> k.1 in y.items;
      assert k in a.items ==> x.items[k.1] == a.items[k];
      assert k in b.items ==> y.items[k.1] == b.items[k];
    }
    assert a.items == b.items;
  }

  /**
    Operations on different fields may be reordered freely: two patches whose operations agree
    field by field leave the same rows.
   */
  lemma PatchOrderAcrossFields(rows: Rows, byKey: map<string, Id>, ops: seq<Op>, ops': seq<Op>)
    requires KeysKnown(byKey, ops) && KeysKnown(byKey, ops')
    requires forall f :: OpsOn(f, byKey, ops, |ops|) == OpsOn(f, byKey, ops', |ops'|)
    ensures FoldOps(rows, byKey, ops, |ops|) == FoldOps(rows, byKey, ops', |ops'|)
  {
    hide FoldOps, FoldField, StateOf;
    var a, b := FoldOps(rows, byKey, ops, |ops|), FoldOps(rows, byKey, ops', |ops'|);
    forall f ensures StateOf(a, f) == StateOf(b, f) {
      PatchIsPerField(rows, byKey, ops, |ops|, f);
      PatchIsPerField(rows, byKey, ops', |ops'|, f);
    }
    RowsDetermined(a, b);
  }

  lemma {:induction false} NoOpsOn(f: Id, byKey: map<string, Id>, ops: seq<Op>, n: nat)
    requires n <= |ops| && KeysKnown(byKey, ops)
    requires forall i :: 0 <= i < |ops| ==> byKey[ops[i].fieldKey] != f
    ensures OpsOn(f, byKey, ops, n) == []
  {
    if n > 0 {
      NoOpsOn(f, byKey, ops, n - 1);
    }
  }

  /** Fields that no operation names are carried over unchanged. */
  lemma UnnamedFieldsCarried(rows: Rows, byKey: map<string, Id>, ops: seq<Op>, f: Id)
    requires KeysKnown(byKey, ops)
    requires forall i :: 0 <= i < |ops| ==> byKey[ops[i].fieldKey] != f
    ensures StateOf(FoldOps(rows, byKey, ops, |ops|), f) == StateOf(rows, f)
  {
    hide FoldOps, StateOf, FoldField;
    PatchIsPerField(rows, byKey, ops, |ops|, f);
    NoOpsOn(f, byKey, ops, |ops|);
    NothingFolded(StateOf(rows, f));
  }

  /** Replacing sets the value of the field, clearing removes it; neither touches its items. */
  lemma SingleOps(x: FieldState, op: Op)
    ensures op.ReplaceSingle? ==> ApplyToField(x, op).value == Some(Value(op.text, op.refs))
    ensures op.ClearSingle? ==> ApplyToField(x, op).value == None
    ensures op.ReplaceSingle? || op.ClearSingle? ==> ApplyToField(x, op).items == x.items
  {
    hide NextKey, WithPrefix;
  }

  /** How many items of the field have a key that starts as the generated ones do. */
  function Numbered(x: FieldState, fieldKey: string): nat {
    |set k | k in x.items && fieldKey + "-" <= k|
  }

  /** An added item gets the first free key after those counted: nothing is overwritten. */
  lemma AddedItemIsNew(x: FieldState, op: Op)
    requires op.AddListItem?
    ensures exists n: nat ::
        && n > Numbered(x, op.fieldKey) && ItemKey(op.fieldKey, n) !in x.items
        && (forall m: nat :: Numbered(x, op.fieldKey) < m < n ==> ItemKey(op.fieldKey, m) in x.items)
        && ApplyToField(x, op) == x.(items := x.items[ItemKey(op.fieldKey, n) := Item(op.text, false, op.refs)])
  {
    hide ItemKey;
    var keys, count := x.items.Keys, Numbered(x, op.fieldKey);
    assert WithPrefix(keys, op.fieldKey + "-") == set k | k in x.items && op.fieldKey + "-" <= k;
    var n := NextIndex(op.fieldKey, keys, count + 1);
    assert n > count && ItemKey(op.fieldKey, n) !in x.items;
  }

  /**
    Validation looks at the base snapshot, so an operation on an item that an earlier operation
    of the same patch removed is accepted; it then changes nothing, and otherwise it changes its
    item only.
   */
  lemma NamedItemOps(x: FieldState, op: Op)
    requires op.NamesItem()
    ensures op.itemKey !in x.items ==> ApplyToField(x, op) == x
    ensures op.itemKey in x.items && !op.RemoveListItem? ==>
      var before, after := x.items[op.itemKey], ApplyToField(x, op).items[op.itemKey];
      && after.text == (if op.UpdateListItem? then op.text else before.text)
      && after.resolved == (op.ResolveListItem? || before.resolved)
      && after.refs == op.refs
    ensures ApplyToField(x, op).items.Keys == x.items.Keys - (if op.RemoveListItem? then {op.itemKey} else {})
    ensures forall k :: k in x.items && k != op.itemKey ==> k in ApplyToField(x, op).items && ApplyToField(x, op).items[k] == x.items[k]
    ensures ApplyToField(x, op).value == x.value
  {
    if op.RemoveListItem? && op.itemKey !in x.items {
      assert x.items - {op.itemKey} == x.items;
    }
  }
}
