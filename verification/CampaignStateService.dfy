/**
  The Campaign State services as they run: queries, dictionaries and lists updated in place, rows
  inserted one by one against the table's constraints.  Each method is proved to do to the
  tables exactly what its step does.
 */
module CampaignStateService {
  import opened Wrappers
  import opened Seqs
  import opened CampaignState
  import opened CampaignStateInitial
  import opened CampaignStateProposals
  import opened CampaignStateSteps
  import opened CampaignStateInvariants

  // ---- lists of items under construction ----

  datatype Entry = Entry(key: string, item: Item)

  ghost predicate DistinctEntries(l: seq<Entry>) {
    forall i, j :: 0 <= i < j < |l| ==> l[i].key != l[j].key
  }

  /** The list holds exactly the rows of field `f`, in some order. */
  ghost predicate Lists(l: seq<Entry>, table: map<(Id, string), Item>, f: Id) {
    && DistinctEntries(l)
    && (forall i :: 0 <= i < |l| ==> (f, l[i].key) in table && table[(f, l[i].key)] == l[i].item)
    && (forall k: string :: (f, k) in table ==> exists i :: 0 <= i < |l| && l[i].key == k)
  }

  ghost predicate Represents(items: map<Id, seq<Entry>>, table: map<(Id, string), Item>) {
    && (forall f :: f in items ==> Lists(items[f], table, f))
    && (forall k :: k in table ==> k.0 in items)
  }

  function EntryKeys(l: seq<Entry>): set<string> {
    set i | 0 <= i < |l| :: l[i].key
  }

  function Without(l: seq<Entry>, key: string): seq<Entry> {
    if l == [] then []
    else Without(l[..|l| - 1], key) + if l[|l| - 1].key != key then [l[|l| - 1]] else []
  }

  lemma EntryKeysAre(l: seq<Entry>, table: map<(Id, string), Item>, f: Id)
    requires Lists(l, table, f)
    ensures EntryKeys(l) == ItemKeysOf(table, f)
  {
    forall k | k in ItemKeysOf(table, f) ensures k in EntryKeys(l) {
      assert (f, k) in table;
      var i :| 0 <= i < |l| && l[i].key == k;
    }
  }

  lemma {:induction false} WithoutMembers(l: seq<Entry>, key: string, e: Entry)
    ensures e in Without(l, key) <==> e in l && e.key != key
  {
    if l != [] {
      WithoutMembers(l[..|l| - 1], key, e);
      assert l == l[..|l| - 1] + [l[|l| - 1]];
    }
  }

  lemma {:induction false} WithoutDistinct(l: seq<Entry>, key: string)
    requires DistinctEntries(l)
    ensures DistinctEntries(Without(l, key))
  {
    if l != [] {
      var n := |l| - 1;
      WithoutDistinct(l[..n], key);
      forall e | e in Without(l[..n], key) ensures e.key != l[n].key {
        WithoutMembers(l[..n], key, e);
        var i :| 0 <= i < n && l[..n][i] == e;
        assert l[i] == e;
      }
    }
  }

  lemma ListsAppend(l: seq<Entry>, table: map<(Id, string), Item>, f: Id, e: Entry)
    requires Lists(l, table, f) && (f, e.key) !in table
    ensures Lists(l + [e], table[(f, e.key) := e.item], f)
  {
    var l', table' := l + [e], table[(f, e.key) := e.item];
    forall k: string | (f, k) in table' ensures exists i :: 0 <= i < |l'| && l'[i].key == k {
      if k == e.key {
        assert l'[|l|].key == k;
      } else {
        var i :| 0 <= i < |l| && l[i].key == k;
        assert l'[i].key == k;
      }
    }
  }

  lemma ListsUpdate(l: seq<Entry>, table: map<(Id, string), Item>, f: Id, i: nat, item: Item)
    requires Lists(l, table, f) && i < |l|
    ensures Lists(l[i := Entry(l[i].key, item)], table[(f, l[i].key) := item], f)
  {
    var l', table' := l[i := Entry(l[i].key, item)], table[(f, l[i].key) := item];
    assert forall j :: 0 <= j < |l| ==> l'[j].key == l[j].key;
    forall k: string | (f, k) in table' ensures exists j :: 0 <= j < |l'| && l'[j].key == k {
      assert (f, k) in table;
      var j :| 0 <= j < |l| && l[j].key == k;
      assert l'[j].key == k;
    }
  }

  lemma ListsRemove(l: seq<Entry>, table: map<(Id, string), Item>, f: Id, key: string)
    requires Lists(l, table, f)
    ensures Lists(Without(l, key), table - {(f, key)}, f)
  {
    var l', table' := Without(l, key), table - {(f, key)};
    WithoutDistinct(l, key);
    forall i | 0 <= i < |l'| ensures (f, l'[i].key) in table' && table'[(f, l'[i].key)] == l'[i].item {
      WithoutMembers(l, key, l'[i]);
      var j :| 0 <= j < |l| && l[j] == l'[i];
    }
    forall k: string | (f, k) in table' ensures exists i :: 0 <= i < |l'| && l'[i].key == k {
      assert (f, k) in table;
      var j :| 0 <= j < |l| && l[j].key == k;
      WithoutMembers(l, key, l[j]);
      var i :| 0 <= i < |l'| && l'[i] == l[j];
    }
  }

  /** Rows of other fields do not matter to a list. */
  lemma ListsElsewhere(l: seq<Entry>, table: map<(Id, string), Item>, table': map<(Id, string), Item>, f: Id)
    requires Lists(l, table, f)
    requires forall k: string :: ((f, k) in table <==> (f, k) in table') && ((f, k) in table ==> table[(f, k)] == table'[(f, k)])
    ensures Lists(l, table', f)
  {
  }

  lemma RepresentsAfter(items: map<Id, seq<Entry>>, table: map<(Id, string), Item>, f: Id, l: seq<Entry>, table': map<(Id, string), Item>)
    requires Represents(items, table) && f in items && Lists(l, table', f)
    requires forall k: (Id, string) :: k.0 != f ==> (k in table <==> k in table') && (k in table ==> table[k] == table'[k])
    ensures Represents(items[f := l], table')
  {
    forall g | g in items && g != f ensures Lists(items[g], table', g) {
      assert Lists(items[g], table, g);
      ListsElsewhere(items[g], table, table', g);
    }
  }

  /** The index of the item with the key, or -1. */
  method FindEntry(l: seq<Entry>, key: string) returns (i: int)
    ensures -1 <= i < |l|
    ensures i == -1 ==> forall j :: 0 <= j < |l| ==> l[j].key != key
    ensures i >= 0 ==> l[i].key == key
  {
    i := 0;
    while i < |l|
      invariant 0 <= i <= |l|
      invariant forall j :: 0 <= j < i ==> l[j].key != key
    {
      if l[i].key == key {
        return;
      }
      i := i + 1;
    }
    i := -1;
  }

  /** One operation of a patch on the dictionaries being built. */
  method ApplyOperation(f: Id, op: Op, values: map<Id, Value>, items: map<Id, seq<Entry>>, ghost rows: Rows)
      returns (newValues: map<Id, Value>, newItems: map<Id, seq<Entry>>)
    requires values == rows.values && Represents(items, rows.items)
    requires op.Mode() == ItemList ==> f in items
    ensures newValues == ApplyOp(rows, f, op).values
    ensures Represents(newItems, ApplyOp(rows, f, op).items)
    ensures newItems.Keys == items.Keys
  {
    hide Represents, Lists, WithPrefix, NextKey, EntryKeys, ItemKeysOf;
    newValues, newItems := values, items;
    match op {
      case ReplaceSingle(_, _, refs, text) =>
        newValues := values[f := Value(text, refs)];
      case ClearSingle(_, _, _) =>
        newValues := values - {f};
      case AddListItem(key, _, refs, text) =>
        newItems := AddEntry(f, key, Item(text, false, refs), items, rows.items);
      case UpdateListItem(_, _, refs, k, text) =>
        var i := FindEntry(items[f], k);
        Located(items, rows.items, f, k, i);
        if i >= 0 {
          newItems := SetEntry(f, i, items[f][i].item.(text := text, refs := refs), items, rows.items);
        }
      case ResolveListItem(_, _, refs, k) =>
        var i := FindEntry(items[f], k);
        Located(items, rows.items, f, k, i);
        if i >= 0 {
          newItems := SetEntry(f, i, items[f][i].item.(resolved := true, refs := refs), items, rows.items);
        }
      case RemoveListItem(_, _, _, k) =>
        newItems := RemoveEntry(f, k, items, rows.items);
    }
  }

  lemma Located(items: map<Id, seq<Entry>>, table: map<(Id, string), Item>, f: Id, k: string, i: int)
    requires Represents(items, table) && f in items
    requires -1 <= i < |items[f]|
    requires i == -1 ==> forall j :: 0 <= j < |items[f]| ==> items[f][j].key != k
    requires i >= 0 ==> items[f][i].key == k
    ensures i >= 0 <==> (f, k) in table
    ensures i >= 0 ==> table[(f, k)] == items[f][i].item
  {
    assert Lists(items[f], table, f);
  }

  method AddEntry(f: Id, fieldKey: string, item: Item, items: map<Id, seq<Entry>>, ghost table: map<(Id, string), Item>)
      returns (newItems: map<Id, seq<Entry>>)
    requires Represents(items, table) && f in items
    ensures Represents(newItems, table[(f, AddedKey(table, f, fieldKey)) := item])
    ensures newItems.Keys == items.Keys
  {
    hide NextKey, WithPrefix;
    var existing := items[f];
    var existingKeys := EntryKeys(existing);
    assert Lists(existing, table, f);
    EntryKeysAre(existing, table, f);
    var newKey := NextItemKey(fieldKey, existingKeys, |WithPrefix(existingKeys, fieldKey + "-")|);
    assert newKey == AddedKey(table, f, fieldKey);
    AddedKeyIsFree(table, f, fieldKey);
    ListsAppend(existing, table, f, Entry(newKey, item));
    RepresentsAfter(items, table, f, existing + [Entry(newKey, item)], table[(f, newKey) := item]);
    newItems := items[f := existing + [Entry(newKey, item)]];
  }

  lemma AddedKeyIsFree(table: map<(Id, string), Item>, f: Id, fieldKey: string)
    ensures (f, AddedKey(table, f, fieldKey)) !in table
  {
    hide WithPrefix;
    var key := AddedKey(table, f, fieldKey);
    assert key !in ItemKeysOf(table, f);
    assert forall p :: p in table && p.0 == f ==> p.1 in ItemKeysOf(table, f);
  }

  method SetEntry(f: Id, i: nat, item: Item, items: map<Id, seq<Entry>>, ghost table: map<(Id, string), Item>)
      returns (newItems: map<Id, seq<Entry>>)
    requires Represents(items, table) && f in items && i < |items[f]|
    ensures Represents(newItems, table[(f, items[f][i].key) := item])
    ensures newItems.Keys == items.Keys
  {
    var l := items[f];
    assert Lists(l, table, f);
    ListsUpdate(l, table, f, i, item);
    RepresentsAfter(items, table, f, l[i := Entry(l[i].key, item)], table[(f, l[i].key) := item]);
    newItems := items[f := l[i := Entry(l[i].key, item)]];
  }

  method RemoveEntry(f: Id, key: string, items: map<Id, seq<Entry>>, ghost table: map<(Id, string), Item>)
      returns (newItems: map<Id, seq<Entry>>)
    requires Represents(items, table) && f in items
    ensures Represents(newItems, table - {(f, key)})
    ensures newItems.Keys == items.Keys
  {
    assert Lists(items[f], table, f);
    ListsRemove(items[f], table, f, key);
    RepresentsAfter(items, table, f, Without(items[f], key), table - {(f, key)});
    newItems := items[f := Without(items[f], key)];
  }

  // ---- loading and inserting rows ----

  /** The item rows of a version grouped by field; the database gives them in any order. */
  method LoadItems(table: map<(Id, string), Item>) returns (items: map<Id, seq<Entry>>)
    ensures Represents(items, table)
    ensures forall f :: f in items ==> exists k :: k in table && k.0 == f
  {
    hide Represents;
    items := map[];
    var rest := table.Keys;
    ghost var loaded: map<(Id, string), Item> := map[];
    NothingRepresented();
    while rest != {}
      invariant rest <= table.Keys && loaded == table - rest
      invariant Represents(items, loaded)
      invariant forall f :: f in items ==> exists k :: k in table && k.0 == f
      decreases rest
    {
      var k :| k in rest;
      items := LoadRow(items, k, table[k], loaded);
      rest := rest - {k};
      loaded := loaded[k := table[k]];
    }
    assert loaded == table;
  }

  lemma NothingRepresented()
    ensures Represents(map[], map[])
  {
  }

  /** `setdefault(field_id, {})[item_key] = row` */
  method LoadRow(items: map<Id, seq<Entry>>, k: (Id, string), item: Item, ghost loaded: map<(Id, string), Item>)
      returns (newItems: map<Id, seq<Entry>>)
    requires Represents(items, loaded) && k !in loaded
    ensures Represents(newItems, loaded[k := item])
    ensures newItems.Keys == items.Keys + {k.0}
  {
    var (f, key) := k;
    ghost var base := if f in items then items else items[f := []];
    var l := if f in items then items[f] else [];
    assert Represents(base, loaded) by {
      if f !in items {
        OpenList(items, loaded, f);
      }
    }
    assert Lists(l, loaded, f);
    ListsAppend(l, loaded, f, Entry(key, item));
    RepresentsAfter(base, loaded, f, l + [Entry(key, item)], loaded[k := item]);
    newItems := items[f := l + [Entry(key, item)]];
    assert newItems == base[f := l + [Entry(key, item)]];
  }

  /** A field without rows has the empty list. */
  lemma OpenList(items: map<Id, seq<Entry>>, table: map<(Id, string), Item>, f: Id)
    requires Represents(items, table) && f !in items
    ensures Represents(items[f := []], table)
  {
    forall k: string ensures (f, k) !in table {
      var p := (f, k);
      assert p in table ==> p.0 in items;
    }
    forall g | g in items ensures Lists(items[g], table, g) {
    }
  }

  /** Inserts value rows one by one; each must refer to a field and be new. */
  method InsertValues(fields: map<Id, Field>, newValues: map<Id, Value>) returns (table: map<Id, Value>, ok: bool)
    ensures ok <==> forall f :: f in newValues ==> f in fields
    ensures ok ==> table == newValues
  {
    table, ok := map[], true;
    var rest := newValues.Keys;
    while rest != {}
      invariant rest <= newValues.Keys && table == newValues - rest
      invariant ok <==> forall f :: f in newValues && f !in rest ==> f in fields
      decreases rest
    {
      var f :| f in rest;
      ok := ok && f in fields && f !in table;
      table := table[f := newValues[f]];
      rest := rest - {f};
    }
    assert newValues - {} == newValues;
  }

  lemma NoRowsUnique()
    ensures RowsUnique([]) && ItemTable([]) == map[]
  {
  }

  lemma ItemTableStep(rows: seq<ItemRow>, i: nat)
    requires i < |rows|
    ensures ItemTable(rows[..i + 1]) == ItemTable(rows[..i])[(rows[i].field, rows[i].key) := rows[i].item]
  {
    PrefixStep(rows, i);
  }

  lemma RowsUniqueStep(rows: seq<ItemRow>, i: nat)
    requires i < |rows|
    ensures RowsUnique(rows[..i + 1]) <==> RowsUnique(rows[..i]) && (rows[i].field, rows[i].key) !in ItemTable(rows[..i])
    ensures ItemTable(rows[..i + 1]) == ItemTable(rows[..i])[(rows[i].field, rows[i].key) := rows[i].item]
  {
    ItemTableStep(rows, i);
    hide ItemTable;
    ItemTableKeys(rows[..i], (rows[i].field, rows[i].key));
    assert rows[..i + 1] == rows[..i] + [rows[i]];
  }

  /** Inserts item rows one by one; each must refer to a field and have a new (field, key). */
  method InsertItems(fields: map<Id, Field>, rows: seq<ItemRow>) returns (table: map<(Id, string), Item>, ok: bool)
    ensures ok <==> RowsUnique(rows) && forall i :: 0 <= i < |rows| ==> rows[i].field in fields
    ensures table == ItemTable(rows)
  {
    hide RowsUnique, ItemTable;
    NoRowsUnique();
    table, ok := map[], true;
    for i := 0 to |rows|
      invariant table == ItemTable(rows[..i])
      invariant ok <==> RowsUnique(rows[..i]) && forall j :: 0 <= j < i ==> rows[j].field in fields
    {
      RowsUniqueStep(rows, i);
      var k := (rows[i].field, rows[i].key);
      ok := ok && rows[i].field in fields && k !in table;
      table := table[k := rows[i].item];
    }
    assert rows[..|rows|] == rows;
  }

  // ---- the rows of a new version as a list ----

  /** The item rows of the dictionary, field by field. */
  method FlattenItems(items: map<Id, seq<Entry>>, ghost table: map<(Id, string), Item>) returns (rows: seq<ItemRow>)
    requires Represents(items, table)
    ensures RowsUnique(rows)
    ensures ItemTable(rows) == table
  {
    hide Lists, RowOf, HasRow, ItemTable;
    rows := [];
    var rest := items.Keys;
    while rest != {}
      invariant rest <= items.Keys
      invariant RowsUnique(rows)
      invariant forall i :: 0 <= i < |rows| ==> RowOf(rows[i], table) && rows[i].field in items.Keys - rest
      invariant forall k :: k in table && k.0 !in rest ==> HasRow(rows, k)
      decreases rest
    {
      var f :| f in rest;
      assert Lists(items[f], table, f);
      rows := AppendList(rows, f, items[f], table);
      rest := rest - {f};
    }
    TableOfRows(rows, table);
  }

  ghost predicate RowOf(row: ItemRow, table: map<(Id, string), Item>) {
    (row.field, row.key) in table && table[(row.field, row.key)] == row.item
  }

  ghost predicate HasRow(rows: seq<ItemRow>, k: (Id, string)) {
    exists i :: 0 <= i < |rows| && (rows[i].field, rows[i].key) == k
  }

  method AppendList(before: seq<ItemRow>, f: Id, l: seq<Entry>, ghost table: map<(Id, string), Item>) returns (rows: seq<ItemRow>)
    requires Lists(l, table, f) && RowsUnique(before)
    requires forall i :: 0 <= i < |before| ==> before[i].field != f && RowOf(before[i], table)
    ensures RowsUnique(rows)
    ensures forall i :: 0 <= i < |rows| ==> RowOf(rows[i], table) && (rows[i].field == f || exists j :: 0 <= j < |before| && before[j].field == rows[i].field)
    ensures forall k :: HasRow(before, k) || (k in table && k.0 == f) ==> HasRow(rows, k)
  {
    rows := before;
    for i := 0 to |l|
      invariant |rows| == |before| + i && rows[..|before|] == before
      invariant forall j :: 0 <= j < i ==> rows[|before| + j] == ItemRow(f, l[j].key, l[j].item)
    {
      rows := rows + [ItemRow(f, l[i].key, l[i].item)];
    }
    assert forall j :: 0 <= j < |before| ==> rows[j] == before[j];
    assert forall j :: |before| <= j < |rows| ==> rows[j] == ItemRow(f, l[j - |before|].key, l[j - |before|].item);
    forall k | HasRow(before, k) || (k in table && k.0 == f) ensures HasRow(rows, k) {
      if HasRow(before, k) {
        var j :| 0 <= j < |before| && (before[j].field, before[j].key) == k;
        assert (rows[j].field, rows[j].key) == k;
      } else {
        assert k == (f, k.1);
        var j :| 0 <= j < |l| && l[j].key == k.1;
        assert (rows[|before| + j].field, rows[|before| + j].key) == k;
      }
    }
  }

  lemma {:induction false} ItemTableOf(rows: seq<ItemRow>, i: nat)
    requires RowsUnique(rows) && i < |rows|
    ensures (rows[i].field, rows[i].key) in ItemTable(rows) && ItemTable(rows)[(rows[i].field, rows[i].key)] == rows[i].item
  {
    var n := |rows| - 1;
    if i < n {
      ItemTableOf(rows[..n], i);
    }
  }

  lemma TableOfRows(rows: seq<ItemRow>, table: map<(Id, string), Item>)
    requires RowsUnique(rows)
    requires forall i :: 0 <= i < |rows| ==> RowOf(rows[i], table)
    requires forall k :: k in table ==> HasRow(rows, k)
    ensures ItemTable(rows) == table
  {
    hide ItemTable;
    forall k | k in table ensures k in ItemTable(rows) && ItemTable(rows)[k] == table[k] {
      var i :| 0 <= i < |rows| && (rows[i].field, rows[i].key) == k;
      ItemTableOf(rows, i);
      assert RowOf(rows[i], table);
    }
    forall k | k in ItemTable(rows) ensures k in table {
      ItemTableKeys(rows, k);
      var i :| 0 <= i < |rows| && (rows[i].field, rows[i].key) == k;
      assert RowOf(rows[i], table);
    }
  }

  // ---- validation ----

  method ValidatePatch(byKey: map<string, Id>, fields: map<Id, Field>, base: Rows, ops: seq<Op>) returns (rejection: Option<Error>)
    ensures rejection == FirstRejection(byKey, fields, base, ops, |ops|)
  {
    hide CheckOp;
    for i := 0 to |ops|
      invariant FirstRejection(byKey, fields, base, ops, i).None?
    {
      rejection := CheckOp(byKey, fields, base, i, ops[i]);
      if rejection.Some? {
        RejectionStands(byKey, fields, base, ops, i + 1, |ops|);
        return;
      }
    }
    rejection := None;
  }

  /** The first rejection is the one that is reported. */
  lemma {:induction false} RejectionStands(byKey: map<string, Id>, fields: map<Id, Field>, base: Rows, ops: seq<Op>, m: nat, n: nat)
    requires m <= n <= |ops| && FirstRejection(byKey, fields, base, ops, m).Some?
    ensures FirstRejection(byKey, fields, base, ops, n) == FirstRejection(byKey, fields, base, ops, m)
    decreases n
  {
    if m < n {
      RejectionStands(byKey, fields, base, ops, m, n - 1);
    }
  }

  // ---- the rows a patch makes ----

  /** Every list field of the campaign gets a list, empty when the base has no items of it. */
  method OpenLists(fields: map<Id, Field>, c: Id, items: map<Id, seq<Entry>>, ghost table: map<(Id, string), Item>)
      returns (newItems: map<Id, seq<Entry>>)
    requires Represents(items, table)
    ensures Represents(newItems, table)
    ensures forall f :: f in fields && fields[f].campaign == c && fields[f].mode == ItemList ==> f in newItems
  {
    newItems := items;
    var rest := fields.Keys;
    while rest != {}
      invariant rest <= fields.Keys
      invariant Represents(newItems, table)
      invariant forall f :: f in fields && f !in rest && fields[f].campaign == c && fields[f].mode == ItemList ==> f in newItems
      decreases rest
    {
      var f :| f in rest;
      if fields[f].campaign == c && fields[f].mode == ItemList && f !in newItems {
        OpenList(newItems, table, f);
        newItems := newItems[f := []];
      }
      rest := rest - {f};
    }
  }

  /** The loop over the operations. */
  method ApplyOperations(byKey: map<string, Id>, ops: seq<Op>, values: map<Id, Value>, items: map<Id, seq<Entry>>, ghost base: Rows)
      returns (newValues: map<Id, Value>, newItems: map<Id, seq<Entry>>)
    requires KeysKnown(byKey, ops) && values == base.values && Represents(items, base.items)
    requires forall i :: 0 <= i < |ops| && ops[i].Mode() == ItemList ==> byKey[ops[i].fieldKey] in items
    ensures newValues == FoldOps(base, byKey, ops, |ops|).values
    ensures Represents(newItems, FoldOps(base, byKey, ops, |ops|).items)
  {
    hide Represents, ApplyOp;
    newValues, newItems := values, items;
    for i := 0 to |ops|
      invariant newValues == FoldOps(base, byKey, ops, i).values
      invariant Represents(newItems, FoldOps(base, byKey, ops, i).items)
      invariant newItems.Keys == items.Keys
    {
      newValues, newItems := ApplyOperation(byKey[ops[i].fieldKey], ops[i], newValues, newItems, FoldOps(base, byKey, ops, i));
    }
  }

  /** The finished dictionaries inserted row by row; rows that fit meet no constraint violation. */
  method InsertRows(fields: map<Id, Field>, ghost c: Id, values: map<Id, Value>, items: map<Id, seq<Entry>>, ghost finished: Rows)
      returns (rows: Rows, ok: bool)
    requires values == finished.values && Represents(items, finished.items) && RowsFit(finished, fields, c)
    ensures ok && rows == finished
  {
    hide Represents, ItemTable;
    var valueTable, valuesOk := InsertValues(fields, values);
    var itemRows := FlattenItems(items, finished.items);
    var itemTable, itemsOk := InsertItems(fields, itemRows);
    RowsReferToFields(itemRows, fields, c, finished);
    rows, ok := Rows(valueTable, itemTable), valuesOk && itemsOk;
  }

  /** The operations applied to the dictionaries loaded from the base version, then inserted. */
  method PatchedRows(fields: map<Id, Field>, c: Id, byKey: map<string, Id>, base: Rows, ops: seq<Op>) returns (rows: Rows, ok: bool)
    requires OpsAccepted(byKey, fields, base, ops) && RowsFit(base, fields, c)
    requires forall k :: k in byKey && byKey[k] in fields ==> fields[byKey[k]].campaign == c
    ensures KeysKnown(byKey, ops)
    ensures ok && rows == FoldOps(base, byKey, ops, |ops|)
  {
    AcceptedOpsKnown(byKey, fields, base, ops);
    hide Represents, FoldOps, FirstRejection;
    var loaded := LoadItems(base.items);
    var withLists := OpenLists(fields, c, loaded, base.items);
    var newValues, newItems := ApplyOperations(byKey, ops, base.values, withLists, base);
    FoldFits(base, fields, c, byKey, ops, |ops|);
    rows, ok := InsertRows(fields, c, newValues, newItems, FoldOps(base, byKey, ops, |ops|));
  }

  lemma RowsReferToFields(itemRows: seq<ItemRow>, fields: map<Id, Field>, c: Id, rows: Rows)
    requires RowsUnique(itemRows) && ItemTable(itemRows) == rows.items && RowsFit(rows, fields, c)
    ensures forall i :: 0 <= i < |itemRows| ==> itemRows[i].field in fields
  {
    hide ItemTable;
    forall i | 0 <= i < |itemRows| ensures itemRows[i].field in fields {
      ItemTableOf(itemRows, i);
    }
  }

  lemma FieldsByKeyIs(fields: map<Id, Field>, c: Id, byKey: map<string, Id>)
    requires KeysUnique(fields)
    requires forall f :: f in fields && fields[f].campaign == c ==> fields[f].key in byKey && byKey[fields[f].key] == f
    requires forall k :: k in byKey ==> byKey[k] in fields && fields[byKey[k]].campaign == c && fields[byKey[k]].key == k
    ensures byKey == FieldsByKey(fields, c)
  {
    assert byKey.Keys == FieldsByKey(fields, c).Keys;
  }

  // ---- the database ----

  class Database {
    var campaigns: map<Id, int>
    var fields: map<Id, Field>
    var versions: map<Id, Version>

    constructor (campaigns: map<Id, int>)
      ensures View() == Store(campaigns, map[], map[]) && Inv(View())
    {
      this.campaigns, this.fields, this.versions := campaigns, map[], map[];
    }

    ghost function View(): Store
      reads this
    {
      Store(campaigns, fields, versions)
    }

    /** `{f.key: f for f in fields}` */
    method LoadFieldsByKey(c: Id) returns (byKey: map<string, Id>)
      requires KeysUnique(fields)
      ensures byKey == FieldsByKey(fields, c)
    {
      hide FieldsByKey;
      byKey := map[];
      var rest := fields.Keys;
      while rest != {}
        invariant rest <= fields.Keys
        invariant forall f :: f in fields && f !in rest && fields[f].campaign == c ==> fields[f].key in byKey && byKey[fields[f].key] == f
        invariant forall k :: k in byKey ==> byKey[k] in fields && fields[byKey[k]].campaign == c && fields[byKey[k]].key == k
        decreases rest
      {
        var f :| f in rest;
        if fields[f].campaign == c {
          byKey := byKey[fields[f].key := f];
        }
        rest := rest - {f};
      }
      FieldsByKeyIs(fields, c, byKey);
    }

    /** Order by state_version descending, limit 1. */
    method LatestVersion(c: Id) returns (latest: Option<Id>)
      requires Inv(View())
      ensures latest == Latest(versions, c)
    {
      hide Inv;
      latest := None;
      var rest := versions.Keys;
      while rest != {}
        invariant rest <= versions.Keys
        invariant latest.None? ==> forall v :: v in versions && v !in rest ==> versions[v].campaign != c
        invariant latest.Some? ==> latest.value in versions && versions[latest.value].campaign == c
        invariant latest.Some? ==> forall v :: v in versions && v !in rest && versions[v].campaign == c ==>
          versions[v].stateVersion <= versions[latest.value].stateVersion
        decreases rest
      {
        var v :| v in rest;
        if versions[v].campaign == c && (latest.None? || versions[v].stateVersion > versions[latest.value].stateVersion) {
          latest := Some(v);
        }
        rest := rest - {v};
      }
      if latest.Some? {
        LatestIsByInv(View(), c, latest.value);
      } else {
        LatestExists(versions, c);
      }
    }

    method ApplyPatch(c: Id, req: PatchRequest, createdBy: Option<string>, newId: Id) returns (outcome: Result<PatchResponse, Error>)
      requires Inv(View())
      modifies this
      ensures Step(View(), outcome) == PatchStep(old(View()), c, req, createdBy, newId)
      ensures Inv(View())
    {
      PatchKeepsInv(View(), c, req, createdBy, newId);
      if c !in campaigns {
        return Err(CampaignNotFound);
      }
      if req.configVersion != campaigns[c] {
        return Err(ConfigVersionConflict);
      }
      var byKey := LoadFieldsByKey(c);
      var latest := LatestVersion(c);
      var base := if latest.None? then None else Some(versions[latest.value].stateVersion);
      if req.base != base {
        return Err(StateVersionConflict);
      }
      var baseRows := if latest.None? then NO_ROWS else versions[latest.value].rows;
      var rejection := ValidatePatch(byKey, fields, baseRows, req.ops);
      if rejection.Some? {
        return Err(rejection.value);
      }
      if newId in versions {
        return Err(IntegrityError);
      }
      BaseRowsFit(View(), c, latest);
      var rows, ok := PatchedRows(fields, c, byKey, baseRows, req.ops);
      versions := versions[newId := Version(c, Successor(base), campaigns[c], Patch, base, createdBy, rows)];
      outcome := if ok then Ok(PatchResponse(Successor(base), campaigns[c], OpTypes(req.ops))) else Err(IntegrityError);
    }

    method ApplyInitial(c: Id, proposal: seq<ProposalField>, snapshot: seq<DocumentSnapshot>, docs: Documents, configVersion: int,
                        createdBy: Option<string>, newId: Id) returns (outcome: Result<(), Error>)
      requires Inv(View())
      modifies this
      ensures Step(View(), outcome) == InitialStep(old(View()), c, proposal, snapshot, docs, configVersion, createdBy, newId)
      ensures Inv(View())
    {
      hide StaleDocuments;
      InitialKeepsInv(View(), c, proposal, snapshot, docs, configVersion, createdBy, newId);
      if c !in campaigns {
        return Err(CampaignNotFound);
      }
      if configVersion != campaigns[c] {
        return Err(ConfigVersionConflict);
      }
      var latest := LatestVersion(c);
      if latest.Some? {
        return Err(InitialAlreadyApplied);
      }
      var stale := StaleDocuments(snapshot, docs);
      if stale != {} {
        return Err(SourceSnapshotStale(stale));
      }
      var byKey := LoadFieldsByKey(c);
      if newId in versions {
        return Err(IntegrityError);
      }
      var valueRows, itemRows := BuildInitialStateRows(proposal, byKey, fields);
      var values := DedupValues(valueRows);
      var dedupedItems := DedupItems(itemRows);
      InitialRowsFit(fields, c, proposal);
      FirstWinsUnique(itemRows);
      var valueTable, valuesOk := InsertValues(fields, values);
      var itemTable, itemsOk := InsertItems(fields, dedupedItems);
      RowsReferToFields(dedupedItems, fields, c, Rows(valueTable, itemTable));
      versions := versions[newId := Version(c, 1, campaigns[c], Initial, None, createdBy, Rows(valueTable, itemTable))];
      outcome := if valuesOk && itemsOk then Ok(()) else Err(IntegrityError);
    }

    method CreateField(c: Id, payload: FieldCreate, newId: Id) returns (outcome: Result<Field, Error>)
      requires Inv(View())
      modifies this
      ensures Step(View(), outcome) == CreateStep(old(View()), c, payload, newId)
      ensures Inv(View())
    {
      hide MatchesFieldKey, Utf8Length;
      CreateKeepsInv(View(), c, payload, newId);
      if c !in campaigns {
        return Err(CampaignNotFound);
      }
      if !MatchesFieldKey(payload.key) {
        return Err(InvalidFieldKey);
      }
      if Utf8Length(payload.description) > DESCRIPTION_MAX_BYTES {
        return Err(InvalidFieldData);
      }
      var byKey := LoadFieldsByKey(c);
      if newId in fields || payload.key in byKey {
        return Err(FieldKeyDuplicate);
      }
      var row := Field(c, payload.key, payload.labelText, payload.description, payload.mode, payload.enabled, payload.displayOrder);
      fields := fields[newId := row];
      campaigns := campaigns[c := campaigns[c] + 1];
      outcome := Ok(row);
    }

    /** `max(display_order)` of the campaign's fields, -1 when there is none. */
    method CurrentMaxDisplayOrder(c: Id) returns (max: int)
      ensures max == MaxDisplayOrder(fields, c)
    {
      var top: Option<Id> := None;
      var rest := fields.Keys;
      while rest != {}
        invariant rest <= fields.Keys
        invariant top.None? ==> forall f :: f in fields && f !in rest ==> fields[f].campaign != c
        invariant top.Some? ==> top.value in fields && fields[top.value].campaign == c
        invariant top.Some? ==> forall f :: f in fields && f !in rest && fields[f].campaign == c ==>
          fields[f].displayOrder <= fields[top.value].displayOrder
        decreases rest
      {
        var f :| f in rest;
        if fields[f].campaign == c && (top.None? || fields[f].displayOrder > fields[top.value].displayOrder) {
          top := Some(f);
        }
        rest := rest - {f};
      }
      if top.Some? {
        assert IsTop(fields, c, top.value);
      }
      max := if top.None? then -1 else fields[top.value].displayOrder;
    }

    /** Accepted suggestions become fields, then the effective proposal is applied; any failure undoes both. */
    method AcceptProposal(c: Id, stored: Option<StoredProposal>, req: AcceptRequest, now: int, docs: Documents,
                          createdBy: Option<string>, newIds: nat -> Id, newId: Id) returns (outcome: Result<(), Error>)
      requires Inv(View())
      modifies this
      ensures Step(View(), outcome) == AcceptStep(old(View()), c, stored, req, now, docs, createdBy, newIds, newId)
      ensures Inv(View())
    {
      hide Inv, InitialStep, Merged, Unified, CreateStep, AcceptedOf, ExistingKeys;
      if c !in campaigns {
        return Err(CampaignNotFound);
      }
      if stored.None? || stored.value.proposalId != req.proposalId {
        return Err(ProposalNotFound);
      }
      if stored.value.expiresAt <= now {
        return Err(ProposalExpired);
      }
      if stored.value.suggested != [] && stored.value.configVersion != req.configVersion {
        return Err(ConfigVersionConflict);
      }
      var accepted := AcceptedOf(stored.value.suggested, req.accepted, req.rejected);
      var savedFields, savedCampaigns := fields, campaigns;
      var failure := CreateSuggested(c, accepted, newIds);
      if failure.Some? {
        fields, campaigns := savedFields, savedCampaigns;
        return Err(failure.value);
      }
      var configVersion := if accepted == [] || c !in campaigns then req.configVersion else campaigns[c];
      var unified := UnifyProposal(stored.value.fields, accepted);
      var proposal := MergeOverrides(unified, req.overrides);
      ghost var created := View();
      outcome := ApplyInitial(c, proposal, stored.value.snapshot, docs, configVersion, createdBy, newId);
      if outcome.Err? {
        InitialRejected(created, c, proposal, stored.value.snapshot, docs, configVersion, createdBy, newId);
        fields, campaigns := savedFields, savedCampaigns;
      }
    }

    method CreateSuggested(c: Id, accepted: seq<Suggested>, newIds: nat -> Id) returns (failure: Option<Error>)
      requires Inv(View())
      modifies this
      ensures Inv(View()) && versions == old(versions)
      ensures var step := CreateAll(old(View()), c, ExistingKeys(old(fields), c), accepted, newIds, |accepted|);
        if failure.None? then step == Step(View(), Ok(())) else step == Step(old(View()), Err(failure.value))
    {
      hide Inv, CreateStep;
      var existingKeys := set f | f in fields && fields[f].campaign == c :: fields[f].key;
      for i := 0 to |accepted|
        invariant Inv(View()) && versions == old(versions)
        invariant CreateAll(old(View()), c, existingKeys, accepted, newIds, i) == Step(View(), Ok(()))
      {
        var sf := accepted[i];
        if sf.key in existingKeys {
          CreateAllStops(old(View()), c, existingKeys, accepted, newIds, i + 1, |accepted|);
          return Some(SuggestedFieldKeyConflict);
        }
        var max := CurrentMaxDisplayOrder(c);
        ghost var before := View();
        var payload := FieldCreate(sf.key, sf.labelText, sf.description, sf.mode, true, NextDisplayOrder(max));
        var created := CreateField(c, payload, newIds(i));
        CreateKeepsVersions(before, c, payload, newIds(i));
        if created.Err? {
          CreateAllStops(old(View()), c, existingKeys, accepted, newIds, i + 1, |accepted|);
          return Some(SuggestedFieldCreation);
        }
      }
      failure := None;
    }

    method UpdateField(c: Id, f: Id, u: FieldUpdate) returns (outcome: Result<Field, Error>)
      requires Inv(View())
      modifies this
      ensures Step(View(), outcome) == UpdateStep(old(View()), c, f, u)
      ensures Inv(View())
    {
      hide History, CheckUpdate;
      UpdateKeepsInv(View(), c, f, u);
      if f !in fields || fields[f].campaign != c {
        return Err(FieldNotFound);
      }
      var rejection := CheckUpdate(u);
      if rejection.Some? {
        return Err(rejection.value);
      }
      if NothingSent(u) {
        return Ok(fields[f]);
      }
      var row := fields[f];
      if u.labelText.Set? {
        row := row.(labelText := u.labelText.value);
      }
      if u.description.Set? {
        row := row.(description := u.description.value);
      }
      if u.enabled.Set? {
        row := row.(enabled := u.enabled.value);
      }
      if u.displayOrder.Set? {
        row := row.(displayOrder := u.displayOrder.value);
      }
      fields := fields[f := row];
      campaigns := campaigns[c := campaigns[c] + 1];
      outcome := Ok(row);
    }

    method DeleteField(c: Id, f: Id, createdBy: Option<string>, newId: Id) returns (outcome: Result<(), Error>)
      requires Inv(View())
      modifies this
      ensures Step(View(), outcome) == DeleteStep(old(View()), c, f, createdBy, newId)
      ensures Inv(View())
    {
      hide Inv, Purge, Referenced;
      DeleteKeepsInv(View(), c, f, createdBy, newId);
      if f !in fields || fields[f].campaign != c {
        return Err(FieldNotFound);
      }
      CampaignOfField(View(), f);
      var latest := LatestVersion(c);
      var before := versions;
      if latest.Some? {
        if newId in versions {
          return Err(IntegrityError);
        }
        var last := versions[latest.value];
        versions := versions[latest.value := last.(rows := Purge(last.rows, f))];
        versions := versions[newId := Version(c, last.stateVersion + 1, campaigns[c], Patch, Some(last.stateVersion), createdBy, NO_ROWS)];
      }
      if Referenced(versions, f) {
        versions := before;
        return Err(IntegrityError);
      }
      fields := fields - {f};
      campaigns := campaigns[c := campaigns[c] + 1];
      outcome := Ok(());
    }

    /** The payload must list every field of the campaign, once. */
    method CheckReorder(c: Id, ids: seq<Option<Id>>) returns (accepted: bool)
      ensures accepted == ReorderAccepted(View(), c, ids)
    {
      if ids == [] {
        return false;
      }
      if exists i :: 0 <= i < |ids| && ids[i].None? {
        return false;
      }
      SizeTellsDistinct(ids);
      if |ids| != |set id | id in ids| {
        return false;
      }
      var existing := set f | f in fields && fields[f].campaign == c;
      var requested := set i | 0 <= i < |ids| && ids[i].Some? :: ids[i].value;
      accepted := requested == existing;
    }

    method ReorderFields(c: Id, ids: seq<Option<Id>>) returns (outcome: Result<(), Error>)
      requires Inv(View())
      modifies this
      ensures Step(View(), outcome) == ReorderStep(old(View()), c, ids)
      ensures Inv(View())
    {
      ReorderKeepsInv(View(), c, ids);
      hide Inv, Reordered, PositionOf, ReorderAccepted;
      if c !in campaigns {
        return Err(CampaignNotFound);
      }
      var accepted := CheckReorder(c, ids);
      if !accepted {
        return Err(InvalidReorderPayload);
      }
      AcceptedIdsKnown(View(), c, ids);
      ghost var before := fields;
      NothingReordered(before, c);
      for i := 0 to |ids|
        invariant fields == Reordered(before, c, ids[..i])
        invariant forall j :: 0 <= j < |ids| ==> ids[j].Some? && ids[j].value in before && before[ids[j].value].campaign == c
        invariant campaigns == old(campaigns) && versions == old(versions)
      {
        ReorderedStep(before, c, ids, i);
        fields := fields[ids[i].value := fields[ids[i].value].(displayOrder := i)];
      }
      assert ids[..|ids|] == ids;
      campaigns := campaigns[c := campaigns[c] + 1];
      outcome := Ok(());
    }
  }

  lemma CreateKeepsVersions(s: Store, c: Id, payload: FieldCreate, newId: Id)
    requires Inv(s)
    ensures CreateStep(s, c, payload, newId).store.versions == s.versions
  {
    hide Inv, MatchesFieldKey, Utf8Length;
  }

  lemma InitialRejected(s: Store, c: Id, proposal: seq<ProposalField>, snapshot: seq<DocumentSnapshot>, docs: Documents,
                        configVersion: int, createdBy: Option<string>, newId: Id)
    requires Inv(s)
    ensures var step := InitialStep(s, c, proposal, snapshot, docs, configVersion, createdBy, newId);
      step.outcome.Err? ==> step.store == s
  {
    hide Inv, InitialRows, StaleDocuments;
  }

  /** The first failed creation ends the loop. */
  lemma {:induction false} CreateAllStops(s: Store, c: Id, existing: set<string>, accepted: seq<Suggested>, newIds: nat -> Id, m: nat, n: nat)
    requires Inv(s) && m <= n <= |accepted| && CreateAll(s, c, existing, accepted, newIds, m).outcome.Err?
    ensures CreateAll(s, c, existing, accepted, newIds, n) == CreateAll(s, c, existing, accepted, newIds, m)
    decreases n
  {
    hide Inv, CreateStep, SuggestedCreate;
    if m < n {
      CreateAllStops(s, c, existing, accepted, newIds, m, n - 1);
    }
  }

  lemma CampaignOfField(s: Store, f: Id)
    requires Inv(s) && f in s.fields
    ensures s.fields[f].campaign in s.campaigns
  {
    hide History;
  }

  lemma BaseRowsFit(s: Store, c: Id, latest: Option<Id>)
    requires Inv(s) && latest == Latest(s.versions, c)
    ensures RowsFit(BaseRows(s, latest), s.fields, c)
  {
    hide History;
    if latest.Some? {
      assert VersionFits(s, s.versions[latest.value]);
    }
  }

  lemma {:induction false} FirstWinsUnique(rows: seq<ItemRow>)
    ensures RowsUnique(FirstWins(rows))
    ensures forall i :: 0 <= i < |FirstWins(rows)| ==> (FirstWins(rows)[i].field, FirstWins(rows)[i].key) in Seen(rows)
  {
    if rows != [] {
      hide Seen;
      var n := |rows| - 1;
      FirstWinsUnique(rows[..n]);
      SeenStep(rows, n);
      assert rows[..n + 1] == rows;
    }
  }

  lemma AcceptedIdsKnown(s: Store, c: Id, ids: seq<Option<Id>>)
    requires ReorderAccepted(s, c, ids)
    ensures forall j :: 0 <= j < |ids| ==> ids[j].Some? && ids[j].value in s.fields && s.fields[ids[j].value].campaign == c
  {
    assert forall i :: 0 <= i < |ids| ==> ids[i].value in FieldsOf(s.fields, c);
  }

  lemma NothingReordered(fields: map<Id, Field>, c: Id)
    ensures Reordered(fields, c, []) == fields
  {
  }

  lemma ReorderedStep(fields: map<Id, Field>, c: Id, ids: seq<Option<Id>>, i: nat)
    requires i < |ids| && ids[i].Some? && ids[i].value in fields && fields[ids[i].value].campaign == c
    ensures var f, before := ids[i].value, Reordered(fields, c, ids[..i]);
      f in before && Reordered(fields, c, ids[..i + 1]) == before[f := before[f].(displayOrder := i)]
  {
    PrefixStep(ids, i);
  }
}
