/**
  The initial proposal on its way to the first state version: the rows it becomes, the two
  defensive dedup passes before they are inserted, and the snapshot freshness check.
 */
module CampaignStateInitial {
  import opened Wrappers
  import opened Seqs
  import opened CampaignState

  datatype ProposalStatus = Proposed | Empty | NeedsClarification

  datatype InitialItem = InitialItem(text: string, refs: seq<string>)

  /** One field of a (V1) proposal. */
  datatype ProposalField = ProposalField(fieldKey: string, mode: Mode, status: ProposalStatus,
                                         single: Option<InitialItem>, list: Option<seq<InitialItem>>)

  datatype ValueRow = ValueRow(field: Id, value: Value)

  datatype ItemRow = ItemRow(field: Id, key: string, item: Item)

  /** Does this proposal field bring rows of the given mode, and for which field? */
  predicate Contributes(byKey: map<string, Id>, fields: map<Id, Field>, p: ProposalField, mode: Mode) {
    && p.fieldKey in byKey && byKey[p.fieldKey] in fields
    && fields[byKey[p.fieldKey]].enabled
    && p.status == Proposed
    && fields[byKey[p.fieldKey]].mode == mode
    && if mode == SingleValue then p.single.Some? else p.list.Some?
  }

  function ValueRowsOf(byKey: map<string, Id>, fields: map<Id, Field>, p: ProposalField): seq<ValueRow> {
    if Contributes(byKey, fields, p, SingleValue)
    then [ValueRow(byKey[p.fieldKey], Value(p.single.value.text, p.single.value.refs))]
    else []
  }

  /** List items are numbered from 1 in the order of the proposal. */
  function NumberedItems(f: Id, fieldKey: string, items: seq<InitialItem>): (r: seq<ItemRow>)
    ensures |r| == |items|
  {
    seq(|items|, i requires 0 <= i < |items| =>
      ItemRow(f, ItemKey(fieldKey, i + 1), Item(items[i].text, false, items[i].refs)))
  }

  function ItemRowsOf(byKey: map<string, Id>, fields: map<Id, Field>, p: ProposalField): seq<ItemRow> {
    if Contributes(byKey, fields, p, ItemList)
    then NumberedItems(byKey[p.fieldKey], fields[byKey[p.fieldKey]].key, p.list.value)
    else []
  }

  function ValueRows(byKey: map<string, Id>, fields: map<Id, Field>, ps: seq<ProposalField>): seq<ValueRow> {
    if ps == [] then []
    else ValueRows(byKey, fields, ps[..|ps| - 1]) + ValueRowsOf(byKey, fields, ps[|ps| - 1])
  }

  function ItemRows(byKey: map<string, Id>, fields: map<Id, Field>, ps: seq<ProposalField>): seq<ItemRow> {
    if ps == [] then []
    else ItemRows(byKey, fields, ps[..|ps| - 1]) + ItemRowsOf(byKey, fields, ps[|ps| - 1])
  }

  /** The keys of the first `n` numbered items of a list. */
  function NumberedKeys(fieldKey: string, n: nat): set<string> {
    set m: nat | 1 <= m <= n :: ItemKey(fieldKey, m)
  }

  /** With the keys 1..n taken, the next key `_next_item_key` hands out is n+1. */
  lemma NextNumberedKey(fieldKey: string, n: nat)
    ensures NextKey(fieldKey, NumberedKeys(fieldKey, n), n) == ItemKey(fieldKey, n + 1)
  {
    forall m: nat | 1 <= m <= n ensures ItemKey(fieldKey, m) != ItemKey(fieldKey, n + 1) {
      ItemKeyInjective(fieldKey, m, n + 1);
    }
  }

  method BuildInitialStateRows(proposal: seq<ProposalField>, byKey: map<string, Id>, fields: map<Id, Field>)
      returns (valueRows: seq<ValueRow>, itemRows: seq<ItemRow>)
    ensures valueRows == ValueRows(byKey, fields, proposal)
    ensures itemRows == ItemRows(byKey, fields, proposal)
  {
    hide NumberedItems, ValueRows, ItemRows;
    RowsEmpty(byKey, fields);
    valueRows, itemRows := [], [];
    for i := 0 to |proposal|
      invariant valueRows == ValueRows(byKey, fields, proposal[..i])
      invariant itemRows == ItemRows(byKey, fields, proposal[..i])
    {
      RowsStep(byKey, fields, proposal, i);
      var p := proposal[i];
      if p.fieldKey !in byKey || byKey[p.fieldKey] !in fields || !fields[byKey[p.fieldKey]].enabled {
        continue;
      }
      if p.status != Proposed {
        continue;
      }
      var f := byKey[p.fieldKey];
      if fields[f].mode == SingleValue {
        if p.single.None? {
          continue;
        }
        valueRows := valueRows + [ValueRow(f, Value(p.single.value.text, p.single.value.refs))];
      } else {
        if p.list.None? {
          continue;
        }
        var numbered := NumberList(f, fields[f].key, p.list.value);
        itemRows := itemRows + numbered;
      }
    }
    assert proposal[..|proposal|] == proposal;
  }

  lemma RowsEmpty(byKey: map<string, Id>, fields: map<Id, Field>)
    ensures ValueRows(byKey, fields, []) == [] && ItemRows(byKey, fields, []) == []
  {
  }

  lemma RowsStep(byKey: map<string, Id>, fields: map<Id, Field>, ps: seq<ProposalField>, i: nat)
    requires i < |ps|
    ensures ValueRows(byKey, fields, ps[..i + 1]) == ValueRows(byKey, fields, ps[..i]) + ValueRowsOf(byKey, fields, ps[i])
    ensures ItemRows(byKey, fields, ps[..i + 1]) == ItemRows(byKey, fields, ps[..i]) + ItemRowsOf(byKey, fields, ps[i])
  {
    hide ValueRowsOf, ItemRowsOf;
    PrefixStep(ps, i);
  }

  lemma NumberedKeysStep(fieldKey: string, n: nat)
    ensures NumberedKeys(fieldKey, n + 1) == NumberedKeys(fieldKey, n) + {ItemKey(fieldKey, n + 1)}
  {
    hide ItemKey;
  }

  method NumberList(f: Id, fieldKey: string, items: seq<InitialItem>) returns (rows: seq<ItemRow>)
    ensures rows == NumberedItems(f, fieldKey, items)
  {
    hide NumberedKeys, ItemKey, NextKey;
    rows := [];
    var existingKeys: set<string> := {};
    assert NumberedKeys(fieldKey, 0) == {} by { NoNumberedKeys(fieldKey); }
    for j := 0 to |items|
      invariant existingKeys == NumberedKeys(fieldKey, j)
      invariant rows == NumberedItems(f, fieldKey, items)[..j]
    {
      var newKey := NextItemKey(fieldKey, existingKeys, j);
      NextNumberedKey(fieldKey, j);
      NumberedKeysStep(fieldKey, j);
      existingKeys := existingKeys + {newKey};
      rows := rows + [ItemRow(f, newKey, Item(items[j].text, false, items[j].refs))];
    }
  }

  lemma NoNumberedKeys(fieldKey: string)
    ensures NumberedKeys(fieldKey, 0) == {}
  {
  }

  // ---- the dedup passes ----

  /** The value rows as a dictionary: a later row replaces an earlier one of the same field. */
  function LastWins(rows: seq<ValueRow>): map<Id, Value> {
    if rows == [] then map[]
    else LastWins(rows[..|rows| - 1])[rows[|rows| - 1].field := rows[|rows| - 1].value]
  }

  /** The item rows without those whose field and key were seen before. */
  function FirstWins(rows: seq<ItemRow>): seq<ItemRow> {
    if rows == [] then []
    else
      var kept := FirstWins(rows[..|rows| - 1]);
      var row := rows[|rows| - 1];
      if (row.field, row.key) in Seen(rows[..|rows| - 1]) then kept else kept + [row]
  }

  function Seen(rows: seq<ItemRow>): set<(Id, string)> {
    set i | 0 <= i < |rows| :: (rows[i].field, rows[i].key)
  }

  method DedupValues(rows: seq<ValueRow>) returns (deduped: map<Id, Value>)
    ensures deduped == LastWins(rows)
  {
    deduped := map[];
    for i := 0 to |rows|
      invariant deduped == LastWins(rows[..i])
    {
      PrefixStep(rows, i);
      deduped := deduped[rows[i].field := rows[i].value];
    }
    assert rows[..|rows|] == rows;
  }

  method DedupItems(rows: seq<ItemRow>) returns (deduped: seq<ItemRow>)
    ensures deduped == FirstWins(rows)
  {
    deduped := [];
    var seenKeys: set<(Id, string)> := {};
    for i := 0 to |rows|
      invariant deduped == FirstWins(rows[..i])
      invariant seenKeys == Seen(rows[..i])
    {
      PrefixStep(rows, i);
      SeenStep(rows, i);
      var k := (rows[i].field, rows[i].key);
      if k in seenKeys {
        continue;
      }
      seenKeys := seenKeys + {k};
      deduped := deduped + [rows[i]];
    }
    assert rows[..|rows|] == rows;
  }

  lemma SeenStep(rows: seq<ItemRow>, i: nat)
    requires i < |rows|
    ensures Seen(rows[..i + 1]) == Seen(rows[..i]) + {(rows[i].field, rows[i].key)}
  {
    var now, before := Seen(rows[..i + 1]), Seen(rows[..i]);
    forall k | k in before + {(rows[i].field, rows[i].key)} ensures k in now {
      if k in before {
        var j :| 0 <= j < i && (rows[..i][j].field, rows[..i][j].key) == k;
        assert rows[..i + 1][j] == rows[j];
      } else {
        assert rows[..i + 1][i] == rows[i];
      }
    }
    forall k | k in now ensures k in before + {(rows[i].field, rows[i].key)} {
      var j :| 0 <= j < i + 1 && (rows[..i + 1][j].field, rows[..i + 1][j].key) == k;
      assert j < i ==> rows[..i][j] == rows[j];
    }
  }

  /** The rows stored, as a table under their unique key. */
  function ItemTable(rows: seq<ItemRow>): map<(Id, string), Item> {
    if rows == [] then map[]
    else ItemTable(rows[..|rows| - 1])[(rows[|rows| - 1].field, rows[|rows| - 1].key) := rows[|rows| - 1].item]
  }

  /** What `apply_initial` stores for a proposal. */
  function InitialRows(byKey: map<string, Id>, fields: map<Id, Field>, ps: seq<ProposalField>): Rows {
    Rows(LastWins(ValueRows(byKey, fields, ps)), ItemTable(FirstWins(ItemRows(byKey, fields, ps))))
  }

  // ---- snapshot freshness ----

  datatype DocumentSnapshot = DocumentSnapshot(documentId: string, contentSha: string)

  /** The `documents` table, with how a UUID is read from and written as text. */
  datatype Documents = Documents(parse: string -> Option<Id>, show: Id -> string, md5: map<Id, string>)

  /** `{s.document_id: s.content_sha for s in snapshot}` */
  function ShaOf(snapshot: seq<DocumentSnapshot>): map<string, string> {
    if snapshot == [] then map[]
    else ShaOf(snapshot[..|snapshot| - 1])[snapshot[|snapshot| - 1].documentId := snapshot[|snapshot| - 1].contentSha]
  }

  /**
    The documents reported stale: all of them if one id is not a UUID, else those found in the
    table whose checksum differs.  A document that is gone from the table is not reported.
   */
  function StaleDocuments(snapshot: seq<DocumentSnapshot>, docs: Documents): set<string> {
    var sha := ShaOf(snapshot);
    if exists d :: d in sha.Keys && docs.parse(d).None? then sha.Keys
    else set id | id in docs.md5 && (exists d :: d in sha.Keys && docs.parse(d) == Some(id)) &&
                  (docs.show(id) !in sha || docs.md5[id] != sha[docs.show(id)]) :: docs.show(id)
  }
}
