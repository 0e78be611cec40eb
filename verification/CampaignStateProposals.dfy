/**
  From the model's raw answer to the proposal that is applied: normalisation, the union with the
  accepted suggested fields, and the client's overrides.
 */
module CampaignStateProposals {
  import opened Wrappers
  import opened Text
  import opened Seqs
  import opened CampaignState
  import opened CampaignStateInitial

  // ---- normalisation of the fields of a raw answer ----

  datatype RawStatus = NoStatus | RawProposed | RawEmpty | RawUnclear(question: Option<string>)

  /**
    A dictionary with a text.  Of its `source_refs` the strings among the elements; none when they
    are missing, null or otherwise falsy, and `None` when they are anything else to iterate over.
   */
  datatype RawItem = RawItem(text: string, refs: Option<seq<string>>)

  /** `list_value`: what is missing, null or empty at either level counts as no items. */
  datatype RawList = NoItems | ValueNotADict | ItemsNotAList | RawItems(items: seq<Option<RawItem>>)

  /** An entry of `fields[]`; any other part that is missing or of the wrong type is `None`. */
  datatype RawField =
    | NotADict
    | RawField(key: Option<string>, mode: Option<Mode>, status: RawStatus, single: Option<RawItem>, list: RawList)

  /** What a malformed entry makes the normaliser raise: in `lv.get`, or in `for ref in refs`. */
  datatype RawError = AttributeError | TypeError

  /** `_normalize_source_refs`, as far as it matters here. */
  type RefFilter = seq<string> -> seq<string>

  function CleanItem(clean: RefFilter, item: RawItem): Result<InitialItem, RawError> {
    if item.refs.None? then Err(RawError.TypeError) else Ok(InitialItem(item.text, clean(item.refs.value)))
  }

  /** The list items that are dictionaries with a text. */
  function CleanItems(clean: RefFilter, items: seq<Option<RawItem>>): Result<seq<InitialItem>, RawError> {
    if items == [] then Ok([])
    else
      var before, last := CleanItems(clean, items[..|items| - 1]), items[|items| - 1];
      if before.Err? || last.None? then before
      else if last.value.refs.None? then Err(RawError.TypeError)
      else Ok(before.value + [InitialItem(last.value.text, clean(last.value.refs.value))])
  }

  /** The loop over the items of a list. */
  method NormalizeItems(clean: RefFilter, items: seq<Option<RawItem>>) returns (result: Result<seq<InitialItem>, RawError>)
    ensures result == CleanItems(clean, items)
  {
    var normalized: seq<InitialItem> := [];
    for i := 0 to |items|
      invariant CleanItems(clean, items[..i]) == Ok(normalized)
    {
      PrefixStep(items, i);
      if items[i].None? {
        continue;
      }
      if items[i].value.refs.None? {
        ItemErrorStays(clean, items, i + 1);
        return Err(RawError.TypeError);
      }
      normalized := normalized + [InitialItem(items[i].value.text, clean(items[i].value.refs.value))];
    }
    assert items[..|items|] == items;
    result := Ok(normalized);
  }

  lemma {:induction false} ItemErrorStays(clean: RefFilter, items: seq<Option<RawItem>>, i: nat)
    requires i <= |items| && CleanItems(clean, items[..i]).Err?
    ensures CleanItems(clean, items) == CleanItems(clean, items[..i])
    decreases |items|
  {
    if i == |items| {
      assert items[..i] == items;
    } else {
      assert items[..|items| - 1][..i] == items[..i];
      ItemErrorStays(clean, items[..|items| - 1], i);
    }
  }

  /** The entry for a known, enabled field, or `None` when it is dropped with a warning. */
  function NormalizeEntry(clean: RefFilter, key: string, mode: Mode, rf: RawField): Result<Option<ProposalField>, RawError>
    requires rf.RawField?
  {
    if rf.mode != Some(mode) then Ok(None)
    else
      match rf.status
      case NoStatus => Ok(None)
      case RawEmpty => Ok(Some(ProposalField(key, mode, Empty, None, None)))
      case RawUnclear(q) =>
        if q.None? || Blank(q.value) then Ok(None) else Ok(Some(ProposalField(key, mode, NeedsClarification, None, None)))
      case RawProposed =>
        if mode == SingleValue then
          if rf.single.None? then Ok(None)
          else
            var item := CleanItem(clean, rf.single.value);
            if item.Err? then Err(item.error) else Ok(Some(ProposalField(key, mode, Proposed, Some(item.value), None)))
        else
          match rf.list
          case NoItems => Ok(Some(ProposalField(key, mode, Proposed, None, Some([]))))
          case RawItems(raw) =>
            var items := CleanItems(clean, raw);
            if items.Err? then Err(items.error) else Ok(Some(ProposalField(key, mode, Proposed, None, Some(items.value))))
          case ItemsNotAList => Ok(None)
          case ValueNotADict => Err(AttributeError)
  }

  /** The body of the loop over the entries, once the field is known. */
  method ReadEntry(clean: RefFilter, key: string, mode: Mode, rf: RawField) returns (entry: Result<Option<ProposalField>, RawError>)
    requires rf.RawField?
    ensures entry == NormalizeEntry(clean, key, mode, rf)
  {
    hide CleanItems, Blank;
    if rf.mode != Some(mode) || rf.status == NoStatus {
      return Ok(None);
    }
    if rf.status != RawProposed {
      if rf.status.RawUnclear? && (rf.status.question.None? || Blank(rf.status.question.value)) {
        return Ok(None);
      }
      return Ok(Some(ProposalField(key, mode, if rf.status.RawUnclear? then NeedsClarification else Empty, None, None)));
    }
    if mode == SingleValue {
      if rf.single.None? {
        return Ok(None);
      }
      if rf.single.value.refs.None? {
        return Err(RawError.TypeError);
      }
      var item := InitialItem(rf.single.value.text, clean(rf.single.value.refs.value));
      return Ok(Some(ProposalField(key, mode, Proposed, Some(item), None)));
    }
    if rf.list == ValueNotADict {
      return Err(AttributeError);
    }
    if rf.list == ItemsNotAList {
      return Ok(None);
    }
    if rf.list == NoItems {
      return Ok(Some(ProposalField(key, mode, Proposed, None, Some([]))));
    }
    var normalized := NormalizeItems(clean, rf.list.items);
    if normalized.Err? {
      return Err(normalized.error);
    }
    entry := Ok(Some(ProposalField(key, mode, Proposed, None, Some(normalized.value))));
  }

  /** The enabled field an entry is about, if any. */
  function EnabledKey(byKey: map<string, Id>, fields: map<Id, Field>, rf: RawField): Option<string> {
    if rf.RawField? && rf.key.Some? && rf.key.value in byKey && byKey[rf.key.value] in fields
       && fields[byKey[rf.key.value]].enabled
    then rf.key else None
  }

  /** The keys among the first entries; a key counts as seen even when its entry is dropped. */
  function SeenKeys(byKey: map<string, Id>, fields: map<Id, Field>, raw: seq<RawField>): set<string> {
    set i | 0 <= i < |raw| && EnabledKey(byKey, fields, raw[i]).Some? :: EnabledKey(byKey, fields, raw[i]).value
  }

  /** What `_normalize_existing_fields` returns or raises. */
  function Normalized(clean: RefFilter, byKey: map<string, Id>, fields: map<Id, Field>, raw: seq<RawField>): Result<seq<ProposalField>, RawError> {
    if raw == [] then Ok([])
    else
      var init, rf := raw[..|raw| - 1], raw[|raw| - 1];
      var before, key := Normalized(clean, byKey, fields, init), EnabledKey(byKey, fields, rf);
      if before.Err? || key.None? || key.value in SeenKeys(byKey, fields, init) then before
      else
        var entry := NormalizeEntry(clean, key.value, fields[byKey[key.value]].mode, rf);
        if entry.Err? then Err(entry.error)
        else if entry.value.None? then before
        else Ok(before.value + [entry.value.value])
  }

  method NormalizeExistingFields(clean: RefFilter, byKey: map<string, Id>, fields: map<Id, Field>, raw: seq<RawField>)
      returns (result: Result<seq<ProposalField>, RawError>)
    ensures result == Normalized(clean, byKey, fields, raw)
  {
    hide NormalizeEntry, SeenKeys;
    NoneSeen(byKey, fields);
    var kept := [];
    var seenKeys: set<string> := {};
    for i := 0 to |raw|
      invariant Normalized(clean, byKey, fields, raw[..i]) == Ok(kept)
      invariant seenKeys == SeenKeys(byKey, fields, raw[..i])
    {
      PrefixStep(raw, i);
      SeenKeysStep(byKey, fields, raw, i);
      var key := EnabledKey(byKey, fields, raw[i]);
      if key.None? || key.value in seenKeys {
        continue;
      }
      seenKeys := seenKeys + {key.value};
      var entry := ReadEntry(clean, key.value, fields[byKey[key.value]].mode, raw[i]);
      if entry.Err? {
        ErrorStays(clean, byKey, fields, raw, i + 1);
        return Err(entry.error);
      }
      if entry.value.None? {
        continue;
      }
      kept := kept + [entry.value.value];
    }
    assert raw[..|raw|] == raw;
    result := Ok(kept);
  }

  lemma {:induction false} ErrorStays(clean: RefFilter, byKey: map<string, Id>, fields: map<Id, Field>, raw: seq<RawField>, i: nat)
    requires i <= |raw| && Normalized(clean, byKey, fields, raw[..i]).Err?
    ensures Normalized(clean, byKey, fields, raw) == Normalized(clean, byKey, fields, raw[..i])
    decreases |raw|
  {
    hide NormalizeEntry, EnabledKey, SeenKeys;
    if i == |raw| {
      assert raw[..i] == raw;
    } else {
      assert raw[..|raw| - 1][..i] == raw[..i];
      ErrorStays(clean, byKey, fields, raw[..|raw| - 1], i);
    }
  }

  lemma NoneSeen(byKey: map<string, Id>, fields: map<Id, Field>)
    ensures SeenKeys(byKey, fields, []) == {}
  {
  }

  lemma SeenKeysStep(byKey: map<string, Id>, fields: map<Id, Field>, raw: seq<RawField>, i: nat)
    requires i < |raw|
    ensures SeenKeys(byKey, fields, raw[..i + 1]) == SeenKeys(byKey, fields, raw[..i]) +
      (var key := EnabledKey(byKey, fields, raw[i]); if key.Some? then {key.value} else {})
  {
    hide EnabledKey;
    var key := EnabledKey(byKey, fields, raw[i]);
    var before, after := SeenKeys(byKey, fields, raw[..i]), SeenKeys(byKey, fields, raw[..i + 1]);
    forall k | k in before ensures k in after {
      var j :| 0 <= j < i && EnabledKey(byKey, fields, raw[..i][j]) == Some(k);
      assert raw[..i + 1][j] == raw[j];
    }
    if key.Some? {
      assert raw[..i + 1][i] == raw[i];
      assert key.value in after;
    }
    forall k | k in after ensures k in before || key == Some(k) {
      var j :| 0 <= j < i + 1 && EnabledKey(byKey, fields, raw[..i + 1][j]) == Some(k);
      assert j < i ==> raw[..i][j] == raw[j];
    }
  }

  // ---- accepted suggestions ----

  datatype Suggested = Suggested(key: string, labelText: string, description: string, mode: Mode,
                                 status: ProposalStatus, single: Option<InitialItem>, list: Option<seq<InitialItem>>)

  /** The suggestions accepted and not rejected, in order. */
  function AcceptedOf(suggested: seq<Suggested>, accepted: set<string>, rejected: set<string>): seq<Suggested> {
    if suggested == [] then []
    else
      var sf := suggested[|suggested| - 1];
      AcceptedOf(suggested[..|suggested| - 1], accepted, rejected) +
        if sf.key in accepted && sf.key !in rejected then [sf] else []
  }

  /** A suggestion as a proposal field. */
  function AsProposalField(sf: Suggested): ProposalField {
    ProposalField(sf.key, sf.mode, sf.status,
                  if sf.status == Proposed && sf.mode == SingleValue then sf.single else None,
                  if sf.status == Proposed && sf.mode == ItemList then sf.list else None)
  }

  function KeysOf(ps: seq<ProposalField>): set<string> {
    set i | 0 <= i < |ps| :: ps[i].fieldKey
  }

  /** Append unless the key is there already. */
  function AppendNew(acc: seq<ProposalField>, p: ProposalField): seq<ProposalField> {
    if p.fieldKey in KeysOf(acc) then acc else acc + [p]
  }

  function AppendAllNew(acc: seq<ProposalField>, ps: seq<ProposalField>): seq<ProposalField> {
    if ps == [] then acc else AppendNew(AppendAllNew(acc, ps[..|ps| - 1]), ps[|ps| - 1])
  }

  /** The accepted suggestions first, then the fields of the proposal whose key is not among them. */
  function Unified(fields: seq<ProposalField>, accepted: seq<Suggested>): seq<ProposalField> {
    AppendAllNew(AppendAllNew([], Map(AsProposalField, accepted)), fields)
  }

  method UnifyProposal(fields: seq<ProposalField>, accepted: seq<Suggested>) returns (unified: seq<ProposalField>)
    ensures unified == Unified(fields, accepted)
  {
    unified := [];
    var seenKeys: set<string> := {};
    var entries := Map(AsProposalField, accepted);
    for i := 0 to |accepted|
      invariant unified == AppendAllNew([], entries[..i]) && seenKeys == KeysOf(unified)
    {
      PrefixStep(entries, i);
      if accepted[i].key in seenKeys {
        continue;
      }
      KeysOfSnoc(unified, AsProposalField(accepted[i]));
      seenKeys := seenKeys + {accepted[i].key};
      unified := unified + [AsProposalField(accepted[i])];
    }
    ghost var base := unified;
    assert entries[..|entries|] == entries;
    for i := 0 to |fields|
      invariant unified == AppendAllNew(base, fields[..i]) && seenKeys == KeysOf(unified)
    {
      PrefixStep(fields, i);
      if fields[i].fieldKey in seenKeys {
        continue;
      }
      KeysOfSnoc(unified, fields[i]);
      seenKeys := seenKeys + {fields[i].fieldKey};
      unified := unified + [fields[i]];
    }
    assert fields[..|fields|] == fields;
  }

  lemma KeysOfSnoc(ps: seq<ProposalField>, p: ProposalField)
    ensures KeysOf(ps + [p]) == KeysOf(ps) + {p.fieldKey}
  {
    var all := ps + [p];
    assert all[|ps|] == p;
    forall k | k in KeysOf(ps) ensures k in KeysOf(all) {
      var i :| 0 <= i < |ps| && ps[i].fieldKey == k;
      assert all[i].fieldKey == k;
    }
  }

  // ---- overrides ----

  /** The first override for a key, as `next(...)` finds it. */
  function OverrideFor(overrides: seq<ProposalField>, key: string): Option<ProposalField> {
    if overrides == [] then None
    else if overrides[0].fieldKey == key then Some(overrides[0])
    else OverrideFor(overrides[1..], key)
  }

  function OrElse<T>(a: Option<T>, b: Option<T>): Option<T> {
    if a.Some? then a else b
  }

  function Overridden(overrides: seq<ProposalField>, p: ProposalField): ProposalField {
    match OverrideFor(overrides, p.fieldKey)
    case None => p
    case Some(o) => ProposalField(p.fieldKey, o.mode, o.status, OrElse(o.single, p.single), OrElse(o.list, p.list))
  }

  function Merged(base: seq<ProposalField>, overrides: Option<seq<ProposalField>>): seq<ProposalField> {
    if overrides.None? then base else Map(p => Overridden(overrides.value, p), base)
  }

  method MergeOverrides(base: seq<ProposalField>, overrides: Option<seq<ProposalField>>) returns (merged: seq<ProposalField>)
    ensures merged == Merged(base, overrides)
  {
    if overrides.None? {
      return base;
    }
    merged := [];
    for i := 0 to |base|
      invariant merged == Merged(base, overrides)[..i]
    {
      merged := merged + [Overridden(overrides.value, base[i])];
    }
  }

  // ---- what reaches the database is unique ----

  ghost predicate UniqueKeys(ps: seq<ProposalField>) {
    forall i, j :: 0 <= i < j < |ps| ==> ps[i].fieldKey != ps[j].fieldKey
  }

  lemma {:induction false} AppendAllNewUnique(acc: seq<ProposalField>, ps: seq<ProposalField>)
    requires UniqueKeys(acc)
    ensures UniqueKeys(AppendAllNew(acc, ps))
  {
    if ps != [] {
      AppendAllNewUnique(acc, ps[..|ps| - 1]);
    }
  }

  /** Whatever is stored, accepted and overridden, no key occurs twice in the effective proposal. */
  lemma EffectiveProposalUnique(fields: seq<ProposalField>, accepted: seq<Suggested>, overrides: Option<seq<ProposalField>>)
    ensures UniqueKeys(Merged(Unified(fields, accepted), overrides))
  {
    AppendAllNewUnique([], Map(AsProposalField, accepted));
    AppendAllNewUnique(AppendAllNew([], Map(AsProposalField, accepted)), fields);
  }

  ghost predicate RowsUnique(rows: seq<ItemRow>) {
    forall i, j :: 0 <= i < j < |rows| ==> (rows[i].field, rows[i].key) != (rows[j].field, rows[j].key)
  }

  ghost predicate ValueRowsUnique(rows: seq<ValueRow>) {
    forall i, j :: 0 <= i < j < |rows| ==> rows[i].field != rows[j].field
  }

  ghost predicate Injective(byKey: map<string, Id>) {
    forall k, l :: k in byKey && l in byKey && byKey[k] == byKey[l] ==> k == l
  }

  lemma {:induction false} ItemRowOrigin(byKey: map<string, Id>, fields: map<Id, Field>, ps: seq<ProposalField>, i: nat)
    requires i < |ItemRows(byKey, fields, ps)|
    ensures exists j :: 0 <= j < |ps| && ps[j].fieldKey in byKey && byKey[ps[j].fieldKey] == ItemRows(byKey, fields, ps)[i].field
  {
    var n := |ps| - 1;
    var before := ItemRows(byKey, fields, ps[..n]);
    if i < |before| {
      ItemRowOrigin(byKey, fields, ps[..n], i);
      var j :| 0 <= j < n && ps[..n][j].fieldKey in byKey && byKey[ps[..n][j].fieldKey] == before[i].field;
      assert ps[j] == ps[..n][j];
    } else {
      assert ItemRows(byKey, fields, ps)[i] == ItemRowsOf(byKey, fields, ps[n])[i - |before|];
    }
  }

  lemma {:induction false} ValueRowOrigin(byKey: map<string, Id>, fields: map<Id, Field>, ps: seq<ProposalField>, i: nat)
    requires i < |ValueRows(byKey, fields, ps)|
    ensures exists j :: 0 <= j < |ps| && ps[j].fieldKey in byKey && byKey[ps[j].fieldKey] == ValueRows(byKey, fields, ps)[i].field
  {
    var n := |ps| - 1;
    var before := ValueRows(byKey, fields, ps[..n]);
    if i < |before| {
      ValueRowOrigin(byKey, fields, ps[..n], i);
      var j :| 0 <= j < n && ps[..n][j].fieldKey in byKey && byKey[ps[..n][j].fieldKey] == before[i].field;
      assert ps[j] == ps[..n][j];
    } else {
      assert ValueRows(byKey, fields, ps)[i] == ValueRowsOf(byKey, fields, ps[n])[i - |before|];
    }
  }

  lemma NumberedItemsUnique(f: Id, fieldKey: string, items: seq<InitialItem>)
    ensures RowsUnique(NumberedItems(f, fieldKey, items))
  {
    hide ItemKey;
    var rows := NumberedItems(f, fieldKey, items);
    forall i, j | 0 <= i < j < |rows| ensures rows[i].key != rows[j].key {
      ItemKeyInjective(fieldKey, i + 1, j + 1);
    }
  }

  /** Distinct proposal keys make distinct (field, item key) pairs. */
  lemma {:induction false} ItemRowsUnique(byKey: map<string, Id>, fields: map<Id, Field>, ps: seq<ProposalField>)
    requires UniqueKeys(ps) && Injective(byKey)
    ensures RowsUnique(ItemRows(byKey, fields, ps))
  {
    if ps != [] {
      hide NumberedItems, Contributes;
      var n := |ps| - 1;
      var before, last := ItemRows(byKey, fields, ps[..n]), ItemRowsOf(byKey, fields, ps[n]);
      ItemRowsUnique(byKey, fields, ps[..n]);
      LastRowsUnique(byKey, fields, ps[n]);
      forall i, j | 0 <= i < |before| && 0 <= j < |last| ensures before[i].field != last[j].field {
        ItemRowOrigin(byKey, fields, ps[..n], i);
        LastRowField(byKey, fields, ps[n], j);
      }
    }
  }

  lemma LastRowsUnique(byKey: map<string, Id>, fields: map<Id, Field>, p: ProposalField)
    ensures RowsUnique(ItemRowsOf(byKey, fields, p))
  {
    if Contributes(byKey, fields, p, ItemList) {
      NumberedItemsUnique(byKey[p.fieldKey], fields[byKey[p.fieldKey]].key, p.list.value);
    }
  }

  lemma LastRowField(byKey: map<string, Id>, fields: map<Id, Field>, p: ProposalField, j: nat)
    requires j < |ItemRowsOf(byKey, fields, p)|
    ensures p.fieldKey in byKey && ItemRowsOf(byKey, fields, p)[j].field == byKey[p.fieldKey]
  {
  }

  lemma {:induction false} InitialValueRowsUnique(byKey: map<string, Id>, fields: map<Id, Field>, ps: seq<ProposalField>)
    requires UniqueKeys(ps) && Injective(byKey)
    ensures ValueRowsUnique(ValueRows(byKey, fields, ps))
  {
    if ps != [] {
      hide Contributes;
      var n := |ps| - 1;
      var before := ValueRows(byKey, fields, ps[..n]);
      InitialValueRowsUnique(byKey, fields, ps[..n]);
      forall i | 0 <= i < |before| && ValueRowsOf(byKey, fields, ps[n]) != [] ensures before[i].field != byKey[ps[n].fieldKey] {
        ValueRowOrigin(byKey, fields, ps[..n], i);
      }
    }
  }

  lemma {:induction false} FirstWinsOfUnique(rows: seq<ItemRow>)
    requires RowsUnique(rows)
    ensures FirstWins(rows) == rows
  {
    if rows != [] {
      var n := |rows| - 1;
      FirstWinsOfUnique(rows[..n]);
      assert forall i :: 0 <= i < n ==> rows[..n][i] == rows[i];
      assert rows == rows[..n] + [rows[n]];
    }
  }

  lemma {:induction false} LastWinsFields(rows: seq<ValueRow>, f: Id)
    ensures f in LastWins(rows) <==> exists i :: 0 <= i < |rows| && rows[i].field == f
  {
    if rows != [] {
      var n := |rows| - 1;
      LastWinsFields(rows[..n], f);
      assert forall i :: 0 <= i < n ==> rows[..n][i] == rows[i];
    }
  }

  lemma {:induction false} LastWinsOfUnique(rows: seq<ValueRow>)
    requires ValueRowsUnique(rows)
    ensures |LastWins(rows)| == |rows|
  {
    if rows != [] {
      var n := |rows| - 1;
      LastWinsOfUnique(rows[..n]);
      LastWinsFields(rows[..n], rows[n].field);
      assert forall i :: 0 <= i < n ==> rows[..n][i] == rows[i];
    }
  }

  lemma FieldsByKeyInjective(fields: map<Id, Field>, c: Id)
    requires KeysUnique(fields)
    ensures Injective(FieldsByKey(fields, c))
  {
  }

  /**
    The two dedup passes of `apply_initial` have nothing to drop: for every stored proposal,
    accept set and override the rows that reach them are unique already.
   */
  lemma DedupDropsNothing(fields: map<Id, Field>, c: Id, stored: seq<ProposalField>,
                          accepted: seq<Suggested>, overrides: Option<seq<ProposalField>>)
    requires KeysUnique(fields)
    ensures var byKey, ps := FieldsByKey(fields, c), Merged(Unified(stored, accepted), overrides);
      && FirstWins(ItemRows(byKey, fields, ps)) == ItemRows(byKey, fields, ps)
      && |LastWins(ValueRows(byKey, fields, ps))| == |ValueRows(byKey, fields, ps)|
  {
    hide Merged, Unified, ItemRows, ValueRows;
    FieldsByKeyInjective(fields, c);
    var byKey := FieldsByKey(fields, c);
    var ps := Merged(Unified(stored, accepted), overrides);
    EffectiveProposalUnique(stored, accepted, overrides);
    ItemRowsUnique(byKey, fields, ps);
    FirstWinsOfUnique(ItemRows(byKey, fields, ps));
    InitialValueRowsUnique(byKey, fields, ps);
    LastWinsOfUnique(ValueRows(byKey, fields, ps));
  }

  // ---- which raw entry of a field is kept ----

  /** Entry `i` is the first about the field `key`. */
  ghost predicate FirstAbout(byKey: map<string, Id>, fields: map<Id, Field>, raw: seq<RawField>, key: string, i: nat) {
    && i < |raw| && EnabledKey(byKey, fields, raw[i]) == Some(key)
    && forall j :: 0 <= j < i ==> EnabledKey(byKey, fields, raw[j]) != Some(key)
  }

  ghost function EntryOf(clean: RefFilter, byKey: map<string, Id>, fields: map<Id, Field>, raw: seq<RawField>, i: nat): Result<Option<ProposalField>, RawError>
    requires i < |raw|
  {
    var key := EnabledKey(byKey, fields, raw[i]);
    if key.None? then Ok(None) else NormalizeEntry(clean, key.value, fields[byKey[key.value]].mode, raw[i])
  }

  /** Entry `i` becomes a proposal field. */
  ghost predicate ValidEntry(clean: RefFilter, byKey: map<string, Id>, fields: map<Id, Field>, raw: seq<RawField>, i: nat) {
    i < |raw| && EntryOf(clean, byKey, fields, raw, i).Ok? && EntryOf(clean, byKey, fields, raw, i).value.Some?
  }

  /** Entry `i` is the first of its field and raises. */
  ghost predicate RaisesAt(clean: RefFilter, byKey: map<string, Id>, fields: map<Id, Field>, raw: seq<RawField>, i: nat) {
    && i < |raw| && EntryOf(clean, byKey, fields, raw, i).Err?
    && forall j :: 0 <= j < i ==> EnabledKey(byKey, fields, raw[j]) != EnabledKey(byKey, fields, raw[i])
  }

  ghost predicate Raises(clean: RefFilter, byKey: map<string, Id>, fields: map<Id, Field>, raw: seq<RawField>) {
    exists i: nat :: RaisesAt(clean, byKey, fields, raw, i)
  }

  lemma EntryOfPrefix(clean: RefFilter, byKey: map<string, Id>, fields: map<Id, Field>, raw: seq<RawField>, n: nat, i: nat)
    requires i < n <= |raw|
    ensures EntryOf(clean, byKey, fields, raw[..n], i) == EntryOf(clean, byKey, fields, raw, i)
    ensures RaisesAt(clean, byKey, fields, raw[..n], i) <==> RaisesAt(clean, byKey, fields, raw, i)
    ensures forall key :: FirstAbout(byKey, fields, raw[..n], key, i) <==> FirstAbout(byKey, fields, raw, key, i)
  {
    hide NormalizeEntry, EnabledKey;
    assert forall j :: 0 <= j <= i ==> raw[..n][j] == raw[j];
  }

  lemma RaisesSnoc(clean: RefFilter, byKey: map<string, Id>, fields: map<Id, Field>, raw: seq<RawField>, n: nat)
    requires n + 1 == |raw|
    ensures Raises(clean, byKey, fields, raw) <==> Raises(clean, byKey, fields, raw[..n]) || RaisesAt(clean, byKey, fields, raw, n)
  {
    hide EntryOf, RaisesAt;
    forall i: nat | i < n ensures RaisesAt(clean, byKey, fields, raw[..n], i) <==> RaisesAt(clean, byKey, fields, raw, i) {
      EntryOfPrefix(clean, byKey, fields, raw, n, i);
    }
    RaisesBelow(clean, byKey, fields, raw);
    RaisesBelow(clean, byKey, fields, raw[..n]);
  }

  lemma RaisesBelow(clean: RefFilter, byKey: map<string, Id>, fields: map<Id, Field>, raw: seq<RawField>)
    ensures forall i: nat :: RaisesAt(clean, byKey, fields, raw, i) ==> i < |raw|
  {
  }

  lemma LastRaisesWhen(clean: RefFilter, byKey: map<string, Id>, fields: map<Id, Field>, raw: seq<RawField>, n: nat)
    requires n + 1 == |raw|
    ensures var key := EnabledKey(byKey, fields, raw[n]);
      RaisesAt(clean, byKey, fields, raw, n) <==>
        key.Some? && key.value !in SeenKeys(byKey, fields, raw[..n]) && EntryOf(clean, byKey, fields, raw, n).Err?
  {
    hide NormalizeEntry, EnabledKey, SeenKeys;
    var key := EnabledKey(byKey, fields, raw[n]);
    if key.Some? {
      SeenMeans(byKey, fields, raw[..n], key.value);
    }
    assert forall j :: 0 <= j < n ==> raw[..n][j] == raw[j];
  }

  /** The normaliser raises exactly when an entry that it reads, the first of its field, is malformed. */
  lemma {:induction false} RaisesWhen(clean: RefFilter, byKey: map<string, Id>, fields: map<Id, Field>, raw: seq<RawField>)
    ensures Normalized(clean, byKey, fields, raw).Err? <==> Raises(clean, byKey, fields, raw)
  {
    if raw == [] {
      RaisesBelow(clean, byKey, fields, raw);
    } else {
      hide NormalizeEntry, EnabledKey, SeenKeys, RaisesAt, Raises;
      var n := |raw| - 1;
      RaisesWhen(clean, byKey, fields, raw[..n]);
      RaisesSnoc(clean, byKey, fields, raw, n);
      LastRaisesWhen(clean, byKey, fields, raw, n);
    }
  }

  /** The item with its references filtered. */
  ghost predicate IsCleaned(clean: RefFilter, raw: RawItem, item: InitialItem) {
    raw.refs.Some? && item.text == raw.text && item.refs == clean(raw.refs.value)
  }

  /** The items that are dictionaries with a text. */
  function Proper(items: seq<Option<RawItem>>): seq<RawItem> {
    Map((item: Option<RawItem>) => item.GetOr(RawItem("", None)), Filter((item: Option<RawItem>) => item.Some?, items))
  }

  lemma {:induction false} CleanedAre(clean: RefFilter, items: seq<Option<RawItem>>)
    requires CleanItems(clean, items).Ok?
    ensures var cleaned := CleanItems(clean, items).value;
      |cleaned| == |Proper(items)| && forall i :: 0 <= i < |cleaned| ==> IsCleaned(clean, Proper(items)[i], cleaned[i])
  {
    if items != [] {
      CleanedAre(clean, items[..|items| - 1]);
    }
  }

  /** What a field kept for an entry says: mode and status as proposed, and for a proposal its value or items, references filtered. */
  lemma EntrySays(clean: RefFilter, key: string, mode: Mode, rf: RawField, p: ProposalField)
    requires rf.RawField? && NormalizeEntry(clean, key, mode, rf) == Ok(Some(p))
    ensures p.fieldKey == key && p.mode == mode && rf.mode == Some(mode)
    ensures p.status == match rf.status
      case RawProposed => Proposed
      case RawUnclear(_) => NeedsClarification
      case _ => Empty
    ensures rf.status != NoStatus && (rf.status.RawUnclear? ==> rf.status.question.Some? && !Blank(rf.status.question.value))
    ensures p.single.Some? <==> rf.status == RawProposed && mode == SingleValue
    ensures p.single.Some? ==> rf.single.Some? && IsCleaned(clean, rf.single.value, p.single.value)
    ensures p.list.Some? <==> rf.status == RawProposed && mode == ItemList
    ensures p.list.Some? ==>
      var raw := if rf.list.RawItems? then Proper(rf.list.items) else [];
      |p.list.value| == |raw| && forall i :: 0 <= i < |raw| ==> IsCleaned(clean, raw[i], p.list.value[i])
  {
    hide Blank, Proper, CleanItems;
    if rf.status == RawProposed && mode == ItemList && rf.list.RawItems? {
      CleanedAre(clean, rf.list.items);
    }
  }

  /** The shapes of an entry that raise. */
  lemma MalformedWhen(clean: RefFilter, key: string, mode: Mode, rf: RawField)
    requires rf.RawField?
    ensures NormalizeEntry(clean, key, mode, rf).Err? <==>
      && rf.mode == Some(mode) && rf.status == RawProposed
      && if mode == SingleValue then rf.single.Some? && rf.single.value.refs.None?
         else rf.list == ValueNotADict || (rf.list.RawItems? && None in RefsOf(rf.list.items))
  {
    if rf.list.RawItems? {
      ItemsRaiseWhen(clean, rf.list.items);
    }
  }

  /** The references of the items that are dictionaries with a text. */
  function RefsOf(items: seq<Option<RawItem>>): set<Option<seq<string>>> {
    set i | 0 <= i < |items| && items[i].Some? :: items[i].value.refs
  }

  lemma {:induction false} ItemsRaiseWhen(clean: RefFilter, items: seq<Option<RawItem>>)
    ensures CleanItems(clean, items).Err? <==> None in RefsOf(items)
  {
    if items != [] {
      var n := |items| - 1;
      ItemsRaiseWhen(clean, items[..n]);
      assert forall i :: 0 <= i < n ==> items[..n][i] == items[i];
      assert RefsOf(items) == RefsOf(items[..n]) + if items[n].Some? then {items[n].value.refs} else {};
    }
  }

  /**
    What is kept for a field is its first entry, if that one is valid, and nothing at all when an
    entry raises.  A later valid entry does not replace an invalid first one, although the comment
    in the source promises the first valid entry.
   */
  lemma {:induction false} KeptIsFirstEntry(clean: RefFilter, byKey: map<string, Id>, fields: map<Id, Field>, raw: seq<RawField>, p: ProposalField)
    ensures Keeps(clean, byKey, fields, raw, p) <==>
      && !Raises(clean, byKey, fields, raw)
      && exists i: nat :: FirstAbout(byKey, fields, raw, p.fieldKey, i) && EntryOf(clean, byKey, fields, raw, i) == Ok(Some(p))
  {
    RaisesWhen(clean, byKey, fields, raw);
    if Normalized(clean, byKey, fields, raw).Ok? {
      hide Raises;
      KeptWhenOk(clean, byKey, fields, raw, p);
    }
  }

  /** The normaliser returns, and `p` is among the fields it keeps. */
  ghost predicate Keeps(clean: RefFilter, byKey: map<string, Id>, fields: map<Id, Field>, raw: seq<RawField>, p: ProposalField) {
    Normalized(clean, byKey, fields, raw).Ok? && p in Normalized(clean, byKey, fields, raw).value
  }

  lemma {:induction false} KeptWhenOk(clean: RefFilter, byKey: map<string, Id>, fields: map<Id, Field>, raw: seq<RawField>, p: ProposalField)
    requires Normalized(clean, byKey, fields, raw).Ok?
    ensures p in Normalized(clean, byKey, fields, raw).value <==>
      exists i: nat :: FirstAbout(byKey, fields, raw, p.fieldKey, i) && EntryOf(clean, byKey, fields, raw, i) == Ok(Some(p))
  {
    if raw != [] {
      hide NormalizeEntry, EnabledKey, SeenKeys;
      var n := |raw| - 1;
      var init := raw[..n];
      KeptWhenOk(clean, byKey, fields, init, p);
      forall i: nat | i < n
        ensures FirstAbout(byKey, fields, init, p.fieldKey, i) <==> FirstAbout(byKey, fields, raw, p.fieldKey, i)
        ensures EntryOf(clean, byKey, fields, init, i) == EntryOf(clean, byKey, fields, raw, i)
      {
        EntryOfPrefix(clean, byKey, fields, raw, n, i);
      }
      if ValidEntry(clean, byKey, fields, raw, n) {
        EntryKeepsKey(clean, byKey, fields, raw, n);
      }
      SeenMeans(byKey, fields, init, p.fieldKey);
      if i: nat :| FirstAbout(byKey, fields, init, p.fieldKey, i) && EntryOf(clean, byKey, fields, init, i) == Ok(Some(p)) {
        assert FirstAbout(byKey, fields, raw, p.fieldKey, i);
      }
      assert FirstAbout(byKey, fields, raw, p.fieldKey, n) <==>
        EnabledKey(byKey, fields, raw[n]) == Some(p.fieldKey) && p.fieldKey !in SeenKeys(byKey, fields, init);
    }
  }

  lemma EntryKeepsKey(clean: RefFilter, byKey: map<string, Id>, fields: map<Id, Field>, raw: seq<RawField>, i: nat)
    requires ValidEntry(clean, byKey, fields, raw, i)
    ensures EnabledKey(byKey, fields, raw[i]) == Some(EntryOf(clean, byKey, fields, raw, i).value.value.fieldKey)
  {
  }

  lemma SeenMeans(byKey: map<string, Id>, fields: map<Id, Field>, raw: seq<RawField>, key: string)
    ensures key in SeenKeys(byKey, fields, raw) <==>
      exists i :: 0 <= i < |raw| && EnabledKey(byKey, fields, raw[i]) == Some(key)
  {
    hide EnabledKey;
  }

  /**
    The first valid entry of a field is kept, as the comment says, exactly when no entry of the
    answer raises and no invalid entry of the same field comes before it.
   */
  lemma FirstValidKeptWhen(clean: RefFilter, byKey: map<string, Id>, fields: map<Id, Field>, raw: seq<RawField>, key: string, i: nat)
    requires ValidEntry(clean, byKey, fields, raw, i) && EnabledKey(byKey, fields, raw[i]) == Some(key)
    requires forall j: nat :: j < i && EnabledKey(byKey, fields, raw[j]) == Some(key) ==> !ValidEntry(clean, byKey, fields, raw, j)
    ensures Keeps(clean, byKey, fields, raw, EntryOf(clean, byKey, fields, raw, i).value.value) <==>
      && !Raises(clean, byKey, fields, raw)
      && forall j :: 0 <= j < i ==> EnabledKey(byKey, fields, raw[j]) != Some(key)
    ensures (exists p :: Keeps(clean, byKey, fields, raw, p) && p.fieldKey == key) <==>
      Keeps(clean, byKey, fields, raw, EntryOf(clean, byKey, fields, raw, i).value.value)
  {
    hide NormalizeEntry, EnabledKey, Normalized, Raises;
    var entry := EntryOf(clean, byKey, fields, raw, i).value.value;
    EntryKeepsKey(clean, byKey, fields, raw, i);
    KeptIsFirstEntry(clean, byKey, fields, raw, entry);
    if !Raises(clean, byKey, fields, raw) && forall j :: 0 <= j < i ==> EnabledKey(byKey, fields, raw[j]) != Some(key) {
      assert FirstAbout(byKey, fields, raw, key, i);
    }
    if p :| Keeps(clean, byKey, fields, raw, p) && p.fieldKey == key {
      KeptIsFirstEntry(clean, byKey, fields, raw, p);
      var k: nat :| FirstAbout(byKey, fields, raw, key, k) && EntryOf(clean, byKey, fields, raw, k) == Ok(Some(p));
      assert k <= i;
      assert k == i;
    }
  }

  const ONE_BY_KEY: map<string, Id> := map["goal" := 0, "rumours" := 1]
  const ONE_OF_EACH: map<Id, Field> := map[0 := Field(0, "goal", "Goal", "", SingleValue, true, 0),
                                          1 := Field(0, "rumours", "Rumours", "", ItemList, true, 1)]

  /** An empty goal, one without a status, and rumours that are no dictionary. */
  const VALID_GOAL := RawField(Some("goal"), Some(SingleValue), RawEmpty, None, NoItems)
  const INVALID_GOAL := VALID_GOAL.(status := NoStatus)
  const RAISING_RUMOURS := RawField(Some("rumours"), Some(ItemList), RawProposed, None, ValueNotADict)

  /** A valid entry is kept alone, not after an invalid one of its field, and not beside one that raises. */
  lemma FirstValidMayBeDropped(clean: RefFilter)
    ensures Normalized(clean, ONE_BY_KEY, ONE_OF_EACH, [VALID_GOAL]) == Ok([ProposalField("goal", SingleValue, Empty, None, None)])
    ensures Normalized(clean, ONE_BY_KEY, ONE_OF_EACH, [INVALID_GOAL, VALID_GOAL]) == Ok([])
    ensures Normalized(clean, ONE_BY_KEY, ONE_OF_EACH, [VALID_GOAL, RAISING_RUMOURS]) == Err(AttributeError)
  {
    GoalAlone(clean);
    assert [INVALID_GOAL, VALID_GOAL][..1] == [INVALID_GOAL] && [VALID_GOAL, RAISING_RUMOURS][..1] == [VALID_GOAL];
    assert EnabledKey(ONE_BY_KEY, ONE_OF_EACH, [INVALID_GOAL][0]) == Some("goal");
    assert "goal" in SeenKeys(ONE_BY_KEY, ONE_OF_EACH, [INVALID_GOAL]);
    assert "rumours" !in SeenKeys(ONE_BY_KEY, ONE_OF_EACH, [VALID_GOAL]);
  }

  lemma GoalAlone(clean: RefFilter)
    ensures Normalized(clean, ONE_BY_KEY, ONE_OF_EACH, [VALID_GOAL]) == Ok([ProposalField("goal", SingleValue, Empty, None, None)])
    ensures Normalized(clean, ONE_BY_KEY, ONE_OF_EACH, [INVALID_GOAL]) == Ok([])
  {
    var kept := ProposalField("goal", SingleValue, Empty, None, None);
    NoneSeen(ONE_BY_KEY, ONE_OF_EACH);
    assert EnabledKey(ONE_BY_KEY, ONE_OF_EACH, VALID_GOAL) == EnabledKey(ONE_BY_KEY, ONE_OF_EACH, INVALID_GOAL) == Some("goal");
    assert [VALID_GOAL][..0] == [] && [INVALID_GOAL][..0] == [] && [] + [kept] == [kept];
  }

  lemma {:induction false} KeptWereSeen(clean: RefFilter, byKey: map<string, Id>, fields: map<Id, Field>, raw: seq<RawField>, i: nat)
    requires Normalized(clean, byKey, fields, raw).Ok? && i < |Normalized(clean, byKey, fields, raw).value|
    ensures Normalized(clean, byKey, fields, raw).value[i].fieldKey in SeenKeys(byKey, fields, raw)
  {
    hide NormalizeEntry, EnabledKey, SeenKeys;
    var n := |raw| - 1;
    var kept := Normalized(clean, byKey, fields, raw[..n]).value;
    SeenKeysStep(byKey, fields, raw, n);
    assert raw[..n + 1] == raw;
    if i < |kept| {
      KeptWereSeen(clean, byKey, fields, raw[..n], i);
    } else {
      EntryKeepsKey(clean, byKey, fields, raw, n);
    }
  }

  /** A stored proposal has at most one entry for each field. */
  lemma {:induction false} NormalizedUnique(clean: RefFilter, byKey: map<string, Id>, fields: map<Id, Field>, raw: seq<RawField>)
    requires Normalized(clean, byKey, fields, raw).Ok?
    ensures UniqueKeys(Normalized(clean, byKey, fields, raw).value)
  {
    if raw != [] {
      hide NormalizeEntry, EnabledKey, SeenKeys;
      var n := |raw| - 1;
      var kept := Normalized(clean, byKey, fields, raw[..n]).value;
      NormalizedUnique(clean, byKey, fields, raw[..n]);
      if ValidEntry(clean, byKey, fields, raw, n) {
        EntryKeepsKey(clean, byKey, fields, raw, n);
      }
      forall i | 0 <= i < |kept| ensures kept[i].fieldKey in SeenKeys(byKey, fields, raw[..n]) {
        KeptWereSeen(clean, byKey, fields, raw[..n], i);
      }
    }
  }
}
