/**
  The Campaign State tables, the patch operations, and what each service call does to the
  tables, as functions on values.  UUIDs are numbers; a fresh one is a parameter of the call.
  The rows of `campaign_state_values` and `campaign_state_list_items` are kept with the
  version they belong to, under their primary and unique keys.
 */
module CampaignState {
  import opened Wrappers
  import opened Text

  type Id = nat

  datatype Mode = SingleValue | ItemList

  datatype Field = Field(campaign: Id, key: string, labelText: string, description: string,
                         mode: Mode, enabled: bool, displayOrder: int)

  datatype Value = Value(text: string, refs: seq<string>)

  datatype Item = Item(text: string, resolved: bool, refs: seq<string>)

  /** The value rows of a version by field, and its list rows by field and item key. */
  datatype Rows = Rows(values: map<Id, Value>, items: map<(Id, string), Item>)

  const NO_ROWS := Rows(map[], map[])

  datatype SourceKind = Initial | Patch

  datatype Version = Version(campaign: Id, stateVersion: int, configVersion: int, kind: SourceKind,
                             base: Option<int>, createdBy: Option<string>, rows: Rows)

  /** `campaigns` holds each campaign's config version. */
  datatype Store = Store(campaigns: map<Id, int>, fields: map<Id, Field>, versions: map<Id, Version>)

  datatype Error =
    | CampaignNotFound
    | ConfigVersionConflict
    | StateVersionConflict
    | PatchRejected(opIndex: int, opType: string, code: string)
    | InvalidSourceRef(ref: string)
    | InitialAlreadyApplied
    | SourceSnapshotStale(documents: set<string>)
    | FieldNotFound
    | InvalidFieldKey
    | InvalidFieldData
    | FieldKeyImmutable
    | FieldModeImmutable
    | FieldKeyDuplicate
    | InvalidReorderPayload
    | ProposalNotFound
    | ProposalExpired
    | SuggestedFieldKeyConflict
    | SuggestedFieldCreation
    | IntegrityError
    | TypeError

  datatype Step<T> = Step(store: Store, outcome: Result<T, Error>)

  // ---- item keys ----

  /** `f"{field_key}-{n:02d}"` */
  function ItemKey(fieldKey: string, n: nat): string {
    fieldKey + "-" + Pad2(n)
  }

  lemma ItemKeyInjective(fieldKey: string, m: nat, n: nat)
    ensures ItemKey(fieldKey, m) == ItemKey(fieldKey, n) <==> m == n
  {
    if ItemKey(fieldKey, m) == ItemKey(fieldKey, n) {
      assert ItemKey(fieldKey, m)[|fieldKey| + 1..] == Pad2(m);
      assert ItemKey(fieldKey, n)[|fieldKey| + 1..] == Pad2(n);
      Pad2Injective(m, n);
    }
  }

  /** The first index from `start` whose key is free; it is found within |existing| + 1 tries. */
  function NextIndex(fieldKey: string, existing: set<string>, start: nat): (n: nat)
    ensures start <= n <= start + |existing|
    ensures ItemKey(fieldKey, n) !in existing
    ensures forall m :: start <= m < n ==> ItemKey(fieldKey, m) in existing
    decreases |existing|
  {
    var candidate := ItemKey(fieldKey, start);
    if candidate !in existing then start
    else
      var n := NextIndex(fieldKey, existing - {candidate}, start + 1);
      ItemKeyInjective(fieldKey, start, n);
      n
  }

  /** The key `_next_item_key` returns. */
  function NextKey(fieldKey: string, existing: set<string>, usedPrefixCount: int): string {
    ItemKey(fieldKey, NextIndex(fieldKey, existing, (if usedPrefixCount > 0 then usedPrefixCount else 0) + 1))
  }

  method NextItemKey(fieldKey: string, existing: set<string>, usedPrefixCount: int) returns (key: string)
    ensures key == NextKey(fieldKey, existing, usedPrefixCount)
  {
    var n: nat := (if usedPrefixCount > 0 then usedPrefixCount else 0) + 1;
    ghost var start: nat := n;
    while ItemKey(fieldKey, n) in existing
      invariant start <= n <= NextIndex(fieldKey, existing, start)
      decreases NextIndex(fieldKey, existing, start) - n
    {
      n := n + 1;
    }
    key := ItemKey(fieldKey, n);
  }

  // ---- patch operations ----

  datatype Op =
    | ReplaceSingle(fieldKey: string, reason: string, refs: seq<string>, text: string)
    | ClearSingle(fieldKey: string, reason: string, refs: seq<string>)
    | AddListItem(fieldKey: string, reason: string, refs: seq<string>, text: string)
    | UpdateListItem(fieldKey: string, reason: string, refs: seq<string>, itemKey: string, text: string)
    | ResolveListItem(fieldKey: string, reason: string, refs: seq<string>, itemKey: string)
    | RemoveListItem(fieldKey: string, reason: string, refs: seq<string>, itemKey: string)
  {
    function Type(): string {
      match this
      case ReplaceSingle(_, _, _, _) => "replace_single"
      case ClearSingle(_, _, _) => "clear_single"
      case AddListItem(_, _, _, _) => "add_list_item"
      case UpdateListItem(_, _, _, _, _) => "update_list_item"
      case ResolveListItem(_, _, _, _) => "resolve_list_item"
      case RemoveListItem(_, _, _, _) => "remove_list_item"
    }

    function Mode(): Mode {
      if ReplaceSingle? || ClearSingle? then SingleValue else ItemList
    }

    predicate NamesItem() {
      UpdateListItem? || ResolveListItem? || RemoveListItem?
    }

    function TextLength(): nat {
      if ReplaceSingle? || AddListItem? || UpdateListItem? then |text| else 0
    }
  }

  const MAX_REASON_LEN := 1024
  const MAX_TEXT_LEN := 8192

  predicate HexOrDash(c: char) {
    '0' <= c <= '9' || 'a' <= c <= 'f' || 'A' <= c <= 'F' || c == '-'
  }

  predicate LowerHex(c: char) {
    '0' <= c <= '9' || 'a' <= c <= 'f'
  }

  predicate SlugChar(c: char) {
    'a' <= c <= 'z' || '0' <= c <= '9' || c == '_' || c == '-'
  }

  predicate AllOf(ok: char -> bool, s: string) {
    forall i :: 0 <= i < |s| ==> ok(s[i])
  }

  /** The three reference formats. */
  predicate IsSourceRef(s: string) {
    || (54 <= |s| <= 110 && s[..5] == "file:" && AllOf(HexOrDash, s[5..41]) && s[41..46] == ":sha:" && AllOf(LowerHex, s[46..]))
    || (|s| == 41 && s[..5] == "chat:" && AllOf(HexOrDash, s[5..]))
    || (7 <= |s| <= 134 && s[..6] == "vault:" && AllOf(SlugChar, s[6..]))
  }

  /** `$` also matches before a final newline, so one more newline is let through. */
  predicate MatchesSourceRef(s: string) {
    IsSourceRef(s) || (s != [] && s[|s| - 1] == '\n' && IsSourceRef(s[..|s| - 1]))
  }

  /** The payload checks that come before the field is looked up; their op_index is -1. */
  function CheckPayload(op: Op): Option<Error> {
    if Blank(op.reason) || |op.reason| > MAX_REASON_LEN then Some(PatchRejected(-1, op.Type(), "invalid_payload"))
    else
      match FirstBadRef(op.refs)
      case Some(ref) => Some(InvalidSourceRef(ref))
      case None =>
        if op.TextLength() > MAX_TEXT_LEN then Some(PatchRejected(-1, op.Type(), "invalid_payload")) else None
  }

  function FirstBadRef(refs: seq<string>): Option<string> {
    if refs == [] then None
    else if !MatchesSourceRef(refs[0]) then Some(refs[0])
    else FirstBadRef(refs[1..])
  }

  /** The rejection of one operation against the configuration and the base snapshot. */
  function CheckOp(byKey: map<string, Id>, fields: map<Id, Field>, base: Rows, index: nat, op: Op): Option<Error> {
    var payload := CheckPayload(op);
    if payload.Some? then payload
    else if op.fieldKey !in byKey || byKey[op.fieldKey] !in fields then
      Some(PatchRejected(index, op.Type(), "field_not_found"))
    else
      var f := byKey[op.fieldKey];
      if fields[f].mode != op.Mode() then Some(PatchRejected(index, op.Type(), "mode_mismatch"))
      else if op.NamesItem() && (f, op.itemKey) !in base.items then
        Some(PatchRejected(index, op.Type(), "item_not_found"))
      else None
  }

  /** The first rejection among the first `n` operations. */
  function FirstRejection(byKey: map<string, Id>, fields: map<Id, Field>, base: Rows, ops: seq<Op>, n: nat): Option<Error>
    requires n <= |ops|
  {
    if n == 0 then None
    else
      var earlier := FirstRejection(byKey, fields, base, ops, n - 1);
      if earlier.Some? then earlier else CheckOp(byKey, fields, base, n - 1, ops[n - 1])
  }

  function ItemKeysOf(items: map<(Id, string), Item>, f: Id): set<string> {
    set p | p in items && p.0 == f :: p.1
  }

  function WithPrefix(keys: set<string>, prefix: string): set<string> {
    set k | k in keys && prefix <= k
  }

  /** The key a list item added to field `f` gets. */
  function AddedKey(items: map<(Id, string), Item>, f: Id, fieldKey: string): string {
    var keys := ItemKeysOf(items, f);
    NextKey(fieldKey, keys, |WithPrefix(keys, fieldKey + "-")|)
  }

  /** One operation on the rows of field `f`.  An item that is no longer there is silently skipped. */
  function ApplyOp(rows: Rows, f: Id, op: Op): Rows {
    match op
    case ReplaceSingle(_, _, refs, text) => rows.(values := rows.values[f := Value(text, refs)])
    case ClearSingle(_, _, _) => rows.(values := rows.values - {f})
    case AddListItem(key, _, refs, text) =>
      rows.(items := rows.items[(f, AddedKey(rows.items, f, key)) := Item(text, false, refs)])
    case UpdateListItem(_, _, refs, k, text) =>
      if (f, k) in rows.items then rows.(items := rows.items[(f, k) := rows.items[(f, k)].(text := text, refs := refs)])
      else rows
    case ResolveListItem(_, _, refs, k) =>
      if (f, k) in rows.items then rows.(items := rows.items[(f, k) := rows.items[(f, k)].(resolved := true, refs := refs)])
      else rows
    case RemoveListItem(_, _, _, k) => rows.(items := rows.items - {(f, k)})
  }

  ghost predicate KeysKnown(byKey: map<string, Id>, ops: seq<Op>) {
    forall i :: 0 <= i < |ops| ==> ops[i].fieldKey in byKey
  }

  /** The first `n` operations, one after the other. */
  function FoldOps(rows: Rows, byKey: map<string, Id>, ops: seq<Op>, n: nat): Rows
    requires n <= |ops| && KeysKnown(byKey, ops)
  {
    if n == 0 then rows
    else ApplyOp(FoldOps(rows, byKey, ops, n - 1), byKey[ops[n - 1].fieldKey], ops[n - 1])
  }

  function OpTypes(ops: seq<Op>): seq<string> {
    seq(|ops|, i requires 0 <= i < |ops| => ops[i].Type())
  }

  // ---- queries ----

  /** No two fields of a campaign share a key. */
  ghost predicate KeysUnique(fields: map<Id, Field>) {
    forall f, g :: f in fields && g in fields && fields[f].campaign == fields[g].campaign && fields[f].key == fields[g].key ==> f == g
  }

  /** The campaign's fields by key. */
  ghost function FieldsByKey(fields: map<Id, Field>, c: Id): map<string, Id>
    requires KeysUnique(fields)
  {
    map f | f in fields && fields[f].campaign == c :: fields[f].key := f
  }

  ghost predicate IsLatest(versions: map<Id, Version>, c: Id, v: Id) {
    && v in versions && versions[v].campaign == c
    && forall w :: w in versions && versions[w].campaign == c ==> versions[w].stateVersion <= versions[v].stateVersion
  }

  /** The version with the highest number: order by state_version descending, limit 1. */
  ghost function Latest(versions: map<Id, Version>, c: Id): (r: Option<Id>)
    ensures r.Some? ==> IsLatest(versions, c, r.value)
    ensures r.None? ==> forall v :: !IsLatest(versions, c, v)
  {
    if v :| IsLatest(versions, c, v) then Some(v) else None
  }
}
