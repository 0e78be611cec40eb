/**
  Every service call as one atomic step on the tables (the campaign row is locked first), and
  the invariant the steps keep.
 */
module CampaignStateSteps {
  import opened Wrappers
  import opened Seqs
  import opened CampaignState
  import opened CampaignStateInitial

  // ---- the invariant ----

  ghost predicate FieldsFit(s: Store) {
    KeysUnique(s.fields) && forall f :: f in s.fields ==> s.fields[f].campaign in s.campaigns
  }

  /** The rows of a version belong to live fields of its campaign, of the right mode. */
  ghost predicate RowsFit(rows: Rows, fields: map<Id, Field>, c: Id) {
    && (forall f :: f in rows.values ==> f in fields && fields[f].campaign == c && fields[f].mode == SingleValue)
    && (forall k :: k in rows.items ==> k.0 in fields && fields[k.0].campaign == c && fields[k.0].mode == ItemList)
  }

  /** One version on its own: numbered from 1, based on the number before it, configured no later than now. */
  ghost predicate VersionFits(s: Store, v: Version) {
    && v.campaign in s.campaigns
    && 1 <= v.stateVersion
    && v.base == (if v.stateVersion == 1 then None else Some(v.stateVersion - 1))
    && (v.kind == Initial ==> v.stateVersion == 1)
    && v.configVersion <= s.campaigns[v.campaign]
    && RowsFit(v.rows, s.fields, v.campaign)
  }

  ghost predicate HasVersion(versions: map<Id, Version>, c: Id, n: int) {
    exists v :: v in versions && versions[v].campaign == c && versions[v].stateVersion == n
  }

  ghost predicate NumbersUnique(versions: map<Id, Version>) {
    forall v, w | v in versions && w in versions && versions[v].campaign == versions[w].campaign ::
      versions[v].stateVersion == versions[w].stateVersion ==> v == w
  }

  ghost predicate NoGaps(versions: map<Id, Version>) {
    forall v | v in versions && versions[v].stateVersion > 1 ::
      HasVersion(versions, versions[v].campaign, versions[v].stateVersion - 1)
  }

  ghost predicate ConfigsOrdered(versions: map<Id, Version>) {
    forall v, w | v in versions && w in versions && versions[v].campaign == versions[w].campaign ::
      versions[v].stateVersion <= versions[w].stateVersion ==> versions[v].configVersion <= versions[w].configVersion
  }

  /** The versions of a campaign among themselves: no number twice, no gap, config versions in order. */
  ghost predicate History(versions: map<Id, Version>) {
    NumbersUnique(versions) && NoGaps(versions) && ConfigsOrdered(versions)
  }

  ghost predicate Inv(s: Store) {
    && FieldsFit(s)
    && (forall v :: v in s.versions ==> VersionFits(s, s.versions[v]))
    && History(s.versions)
  }

  // ---- steps on values ----

  datatype PatchRequest = PatchRequest(base: Option<int>, configVersion: int, ops: seq<Op>)

  datatype PatchResponse = PatchResponse(stateVersion: int, configVersion: int, applied: seq<string>)

  /** The rows a patch starts from. */
  ghost function BaseRows(s: Store, latest: Option<Id>): Rows
    requires latest.Some? ==> latest.value in s.versions
  {
    if latest.None? then NO_ROWS else s.versions[latest.value].rows
  }

  ghost function BaseNumber(s: Store, latest: Option<Id>): Option<int>
    requires latest.Some? ==> latest.value in s.versions
  {
    if latest.None? then None else Some(s.versions[latest.value].stateVersion)
  }

  function Successor(base: Option<int>): int {
    if base.None? then 1 else base.value + 1
  }

  ghost predicate OpsAccepted(byKey: map<string, Id>, fields: map<Id, Field>, base: Rows, ops: seq<Op>) {
    FirstRejection(byKey, fields, base, ops, |ops|).None?
  }

  /** Accepted operations name known fields, of the mode of the operation. */
  lemma {:induction false} AcceptedOps(byKey: map<string, Id>, fields: map<Id, Field>, base: Rows, ops: seq<Op>, n: nat)
    requires n <= |ops|
    ensures FirstRejection(byKey, fields, base, ops, n).None? <==>
      forall i :: 0 <= i < n ==> CheckOp(byKey, fields, base, i, ops[i]).None?
  {
    hide CheckOp;
    if n > 0 {
      AcceptedOps(byKey, fields, base, ops, n - 1);
    }
  }

  lemma AcceptedOpsKnown(byKey: map<string, Id>, fields: map<Id, Field>, base: Rows, ops: seq<Op>)
    requires OpsAccepted(byKey, fields, base, ops)
    ensures forall i :: 0 <= i < |ops| ==>
      && ops[i].fieldKey in byKey && byKey[ops[i].fieldKey] in fields
      && fields[byKey[ops[i].fieldKey]].mode == ops[i].Mode()
      && (ops[i].NamesItem() ==> (byKey[ops[i].fieldKey], ops[i].itemKey) in base.items)
  {
    AcceptedOps(byKey, fields, base, ops, |ops|);
    forall i | 0 <= i < |ops|
      ensures ops[i].fieldKey in byKey && byKey[ops[i].fieldKey] in fields
      ensures fields[byKey[ops[i].fieldKey]].mode == ops[i].Mode()
      ensures ops[i].NamesItem() ==> (byKey[ops[i].fieldKey], ops[i].itemKey) in base.items
    {
      assert CheckOp(byKey, fields, base, i, ops[i]).None?;
    }
  }

  /** `apply_patch` */
  ghost function PatchStep(s: Store, c: Id, req: PatchRequest, createdBy: Option<string>, newId: Id): Step<PatchResponse>
    requires Inv(s)
  {
    if c !in s.campaigns then Step(s, Err(CampaignNotFound))
    else if req.configVersion != s.campaigns[c] then Step(s, Err(ConfigVersionConflict))
    else
      var latest := Latest(s.versions, c);
      var base, rows, byKey := BaseNumber(s, latest), BaseRows(s, latest), FieldsByKey(s.fields, c);
      var rejection := FirstRejection(byKey, s.fields, rows, req.ops, |req.ops|);
      if req.base != base then Step(s, Err(StateVersionConflict))
      else if rejection.Some? then Step(s, Err(rejection.value))
      else if newId in s.versions then Step(s, Err(IntegrityError))
      else
        AcceptedOpsKnown(byKey, s.fields, rows, req.ops);
        var version := Version(c, Successor(base), s.campaigns[c], Patch, base, createdBy,
                               FoldOps(rows, byKey, req.ops, |req.ops|));
        Step(s.(versions := s.versions[newId := version]),
             Ok(PatchResponse(Successor(base), s.campaigns[c], OpTypes(req.ops))))
  }

  /** `apply_initial` */
  ghost function InitialStep(s: Store, c: Id, proposal: seq<ProposalField>, snapshot: seq<DocumentSnapshot>, docs: Documents,
                             configVersion: int, createdBy: Option<string>, newId: Id): Step<()>
    requires Inv(s)
  {
    if c !in s.campaigns then Step(s, Err(CampaignNotFound))
    else if configVersion != s.campaigns[c] then Step(s, Err(ConfigVersionConflict))
    else if Latest(s.versions, c).Some? then Step(s, Err(InitialAlreadyApplied))
    else if StaleDocuments(snapshot, docs) != {} then Step(s, Err(SourceSnapshotStale(StaleDocuments(snapshot, docs))))
    else if newId in s.versions then Step(s, Err(IntegrityError))
    else
      var version := Version(c, 1, s.campaigns[c], Initial, None, createdBy,
                             InitialRows(FieldsByKey(s.fields, c), s.fields, proposal));
      Step(s.(versions := s.versions[newId := version]), Ok(()))
  }

  // ---- field configuration ----

  datatype FieldCreate = FieldCreate(key: string, labelText: string, description: string,
                                     mode: Mode, enabled: bool, displayOrder: int)

  /** A member of a partial update: not sent, sent as null, or sent with a value. */
  datatype Sent<+T> = Unset | Null | Set(value: T)

  datatype FieldUpdate = FieldUpdate(labelText: Sent<string>, description: Sent<string>, enabled: Sent<bool>,
                                     displayOrder: Sent<int>, key: Sent<string>, mode: Sent<string>)

  const DESCRIPTION_MAX_BYTES := 8192

  /** `^[a-z][a-z0-9_]{0,63}$` */
  predicate IsFieldKey(s: string) {
    1 <= |s| <= 64 && 'a' <= s[0] <= 'z' && AllOf(c => 'a' <= c <= 'z' || '0' <= c <= '9' || c == '_', s)
  }

  predicate MatchesFieldKey(s: string) {
    IsFieldKey(s) || (s != [] && s[|s| - 1] == '\n' && IsFieldKey(s[..|s| - 1]))
  }

  /** `len(s.encode("utf-8"))` */
  function Utf8Length(s: string): nat {
    if s == [] then 0
    else
      var n := s[0] as int;
      (if n < 0x80 then 1 else if n < 0x800 then 2 else if n < 0x1_0000 then 3 else 4) + Utf8Length(s[1..])
  }

  function Bump(campaigns: map<Id, int>, c: Id): map<Id, int>
    requires c in campaigns
  {
    campaigns[c := campaigns[c] + 1]
  }

  ghost predicate KeyTaken(fields: map<Id, Field>, c: Id, key: string) {
    exists f :: f in fields && fields[f].campaign == c && fields[f].key == key
  }

  /** `create_field` */
  ghost function CreateStep(s: Store, c: Id, payload: FieldCreate, newId: Id): Step<Field>
    requires Inv(s)
  {
    if c !in s.campaigns then Step(s, Err(CampaignNotFound))
    else if !MatchesFieldKey(payload.key) then Step(s, Err(InvalidFieldKey))
    else if Utf8Length(payload.description) > DESCRIPTION_MAX_BYTES then Step(s, Err(InvalidFieldData))
    else if newId in s.fields || KeyTaken(s.fields, c, payload.key) then Step(s, Err(FieldKeyDuplicate))
    else
      var row := Field(c, payload.key, payload.labelText, payload.description, payload.mode, payload.enabled, payload.displayOrder);
      Step(s.(fields := s.fields[newId := row], campaigns := Bump(s.campaigns, c)), Ok(row))
  }

  /** The checks of a partial update, in order. */
  function CheckUpdate(u: FieldUpdate): Option<Error> {
    if u.key.Set? then Some(FieldKeyImmutable)
    else if u.mode.Set? then Some(FieldModeImmutable)
    else if u.description.Set? && Utf8Length(u.description.value) > DESCRIPTION_MAX_BYTES then Some(InvalidFieldData)
    else if u.displayOrder.Null? then Some(TypeError)
    else if u.displayOrder.Set? && u.displayOrder.value < 0 then Some(InvalidFieldData)
    else if u.labelText.Null? then Some(InvalidFieldData)
    else if u.labelText.Set? && !(1 <= |u.labelText.value| <= 256) then Some(InvalidFieldData)
    else if u.description.Null? || u.enabled.Null? then Some(FieldKeyDuplicate)  // NOT NULL, reported as a duplicate key
    else None
  }

  function Or<T>(sent: Sent<T>, current: T): T {
    if sent.Set? then sent.value else current
  }

  function Updated(row: Field, u: FieldUpdate): Field {
    row.(labelText := Or(u.labelText, row.labelText), description := Or(u.description, row.description),
         enabled := Or(u.enabled, row.enabled), displayOrder := Or(u.displayOrder, row.displayOrder))
  }

  predicate NothingSent(u: FieldUpdate) {
    u.labelText.Unset? && u.description.Unset? && u.enabled.Unset? && u.displayOrder.Unset?
  }

  /** `update_field` */
  ghost function UpdateStep(s: Store, c: Id, f: Id, u: FieldUpdate): Step<Field>
    requires Inv(s)
  {
    if f !in s.fields || s.fields[f].campaign != c then Step(s, Err(FieldNotFound))
    else if CheckUpdate(u).Some? then Step(s, Err(CheckUpdate(u).value))
    else if NothingSent(u) then Step(s, Ok(s.fields[f]))
    else
      var row := Updated(s.fields[f], u);
      Step(s.(fields := s.fields[f := row], campaigns := Bump(s.campaigns, c)), Ok(row))
  }

  /** Does a row of some version refer to the field? */
  predicate Mentions(rows: Rows, f: Id) {
    f in rows.values || exists k :: k in rows.items && k.0 == f
  }

  predicate Referenced(versions: map<Id, Version>, f: Id) {
    exists v :: v in versions && Mentions(versions[v].rows, f)
  }

  function Purge(rows: Rows, f: Id): Rows {
    Rows(rows.values - {f}, map k | k in rows.items && k.0 != f :: rows.items[k])
  }

  /** The version without its rows of the field. */
  ghost function Purged(versions: map<Id, Version>, v: Id, f: Id): map<Id, Version>
    requires v in versions
  {
    versions[v := versions[v].(rows := Purge(versions[v].rows, f))]
  }

  /** The empty version that follows `last` when a field is deleted. */
  function EmptySuccessor(last: Version, configVersion: int, createdBy: Option<string>): Version {
    Version(last.campaign, last.stateVersion + 1, configVersion, Patch, Some(last.stateVersion), createdBy, NO_ROWS)
  }

  /**
    `delete_field`: the latest version loses its rows of the field, an empty version follows it,
    and the field goes, unless a row elsewhere still refers to it (ON DELETE RESTRICT).
   */
  ghost function DeleteStep(s: Store, c: Id, f: Id, createdBy: Option<string>, newId: Id): Step<()>
    requires Inv(s)
  {
    if f !in s.fields || s.fields[f].campaign != c then Step(s, Err(FieldNotFound))
    else
      var latest := Latest(s.versions, c);
      if latest.Some? && newId in s.versions then Step(s, Err(IntegrityError))
      else
        var versions :=
          if latest.None? then s.versions
          else Purged(s.versions, latest.value, f)[newId := EmptySuccessor(s.versions[latest.value], s.campaigns[c], createdBy)];
        if Referenced(versions, f) then Step(s, Err(IntegrityError))
        else Step(Store(Bump(s.campaigns, c), s.fields - {f}, versions), Ok(()))
  }

  /** The ids of a campaign's fields. */
  ghost function FieldsOf(fields: map<Id, Field>, c: Id): set<Id> {
    set f | f in fields && fields[f].campaign == c
  }

  /** Ids that do not parse as UUIDs are `None`. */
  ghost predicate ReorderAccepted(s: Store, c: Id, ids: seq<Option<Id>>) {
    && ids != []
    && (forall i :: 0 <= i < |ids| ==> ids[i].Some?)
    && Distinct(ids)
    && (set i | 0 <= i < |ids| && ids[i].Some? :: ids[i].value) == FieldsOf(s.fields, c)
  }

  /** The position of `f` among the ids, or -1. */
  function PositionOf(ids: seq<Option<Id>>, f: Id): int {
    if ids == [] then -1
    else if ids[|ids| - 1] == Some(f) then |ids| - 1
    else PositionOf(ids[..|ids| - 1], f)
  }

  function Reordered(fields: map<Id, Field>, c: Id, ids: seq<Option<Id>>): map<Id, Field> {
    map f | f in fields ::
      if fields[f].campaign == c && PositionOf(ids, f) >= 0
      then fields[f].(displayOrder := PositionOf(ids, f)) else fields[f]
  }

  /** `reorder_fields` */
  ghost function ReorderStep(s: Store, c: Id, ids: seq<Option<Id>>): Step<()>
    requires Inv(s)
  {
    if c !in s.campaigns then Step(s, Err(CampaignNotFound))
    else if !ReorderAccepted(s, c, ids) then Step(s, Err(InvalidReorderPayload))
    else Step(s.(fields := Reordered(s.fields, c, ids), campaigns := Bump(s.campaigns, c)), Ok(()))
  }
}
