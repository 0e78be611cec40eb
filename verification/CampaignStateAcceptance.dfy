/** When a patch is accepted, what answers it otherwise, and what an accepted patch leaves. */
module CampaignStateAcceptance {
  import opened Wrappers
  import opened Text
  import opened Seqs
  import opened CampaignState
  import opened CampaignStatePatchTheorems
  import opened CampaignStateSteps
  import opened CampaignStateInvariants

  // ---- references ----

  ghost predicate HexAndDashes(s: string) {
    |s| == 36 && forall i :: 0 <= i < |s| ==> '0' <= s[i] <= '9' || 'a' <= s[i] <= 'f' || 'A' <= s[i] <= 'F' || s[i] == '-'
  }

  ghost predicate LowerHexes(s: string) {
    8 <= |s| <= 64 && forall i :: 0 <= i < |s| ==> '0' <= s[i] <= '9' || 'a' <= s[i] <= 'f'
  }

  ghost predicate Slug(s: string) {
    1 <= |s| <= 128 && forall i :: 0 <= i < |s| ==> 'a' <= s[i] <= 'z' || '0' <= s[i] <= '9' || s[i] == '_' || s[i] == '-'
  }

  datatype Ref = FileRef(id: string, sha: string) | ChatRef(id: string) | VaultRef(slug: string) {
    function Shown(): string {
      match this
      case FileRef(id, sha) => "file:" + id + ":sha:" + sha
      case ChatRef(id) => "chat:" + id
      case VaultRef(slug) => "vault:" + slug
    }

    ghost predicate Proper() {
      match this
      case FileRef(id, sha) => HexAndDashes(id) && LowerHexes(sha)
      case ChatRef(id) => HexAndDashes(id)
      case VaultRef(slug) => Slug(slug)
    }
  }

  /** The text of a reference of one of the three kinds, before at most one newline. */
  ghost predicate IsReference(s: string) {
    exists ref: Ref :: ref.Proper() && (s == ref.Shown() || s == ref.Shown() + "\n")
  }

  lemma ShownIsSourceRef(ref: Ref)
    requires ref.Proper()
    ensures IsSourceRef(ref.Shown())
  {
    var s := ref.Shown();
    match ref
    case FileRef(id, sha) =>
      assert s[..5] == "file:" && s[5..41] == id && s[41..46] == ":sha:" && s[46..] == sha;
    case ChatRef(id) =>
      assert s[..5] == "chat:" && s[5..] == id;
    case VaultRef(slug) =>
      assert s[..6] == "vault:" && s[6..] == slug;
  }

  lemma SourceRefIsShown(s: string) returns (ref: Ref)
    requires IsSourceRef(s)
    ensures ref.Proper() && ref.Shown() == s
  {
    if 54 <= |s| <= 110 && s[..5] == "file:" && AllOf(HexOrDash, s[5..41]) && s[41..46] == ":sha:" && AllOf(LowerHex, s[46..]) {
      ref := FileRef(s[5..41], s[46..]);
      assert s == s[..5] + s[5..41] + s[41..46] + s[46..];
    } else if |s| == 41 && s[..5] == "chat:" && AllOf(HexOrDash, s[5..]) {
      ref := ChatRef(s[5..]);
      assert s == s[..5] + s[5..];
    } else {
      ref := VaultRef(s[6..]);
      assert s == s[..6] + s[6..];
    }
  }

  /** The pattern matches the references and nothing else. */
  lemma MatchesWhen(s: string)
    ensures MatchesSourceRef(s) <==> IsReference(s)
  {
    hide IsSourceRef, Ref.Proper, Ref.Shown;
    if IsSourceRef(s) {
      var ref := SourceRefIsShown(s);
    } else if s != [] && s[|s| - 1] == '\n' && IsSourceRef(s[..|s| - 1]) {
      var ref := SourceRefIsShown(s[..|s| - 1]);
      assert s == ref.Shown() + "\n";
    }
    if ref: Ref :| ref.Proper() && (s == ref.Shown() || s == ref.Shown() + "\n") {
      ShownIsSourceRef(ref);
      if s == ref.Shown() + "\n" {
        assert s[..|s| - 1] == ref.Shown();
      }
    }
  }

  // ---- one operation ----

  ghost predicate NamesAnItem(op: Op) {
    op.UpdateListItem? || op.ResolveListItem? || op.RemoveListItem?
  }

  ghost predicate BringsText(op: Op) {
    op.ReplaceSingle? || op.AddListItem? || op.UpdateListItem?
  }

  ghost predicate ReasonFine(op: Op) {
    !Blank(op.reason) && |op.reason| <= 1024
  }

  ghost predicate RefsFine(op: Op) {
    forall i :: 0 <= i < |op.refs| ==> IsReference(op.refs[i])
  }

  ghost predicate TextFine(op: Op) {
    BringsText(op) ==> |op.text| <= 8192
  }

  /** The operation names this field of the campaign. */
  ghost predicate Names(s: Store, c: Id, op: Op, f: Id) {
    f in s.fields && s.fields[f].campaign == c && s.fields[f].key == op.fieldKey
  }

  ghost predicate ModeFits(field: Field, op: Op) {
    field.mode == if op.ReplaceSingle? || op.ClearSingle? then SingleValue else ItemList
  }

  /** The current version holds this item. */
  ghost predicate HasItem(s: Store, c: Id, f: Id, key: string) {
    exists v :: IsLatest(s.versions, c, v) && (f, key) in s.versions[v].rows.items
  }

  /** An operation that a patch of this campaign may hold. */
  ghost predicate Acceptable(s: Store, c: Id, op: Op) {
    && ReasonFine(op) && RefsFine(op) && TextFine(op)
    && exists f :: Names(s, c, op, f) && ModeFits(s.fields[f], op) && (NamesAnItem(op) ==> HasItem(s, c, f, op.itemKey))
  }

  /** The answer to the operation at `index`, the first that is not acceptable. */
  ghost predicate Rejects(s: Store, c: Id, index: nat, op: Op, e: Error) {
    if !ReasonFine(op) then e == PatchRejected(-1, op.Type(), "invalid_payload")
    else if !RefsFine(op) then
      exists i :: 0 <= i < |op.refs| && !IsReference(op.refs[i]) && (forall j :: 0 <= j < i ==> IsReference(op.refs[j])) && e == InvalidSourceRef(op.refs[i])
    else if !TextFine(op) then e == PatchRejected(-1, op.Type(), "invalid_payload")
    else if forall f :: !Names(s, c, op, f) then e == PatchRejected(index, op.Type(), "field_not_found")
    else if forall f :: Names(s, c, op, f) ==> !ModeFits(s.fields[f], op) then e == PatchRejected(index, op.Type(), "mode_mismatch")
    else e == PatchRejected(index, op.Type(), "item_not_found")
  }

  lemma {:induction false} BadRefWhen(refs: seq<string>)
    ensures FirstBadRef(refs).None? <==> forall i :: 0 <= i < |refs| ==> IsReference(refs[i])
    ensures FirstBadRef(refs).Some? ==>
      exists i :: 0 <= i < |refs| && refs[i] == FirstBadRef(refs).value && !IsReference(refs[i]) &&
        forall j :: 0 <= j < i ==> IsReference(refs[j])
  {
    hide IsReference, MatchesSourceRef;
    if refs != [] {
      MatchesWhen(refs[0]);
      BadRefWhen(refs[1..]);
      assert forall i :: 0 < i < |refs| ==> refs[i] == refs[1..][i - 1];
      if FirstBadRef(refs[1..]).Some? && IsReference(refs[0]) {
        var i :| 0 <= i < |refs[1..]| && refs[1..][i] == FirstBadRef(refs[1..]).value && !IsReference(refs[1..][i]) &&
          forall j :: 0 <= j < i ==> IsReference(refs[1..][j]);
        assert refs[i + 1] == refs[1..][i];
        assert forall j :: 0 <= j < i + 1 ==> IsReference(refs[j]);
      }
    }
  }

  lemma PayloadWhen(op: Op)
    ensures CheckPayload(op).None? <==> ReasonFine(op) && RefsFine(op) && TextFine(op)
    ensures CheckPayload(op).Some? && !ReasonFine(op) ==> CheckPayload(op) == Some(PatchRejected(-1, op.Type(), "invalid_payload"))
    ensures CheckPayload(op).Some? && ReasonFine(op) && RefsFine(op) ==> CheckPayload(op) == Some(PatchRejected(-1, op.Type(), "invalid_payload"))
    ensures ReasonFine(op) && !RefsFine(op) ==>
      exists i :: 0 <= i < |op.refs| && !IsReference(op.refs[i]) && (forall j :: 0 <= j < i ==> IsReference(op.refs[j])) &&
        CheckPayload(op) == Some(InvalidSourceRef(op.refs[i]))
  {
    hide IsReference, Blank, Op.Type, FirstBadRef;
    BadRefWhen(op.refs);
  }

  lemma FieldsByKeyWhen(s: Store, c: Id, op: Op, f: Id)
    requires Inv(s)
    ensures var byKey := FieldsByKey(s.fields, c);
      Names(s, c, op, f) <==> op.fieldKey in byKey && byKey[op.fieldKey] == f && f in s.fields
  {
    hide History;
    if Names(s, c, op, f) {
      assert s.fields[f].key in FieldsByKey(s.fields, c);
    }
  }

  lemma ItemInBase(s: Store, c: Id, f: Id, key: string)
    requires Inv(s)
    ensures HasItem(s, c, f, key) <==> (f, key) in BaseRows(s, Latest(s.versions, c)).items
  {
    hide Inv;
    if v :| IsLatest(s.versions, c, v) && (f, key) in s.versions[v].rows.items {
      LatestIsByInv(s, c, v);
    }
  }

  lemma NamedWhen(s: Store, c: Id, op: Op)
    requires Inv(s)
    ensures var byKey := FieldsByKey(s.fields, c);
      if op.fieldKey in byKey && byKey[op.fieldKey] in s.fields then forall f :: Names(s, c, op, f) <==> f == byKey[op.fieldKey]
      else forall f :: !Names(s, c, op, f)
  {
    hide History, FieldsByKey, Names;
    forall f ensures Names(s, c, op, f) <==>
      op.fieldKey in FieldsByKey(s.fields, c) && FieldsByKey(s.fields, c)[op.fieldKey] == f && f in s.fields {
      FieldsByKeyWhen(s, c, op, f);
    }
  }

  lemma KnownKeys(s: Store)
    requires Inv(s)
    ensures KeysUnique(s.fields)
  {
    hide KeysUnique, History;
  }

  /** A well-formed operation is checked against its field and, where it names one, its item. */
  lemma TargetWhen(s: Store, c: Id, index: nat, op: Op)
    requires Inv(s) && KeysUnique(s.fields) && CheckPayload(op).None? && ReasonFine(op) && RefsFine(op) && TextFine(op)
    ensures var e := CheckOp(FieldsByKey(s.fields, c), s.fields, BaseRows(s, Latest(s.versions, c)), index, op);
      && (e.None? <==> Acceptable(s, c, op))
      && (e.Some? ==> Rejects(s, c, index, op, e.value))
  {
    hide Inv, KeysUnique, CheckPayload, ReasonFine, RefsFine, TextFine, FieldsByKey, BaseRows, HasItem, Names, Op.Type, IsReference;
    var byKey := FieldsByKey(s.fields, c);
    NamedWhen(s, c, op);
    if op.fieldKey in byKey && byKey[op.fieldKey] in s.fields {
      var f := byKey[op.fieldKey];
      assert Names(s, c, op, f);
      if NamesAnItem(op) {
        ItemInBase(s, c, f, op.itemKey);
      }
    }
  }

  lemma CheckWhen(s: Store, c: Id, index: nat, op: Op)
    requires Inv(s) && KeysUnique(s.fields)
    ensures var e := CheckOp(FieldsByKey(s.fields, c), s.fields, BaseRows(s, Latest(s.versions, c)), index, op);
      && (e.None? <==> Acceptable(s, c, op))
      && (e.Some? ==> Rejects(s, c, index, op, e.value))
  {
    hide Inv, KeysUnique, CheckPayload, ReasonFine, RefsFine, TextFine, FieldsByKey, BaseRows, Names, HasItem, ModeFits, NamesAnItem, Op.Type, Op.Mode, Op.NamesItem, IsReference;
    PayloadWhen(op);
    if ReasonFine(op) && RefsFine(op) && TextFine(op) {
      TargetWhen(s, c, index, op);
    }
  }

  lemma {:induction false} FirstRejectionWhen(s: Store, c: Id, ops: seq<Op>, n: nat)
    requires Inv(s) && KeysUnique(s.fields) && n <= |ops|
    ensures var e := FirstRejection(FieldsByKey(s.fields, c), s.fields, BaseRows(s, Latest(s.versions, c)), ops, n);
      && (e.None? <==> forall i :: 0 <= i < n ==> Acceptable(s, c, ops[i]))
      && (e.Some? ==> FirstRejected(s, c, ops, e.value))
  {
    hide Inv, KeysUnique, CheckOp, Acceptable, Rejects, FieldsByKey, BaseRows, FirstRejected;
    if n > 0 {
      FirstRejectionWhen(s, c, ops, n - 1);
      CheckWhen(s, c, n - 1, ops[n - 1]);
      var e := CheckOp(FieldsByKey(s.fields, c), s.fields, BaseRows(s, Latest(s.versions, c)), n - 1, ops[n - 1]);
      if e.Some? && forall i :: 0 <= i < n - 1 ==> Acceptable(s, c, ops[i]) {
        RejectedFirst(s, c, ops, n - 1, e.value);
      }
    }
  }

  lemma RejectedFirst(s: Store, c: Id, ops: seq<Op>, i: nat, e: Error)
    requires i < |ops| && !Acceptable(s, c, ops[i]) && Rejects(s, c, i, ops[i], e)
    requires forall j :: 0 <= j < i ==> Acceptable(s, c, ops[j])
    ensures FirstRejected(s, c, ops, e)
  {
    hide Acceptable, Rejects;
  }

  /** The error answers the first operation that is not acceptable. */
  ghost predicate FirstRejected(s: Store, c: Id, ops: seq<Op>, e: Error) {
    exists i :: 0 <= i < |ops| && !Acceptable(s, c, ops[i]) && (forall j :: 0 <= j < i ==> Acceptable(s, c, ops[j])) && Rejects(s, c, i, ops[i], e)
  }

  // ---- a patch ----

  /** The number of the campaign's latest version. */
  ghost predicate IsCurrent(s: Store, c: Id, number: Option<int>) {
    if number.None? then forall v :: v in s.versions ==> s.versions[v].campaign != c
    else
      && HasVersion(s.versions, c, number.value)
      && forall v :: v in s.versions && s.versions[v].campaign == c ==> s.versions[v].stateVersion <= number.value
  }

  lemma CurrentWhen(s: Store, c: Id, number: Option<int>)
    ensures number == BaseNumber(s, Latest(s.versions, c)) <==> IsCurrent(s, c, number)
  {
    LatestExists(s.versions, c);
    var latest := Latest(s.versions, c);
    if latest.Some? {
      assert HasVersion(s.versions, c, s.versions[latest.value].stateVersion);
    }
  }

  /** A patch commits exactly when versions and id are right and every operation is acceptable. */
  lemma PatchCommitsWhen(s: Store, c: Id, req: PatchRequest, createdBy: Option<string>, newId: Id)
    requires Inv(s)
    ensures PatchStep(s, c, req, createdBy, newId).outcome.Ok? <==>
      && c in s.campaigns && req.configVersion == s.campaigns[c] && IsCurrent(s, c, req.base) && newId !in s.versions
      && forall i :: 0 <= i < |req.ops| ==> Acceptable(s, c, req.ops[i])
  {
    hide Inv, FirstRejection, FoldOps, Acceptable, IsCurrent, BaseNumber, BaseRows, FieldsByKey;
    CurrentWhen(s, c, req.base);
    KnownKeys(s);
    FirstRejectionWhen(s, c, req.ops, |req.ops|);
  }

  /** What answers a patch that does not commit: the first thing wrong with it, in this order. */
  lemma PatchAnswers(s: Store, c: Id, req: PatchRequest, createdBy: Option<string>, newId: Id)
    requires Inv(s) && PatchStep(s, c, req, createdBy, newId).outcome.Err?
    ensures var e := PatchStep(s, c, req, createdBy, newId).outcome.error;
      if c !in s.campaigns then e == CampaignNotFound
      else if req.configVersion != s.campaigns[c] then e == ConfigVersionConflict
      else if !IsCurrent(s, c, req.base) then e == StateVersionConflict
      else if exists i :: 0 <= i < |req.ops| && !Acceptable(s, c, req.ops[i]) then FirstRejected(s, c, req.ops, e)
      else e == IntegrityError
  {
    hide Inv, FirstRejection, FoldOps, Acceptable, FirstRejected, IsCurrent, BaseNumber, BaseRows, FieldsByKey;
    CurrentWhen(s, c, req.base);
    KnownKeys(s);
    FirstRejectionWhen(s, c, req.ops, |req.ops|);
  }

  /** The version a committed patch adds, and its answer. */
  lemma PatchRecords(s: Store, c: Id, req: PatchRequest, createdBy: Option<string>, newId: Id)
    requires Inv(s) && PatchStep(s, c, req, createdBy, newId).outcome.Ok?
    ensures var step := PatchStep(s, c, req, createdBy, newId);
      && newId in step.store.versions
      && var v := step.store.versions[newId];
      && step.store == s.(versions := s.versions[newId := v])
      && v.campaign == c && v.kind == Patch && v.createdBy == createdBy && v.configVersion == s.campaigns[c]
      && v.base == req.base && v.stateVersion == (if req.base == None then 1 else req.base.value + 1)
      && step.outcome.value.stateVersion == v.stateVersion && step.outcome.value.configVersion == v.configVersion
      && |step.outcome.value.applied| == |req.ops|
      && forall i :: 0 <= i < |req.ops| ==> step.outcome.value.applied[i] == req.ops[i].Type()
  {
    hide Inv, FirstRejection, FoldOps, BaseNumber, BaseRows, FieldsByKey, Op.Type;
  }

  // ---- the rows of the new version ----

  /** The operations that name this key, in order. */
  function OpsNaming(key: string, ops: seq<Op>): seq<Op> {
    Filter((op: Op) => op.fieldKey == key, ops)
  }

  lemma {:induction false} OpsOnAreNaming(s: Store, c: Id, f: Id, ops: seq<Op>, n: nat)
    requires Inv(s) && f in s.fields && s.fields[f].campaign == c
    requires n <= |ops| && KeysKnown(FieldsByKey(s.fields, c), ops)
    ensures OpsOn(f, FieldsByKey(s.fields, c), ops, n) == OpsNaming(s.fields[f].key, ops[..n])
  {
    hide History, FieldsByKey;
    if n > 0 {
      OpsOnAreNaming(s, c, f, ops, n - 1);
      PrefixStep(ops, n - 1);
      assert ops[n - 1].fieldKey in FieldsByKey(s.fields, c);
      FieldsByKeyWhen(s, c, ops[n - 1], f);
      ByKeyKeepsKey(s, c, ops[n - 1].fieldKey);
    }
  }

  lemma ByKeyKeepsKey(s: Store, c: Id, key: string)
    requires Inv(s) && key in FieldsByKey(s.fields, c)
    ensures var f := FieldsByKey(s.fields, c)[key]; f in s.fields && s.fields[f].campaign == c && s.fields[f].key == key
  {
    hide History;
  }

  /** What the campaign's latest version holds for a field; nothing when there is none. */
  ghost predicate HeldNow(s: Store, c: Id, f: Id, x: FieldState) {
    && (forall v :: IsLatest(s.versions, c, v) ==> x == StateOf(s.versions[v].rows, f))
    && ((forall v :: v in s.versions ==> s.versions[v].campaign != c) ==> x == FieldState(None, map[]))
  }

  /**
    The version a committed patch adds holds, for each field of the campaign, what the latest one
    held after the operations that name the field, in order.
   */
  lemma PatchLeaves(s: Store, c: Id, req: PatchRequest, createdBy: Option<string>, newId: Id, f: Id, x: FieldState)
    requires Inv(s) && PatchStep(s, c, req, createdBy, newId).outcome.Ok?
    requires f in s.fields && s.fields[f].campaign == c && HeldNow(s, c, f, x)
    ensures newId in PatchStep(s, c, req, createdBy, newId).store.versions
    ensures StateOf(PatchStep(s, c, req, createdBy, newId).store.versions[newId].rows, f) ==
      FoldField(x, OpsNaming(s.fields[f].key, req.ops))
  {
    hide History, FirstRejection, FoldOps, BaseNumber, FieldsByKey, StateOf, FoldField, OpsNaming;
    var byKey, base := FieldsByKey(s.fields, c), BaseRows(s, Latest(s.versions, c));
    LatestExists(s.versions, c);
    NothingHeld(f);
    AcceptedOpsKnown(byKey, s.fields, base, req.ops);
    PatchIsPerField(base, byKey, req.ops, |req.ops|, f);
    OpsOnAreNaming(s, c, f, req.ops, |req.ops|);
    assert req.ops[..|req.ops|] == req.ops;
  }

  lemma NothingHeld(f: Id)
    ensures StateOf(NO_ROWS, f) == FieldState(None, map[])
  {
  }
}
