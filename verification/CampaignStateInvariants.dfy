/** Every step of the Campaign State store keeps its invariant. */
module CampaignStateInvariants {
  import opened Wrappers
  import opened CampaignState
  import opened CampaignStateInitial
  import opened CampaignStateProposals
  import opened CampaignStateSteps

  // ---- the latest version ----

  lemma {:induction false} GreatestOf(versions: map<Id, Version>, vs: set<Id>) returns (v: Id)
    requires vs != {} && vs <= versions.Keys
    ensures v in vs && forall w :: w in vs ==> versions[w].stateVersion <= versions[v].stateVersion
    decreases vs
  {
    var x :| x in vs;
    v := x;
    if vs - {x} != {} {
      var y := GreatestOf(versions, vs - {x});
      v := if versions[x].stateVersion <= versions[y].stateVersion then y else x;
    }
    assert forall w :: w in vs ==> w == x || w in vs - {x};
  }

  /** A campaign without a latest version has no version at all. */
  lemma LatestExists(versions: map<Id, Version>, c: Id)
    ensures Latest(versions, c).None? <==> forall v :: v in versions ==> versions[v].campaign != c
  {
    var vs := set v | v in versions && versions[v].campaign == c;
    if vs != {} {
      var v := GreatestOf(versions, vs);
      assert forall w :: w in versions && versions[w].campaign == c ==> w in vs;
      assert IsLatest(versions, c, v);
    } else {
      forall v | v in versions ensures versions[v].campaign != c {
        assert v !in vs;
      }
    }
  }

  /** Under the unique constraint there is one latest version. */
  lemma LatestIs(versions: map<Id, Version>, c: Id, v: Id)
    requires History(versions) && IsLatest(versions, c, v)
    ensures Latest(versions, c) == Some(v)
  {
    hide NoGaps, ConfigsOrdered;
    var l := Latest(versions, c);
    assert versions[l.value].campaign == versions[v].campaign;
  }

  // ---- each step keeps the invariant ----

  lemma LatestIsByInv(s: Store, c: Id, v: Id)
    requires Inv(s) && IsLatest(s.versions, c, v)
    ensures Latest(s.versions, c) == Some(v)
  {
    hide History, IsLatest;
    LatestIs(s.versions, c, v);
  }

  lemma OpFits(rows: Rows, fields: map<Id, Field>, c: Id, f: Id, op: Op)
    requires RowsFit(rows, fields, c)
    requires f in fields && fields[f].campaign == c && fields[f].mode == op.Mode()
    ensures RowsFit(ApplyOp(rows, f, op), fields, c)
  {
  }

  lemma {:induction false} FoldFits(rows: Rows, fields: map<Id, Field>, c: Id, byKey: map<string, Id>, ops: seq<Op>, n: nat)
    requires n <= |ops| && KeysKnown(byKey, ops) && RowsFit(rows, fields, c)
    requires forall i :: 0 <= i < |ops| ==>
      var f := byKey[ops[i].fieldKey];
      f in fields && fields[f].campaign == c && fields[f].mode == ops[i].Mode()
    ensures RowsFit(FoldOps(rows, byKey, ops, n), fields, c)
  {
    if n > 0 {
      FoldFits(rows, fields, c, byKey, ops, n - 1);
      OpFits(FoldOps(rows, byKey, ops, n - 1), fields, c, byKey[ops[n - 1].fieldKey], ops[n - 1]);
    }
  }

  /** Every version of the campaign is numbered below the next one. */
  lemma BelowSuccessor(s: Store, c: Id)
    requires Inv(s)
    ensures forall v :: v in s.versions && s.versions[v].campaign == c ==>
      s.versions[v].stateVersion < Successor(BaseNumber(s, Latest(s.versions, c)))
  {
    hide Inv;
    LatestExists(s.versions, c);
  }

  /** Versions that stay, with their number, still witness that a number is taken. */
  lemma HasVersionStill(versions: map<Id, Version>, after: map<Id, Version>, c: Id, n: int)
    requires HasVersion(versions, c, n)
    requires forall v :: v in versions ==>
      v in after && after[v].campaign == versions[v].campaign && after[v].stateVersion == versions[v].stateVersion
    ensures HasVersion(after, c, n)
  {
    var v :| v in versions && versions[v].campaign == c && versions[v].stateVersion == n;
    assert v in after;
  }

  lemma HistoryGrows(versions: map<Id, Version>, newId: Id, version: Version)
    requires History(versions) && newId !in versions
    requires forall v :: v in versions && versions[v].campaign == version.campaign ==>
      versions[v].stateVersion < version.stateVersion && versions[v].configVersion <= version.configVersion
    requires version.stateVersion > 1 ==> HasVersion(versions, version.campaign, version.stateVersion - 1)
    ensures History(versions[newId := version])
  {
    hide HasVersion;
    var after := versions[newId := version];
    forall v | v in after && after[v].stateVersion > 1 ensures HasVersion(after, after[v].campaign, after[v].stateVersion - 1) {
      assert v != newId ==> after[v] == versions[v];
      HasVersionStill(versions, after, after[v].campaign, after[v].stateVersion - 1);
    }
    assert NoGaps(after);
    assert NumbersUnique(after);
    assert ConfigsOrdered(after);
  }

  lemma VersionStillFits(s: Store, s': Store, v: Version)
    requires VersionFits(s, v)
    requires v.campaign in s'.campaigns && s.campaigns[v.campaign] <= s'.campaigns[v.campaign]
    requires RowsFit(v.rows, s'.fields, v.campaign)
    ensures VersionFits(s', v)
  {
  }

  /** A version numbered after the latest, on the current configuration, with fitting rows, may be added. */
  lemma NewVersionKeepsInv(s: Store, c: Id, newId: Id, version: Version)
    requires Inv(s) && c in s.campaigns && newId !in s.versions
    requires version.campaign == c && version.configVersion == s.campaigns[c]
    requires version.base == BaseNumber(s, Latest(s.versions, c)) && version.stateVersion == Successor(version.base)
    requires version.kind == Initial ==> version.base == None
    requires RowsFit(version.rows, s.fields, c)
    ensures Inv(s.(versions := s.versions[newId := version]))
  {
    hide History;
    var latest := Latest(s.versions, c);
    BelowSuccessor(s, c);
    forall v | v in s.versions && s.versions[v].campaign == c ensures s.versions[v].configVersion <= version.configVersion {
      assert VersionFits(s, s.versions[v]);
    }
    if latest.Some? {
      assert s.versions[latest.value].stateVersion == version.stateVersion - 1;
      assert HasVersion(s.versions, c, version.stateVersion - 1);
    }
    HistoryGrows(s.versions, newId, version);
    var s' := s.(versions := s.versions[newId := version]);
    forall v | v in s'.versions ensures VersionFits(s', s'.versions[v]) {
      if v != newId {
        VersionStillFits(s, s', s.versions[v]);
      } else if latest.Some? {
        assert VersionFits(s, s.versions[latest.value]);
      }
    }
  }

  lemma PatchKeepsInv(s: Store, c: Id, req: PatchRequest, createdBy: Option<string>, newId: Id)
    requires Inv(s)
    ensures Inv(PatchStep(s, c, req, createdBy, newId).store)
  {
    var step := PatchStep(s, c, req, createdBy, newId);
    if step.outcome.Ok? {
      hide FirstRejection, FoldOps;
      var latest := Latest(s.versions, c);
      var rows, byKey := BaseRows(s, latest), FieldsByKey(s.fields, c);
      AcceptedOpsKnown(byKey, s.fields, rows, req.ops);
      assert RowsFit(rows, s.fields, c) by {
        if latest.Some? {
          assert VersionFits(s, s.versions[latest.value]);
        }
      }
      FoldFits(rows, s.fields, c, byKey, req.ops, |req.ops|);
      NewVersionKeepsInv(s, c, newId, step.store.versions[newId]);
    }
  }

  lemma {:induction false} LastWinsKeys(rows: seq<ValueRow>, f: Id)
    requires f in LastWins(rows)
    ensures exists i :: 0 <= i < |rows| && rows[i].field == f
  {
    var n := |rows| - 1;
    if rows[n].field != f {
      LastWinsKeys(rows[..n], f);
      var i :| 0 <= i < n && rows[..n][i].field == f;
      assert rows[i].field == f;
    }
  }

  lemma {:induction false} ItemTableKeys(rows: seq<ItemRow>, k: (Id, string))
    ensures k in ItemTable(rows) <==> exists i :: 0 <= i < |rows| && (rows[i].field, rows[i].key) == k
  {
    if rows != [] {
      var n := |rows| - 1;
      ItemTableKeys(rows[..n], k);
      assert forall i :: 0 <= i < n ==> rows[..n][i] == rows[i];
    }
  }

  lemma {:induction false} FirstWinsSubset(rows: seq<ItemRow>, i: nat)
    requires i < |FirstWins(rows)|
    ensures FirstWins(rows)[i] in rows
  {
    var n := |rows| - 1;
    assert rows == rows[..n] + [rows[n]];
    if i < |FirstWins(rows[..n])| {
      FirstWinsSubset(rows[..n], i);
    }
  }

  lemma {:induction false} ValueRowsFit(byKey: map<string, Id>, fields: map<Id, Field>, ps: seq<ProposalField>, i: nat)
    requires i < |ValueRows(byKey, fields, ps)|
    ensures var f := ValueRows(byKey, fields, ps)[i].field;
      f in fields && f in byKey.Values && fields[f].mode == SingleValue
  {
    var n := |ps| - 1;
    var before := ValueRows(byKey, fields, ps[..n]);
    if i < |before| {
      ValueRowsFit(byKey, fields, ps[..n], i);
    } else {
      assert ValueRows(byKey, fields, ps)[i] == ValueRowsOf(byKey, fields, ps[n])[i - |before|];
    }
  }

  lemma {:induction false} ItemRowsFit(byKey: map<string, Id>, fields: map<Id, Field>, ps: seq<ProposalField>, i: nat)
    requires i < |ItemRows(byKey, fields, ps)|
    ensures var f := ItemRows(byKey, fields, ps)[i].field;
      f in fields && f in byKey.Values && fields[f].mode == ItemList
  {
    var n := |ps| - 1;
    var before := ItemRows(byKey, fields, ps[..n]);
    if i < |before| {
      ItemRowsFit(byKey, fields, ps[..n], i);
    } else {
      assert ItemRows(byKey, fields, ps)[i] == ItemRowsOf(byKey, fields, ps[n])[i - |before|];
    }
  }

  lemma InitialRowsFit(fields: map<Id, Field>, c: Id, ps: seq<ProposalField>)
    requires KeysUnique(fields)
    ensures RowsFit(InitialRows(FieldsByKey(fields, c), fields, ps), fields, c)
  {
    var byKey := FieldsByKey(fields, c);
    var values, items := ValueRows(byKey, fields, ps), ItemRows(byKey, fields, ps);
    forall f | f in LastWins(values) ensures f in fields && fields[f].campaign == c && fields[f].mode == SingleValue {
      LastWinsKeys(values, f);
      var i :| 0 <= i < |values| && values[i].field == f;
      ValueRowsFit(byKey, fields, ps, i);
    }
    forall k | k in ItemTable(FirstWins(items)) ensures k.0 in fields && fields[k.0].campaign == c && fields[k.0].mode == ItemList {
      ItemTableKeys(FirstWins(items), k);
      var j :| 0 <= j < |FirstWins(items)| && (FirstWins(items)[j].field, FirstWins(items)[j].key) == k;
      FirstWinsSubset(items, j);
      var i :| 0 <= i < |items| && items[i] == FirstWins(items)[j];
      ItemRowsFit(byKey, fields, ps, i);
    }
  }

  lemma InitialKeepsInv(s: Store, c: Id, proposal: seq<ProposalField>, snapshot: seq<DocumentSnapshot>, docs: Documents,
                        configVersion: int, createdBy: Option<string>, newId: Id)
    requires Inv(s)
    ensures Inv(InitialStep(s, c, proposal, snapshot, docs, configVersion, createdBy, newId).store)
  {
    hide InitialRows, StaleDocuments;
    var step := InitialStep(s, c, proposal, snapshot, docs, configVersion, createdBy, newId);
    if step.outcome.Ok? {
      InitialRowsFit(s.fields, c, proposal);
      NewVersionKeepsInv(s, c, newId, step.store.versions[newId]);
    }
  }

  lemma CreateKeepsInv(s: Store, c: Id, payload: FieldCreate, newId: Id)
    requires Inv(s)
    ensures Inv(CreateStep(s, c, payload, newId).store)
  {
    hide MatchesFieldKey, Utf8Length, History;
    var s' := CreateStep(s, c, payload, newId).store;
    if s' != s {
      assert FieldsFit(s');
      forall v | v in s'.versions ensures VersionFits(s', s'.versions[v]) {
        assert VersionFits(s, s.versions[v]);
        VersionStillFits(s, s', s.versions[v]);
      }
    }
  }

  /** A step that only touches labels, descriptions, the enabled flag or the order of fields. */
  ghost predicate SameIdentity(a: Field, b: Field) {
    a.campaign == b.campaign && a.key == b.key && a.mode == b.mode
  }

  lemma RelabelKeepsInv(s: Store, s': Store, c: Id)
    requires Inv(s) && c in s.campaigns
    requires s'.versions == s.versions && s'.campaigns == Bump(s.campaigns, c) && s'.fields.Keys == s.fields.Keys
    requires forall f :: f in s.fields ==> SameIdentity(s.fields[f], s'.fields[f])
    ensures Inv(s')
  {
    forall v | v in s'.versions ensures VersionFits(s', s'.versions[v]) {
      VersionStillFits(s, s', s.versions[v]);
    }
  }

  lemma PurgeFits(rows: Rows, fields: map<Id, Field>, c: Id, f: Id)
    requires RowsFit(rows, fields, c)
    ensures RowsFit(Purge(rows, f), fields, c)
    ensures !Mentions(Purge(rows, f), f)
  {
  }

  lemma PurgeKeepsLatest(versions: map<Id, Version>, c: Id, v: Id, f: Id)
    requires IsLatest(versions, c, v)
    ensures IsLatest(Purged(versions, v, f), c, v)
  {
  }

  lemma PurgeKeepsInv(s: Store, v: Id, f: Id)
    requires Inv(s) && v in s.versions
    ensures Inv(s.(versions := Purged(s.versions, v, f)))
  {
    hide History, Purge;
    var after := Purged(s.versions, v, f);
    SameNumbersKeepHistory(s.versions, after);
    forall w | w in after ensures VersionFits(s.(versions := after), after[w]) {
      assert VersionFits(s, s.versions[w]);
      PurgeFits(s.versions[w].rows, s.fields, s.versions[w].campaign, f);
    }
  }

  lemma SameNumbersKeepHistory(versions: map<Id, Version>, after: map<Id, Version>)
    requires History(versions) && after.Keys == versions.Keys
    requires forall v :: v in versions ==> after[v] == versions[v].(rows := after[v].rows)
    ensures History(after)
  {
    hide HasVersion;
    forall w | w in after && after[w].stateVersion > 1 ensures HasVersion(after, after[w].campaign, after[w].stateVersion - 1) {
      HasVersionStill(versions, after, after[w].campaign, after[w].stateVersion - 1);
    }
    assert NoGaps(after);
    assert NumbersUnique(after);
    assert ConfigsOrdered(after);
  }

  lemma FitsWithout(s: Store, version: Version, f: Id)
    requires VersionFits(s, version) && !Mentions(version.rows, f)
    ensures RowsFit(version.rows, s.fields - {f}, version.campaign) && version.campaign in s.campaigns
  {
    assert forall k :: k in version.rows.items ==> k.0 != f;
  }

  /** Removing a field no row mentions. */
  lemma DroppedFieldKeepsInv(s: Store, s': Store, f: Id)
    requires Inv(s) && f in s.fields
    requires s'.versions == s.versions && s'.fields == s.fields - {f}
    requires s'.campaigns == Bump(s.campaigns, s.fields[f].campaign)
    requires forall v :: v in s.versions ==> !Mentions(s.versions[v].rows, f)
    ensures Inv(s')
  {
    hide History, Mentions, VersionFits;
    forall v | v in s'.versions ensures VersionFits(s', s'.versions[v]) {
      var version := s.versions[v];
      assert VersionFits(s, version) && !Mentions(version.rows, f);
      FitsWithout(s, version, f);
      VersionStillFits(s, s', version);
    }
  }

  lemma Unreferenced(versions: map<Id, Version>, f: Id)
    requires !Referenced(versions, f)
    ensures forall v :: v in versions ==> !Mentions(versions[v].rows, f)
  {
  }

  lemma CampaignExists(s: Store, v: Id)
    requires Inv(s) && v in s.versions
    ensures s.versions[v].campaign in s.campaigns
  {
    hide History;
    assert VersionFits(s, s.versions[v]);
  }

  lemma PurgedKeepsNumber(versions: map<Id, Version>, v: Id, f: Id)
    requires v in versions
    ensures Purged(versions, v, f).Keys == versions.Keys
    ensures Purged(versions, v, f)[v].stateVersion == versions[v].stateVersion
  {
  }

  /** Purging the latest version and appending an empty one. */
  lemma CascadeKeepsInv(s: Store, c: Id, f: Id, v: Id, createdBy: Option<string>, newId: Id)
    requires Inv(s) && Latest(s.versions, c) == Some(v) && newId !in s.versions
    ensures c in s.campaigns
    ensures Inv(s.(versions := Purged(s.versions, v, f)[newId := EmptySuccessor(s.versions[v], s.campaigns[c], createdBy)]))
  {
    hide Purge, Purged, Inv;
    CampaignExists(s, v);
    var t := s.(versions := Purged(s.versions, v, f));
    assert Inv(t) && Latest(t.versions, c) == Some(v) by {
      PurgeKeepsInv(s, v, f);
      PurgeKeepsLatest(s.versions, c, v, f);
      LatestIsByInv(t, c, v);
    }
    PurgedKeepsNumber(s.versions, v, f);
    NewVersionKeepsInv(t, c, newId, EmptySuccessor(s.versions[v], s.campaigns[c], createdBy));
  }

  lemma DeleteKeepsInv(s: Store, c: Id, f: Id, createdBy: Option<string>, newId: Id)
    requires Inv(s)
    ensures Inv(DeleteStep(s, c, f, createdBy, newId).store)
  {
    hide Purged, History, Referenced;
    var s' := DeleteStep(s, c, f, createdBy, newId).store;
    if s' != s {
      var latest := Latest(s.versions, c);
      var u := s.(versions := s'.versions);
      assert Inv(u) by {
        if latest.Some? {
          CascadeKeepsInv(s, c, f, latest.value, createdBy, newId);
        }
      }
      Unreferenced(u.versions, f);
      DroppedFieldKeepsInv(u, s', f);
    }
  }

  lemma ReorderKeepsInv(s: Store, c: Id, ids: seq<Option<Id>>)
    requires Inv(s)
    ensures Inv(ReorderStep(s, c, ids).store)
  {
    if ReorderStep(s, c, ids).outcome.Ok? {
      RelabelKeepsInv(s, ReorderStep(s, c, ids).store, c);
    }
  }

  lemma UpdateKeepsInv(s: Store, c: Id, f: Id, u: FieldUpdate)
    requires Inv(s)
    ensures Inv(UpdateStep(s, c, f, u).store)
  {
    var step := UpdateStep(s, c, f, u);
    if step.outcome.Ok? && !NothingSent(u) {
      RelabelKeepsInv(s, step.store, c);
    }
  }

  // ---- accepting a reviewed proposal ----

  /** A proposal as kept for review. */
  datatype StoredProposal = StoredProposal(proposalId: string, configVersion: int, expiresAt: int,
                                           fields: seq<ProposalField>, suggested: seq<Suggested>, snapshot: seq<DocumentSnapshot>)

  datatype AcceptRequest = AcceptRequest(proposalId: string, configVersion: int, accepted: set<string>, rejected: set<string>,
                                         overrides: Option<seq<ProposalField>>)

  ghost predicate IsTop(fields: map<Id, Field>, c: Id, f: Id) {
    && f in fields && fields[f].campaign == c
    && forall g :: g in fields && fields[g].campaign == c ==> fields[g].displayOrder <= fields[f].displayOrder
  }

  /** The highest display order of the campaign's fields, -1 when it has none. */
  ghost function MaxDisplayOrder(fields: map<Id, Field>, c: Id): int {
    if f :| IsTop(fields, c, f) then fields[f].displayOrder else -1
  }

  /** `_next_display_order`; the fields created in this call are among those whose maximum is `start`. */
  function NextDisplayOrder(start: int): int {
    if start >= 0 then start + 1 else 0
  }

  ghost function SuggestedCreate(s: Store, c: Id, sf: Suggested): FieldCreate {
    FieldCreate(sf.key, sf.labelText, sf.description, sf.mode, true, NextDisplayOrder(MaxDisplayOrder(s.fields, c)))
  }

  /** The first `n` accepted suggestions created, uncommitted; `existing` are the keys before the first. */
  ghost function CreateAll(s: Store, c: Id, existing: set<string>, accepted: seq<Suggested>, newIds: nat -> Id, n: nat): (step: Step<()>)
    requires Inv(s) && n <= |accepted|
    ensures Inv(step.store)
  {
    if n == 0 then Step(s, Ok(()))
    else
      var before := CreateAll(s, c, existing, accepted, newIds, n - 1);
      var payload := SuggestedCreate(before.store, c, accepted[n - 1]);
      if before.outcome.Err? then before
      else if accepted[n - 1].key in existing then Step(s, Err(SuggestedFieldKeyConflict))
      else
        CreateKeepsInv(before.store, c, payload, newIds(n - 1));
        var created := CreateStep(before.store, c, payload, newIds(n - 1));
        if created.outcome.Err? then Step(s, Err(SuggestedFieldCreation)) else Step(created.store, Ok(()))
  }

  ghost function ExistingKeys(fields: map<Id, Field>, c: Id): set<string> {
    set f | f in fields && fields[f].campaign == c :: fields[f].key
  }

  /**
    `apply` of the initial-state service: the accepted suggestions become fields and the
    effective proposal the first version, in one transaction.
   */
  ghost function AcceptStep(s: Store, c: Id, stored: Option<StoredProposal>, req: AcceptRequest, now: int, docs: Documents,
                            createdBy: Option<string>, newIds: nat -> Id, newId: Id): Step<()>
    requires Inv(s)
  {
    if c !in s.campaigns then Step(s, Err(CampaignNotFound))
    else if stored.None? || stored.value.proposalId != req.proposalId then Step(s, Err(ProposalNotFound))
    else if stored.value.expiresAt <= now then Step(s, Err(ProposalExpired))
    else if stored.value.suggested != [] && stored.value.configVersion != req.configVersion then Step(s, Err(ConfigVersionConflict))
    else
      var accepted := AcceptedOf(stored.value.suggested, req.accepted, req.rejected);
      var created := CreateAll(s, c, ExistingKeys(s.fields, c), accepted, newIds, |accepted|);
      if created.outcome.Err? then Step(s, created.outcome)
      else
        var configVersion := if accepted == [] || c !in created.store.campaigns then req.configVersion else created.store.campaigns[c];
        var proposal := Merged(Unified(stored.value.fields, accepted), req.overrides);
        var applied := InitialStep(created.store, c, proposal, stored.value.snapshot, docs, configVersion, createdBy, newId);
        if applied.outcome.Err? then Step(s, applied.outcome) else applied
  }

  lemma AcceptKeepsInv(s: Store, c: Id, stored: Option<StoredProposal>, req: AcceptRequest, now: int, docs: Documents,
                       createdBy: Option<string>, newIds: nat -> Id, newId: Id)
    requires Inv(s)
    ensures Inv(AcceptStep(s, c, stored, req, now, docs, createdBy, newIds, newId).store)
  {
    hide Inv, InitialStep, Merged, Unified, CreateAll, AcceptedOf, ExistingKeys;
    if AcceptStep(s, c, stored, req, now, docs, createdBy, newIds, newId).outcome.Ok? {
      var accepted := AcceptedOf(stored.value.suggested, req.accepted, req.rejected);
      var created := CreateAll(s, c, ExistingKeys(s.fields, c), accepted, newIds, |accepted|).store;
      var configVersion := if accepted == [] || c !in created.campaigns then req.configVersion else created.campaigns[c];
      InitialKeepsInv(created, c, Merged(Unified(stored.value.fields, accepted), req.overrides), stored.value.snapshot, docs,
                      configVersion, createdBy, newId);
    }
  }

  lemma {:induction false} CreateAllBumps(s: Store, c: Id, existing: set<string>, accepted: seq<Suggested>, newIds: nat -> Id, n: nat)
    requires Inv(s) && n <= |accepted| && c in s.campaigns
    ensures var step := CreateAll(s, c, existing, accepted, newIds, n);
      && step.store.versions == s.versions
      && c in step.store.campaigns
      && (step.outcome.Ok? ==> step.store.campaigns[c] == s.campaigns[c] + n)
      && (step.outcome.Err? ==> step.outcome.error == SuggestedFieldKeyConflict || step.outcome.error == SuggestedFieldCreation)
  {
    hide Inv, MatchesFieldKey, Utf8Length, KeyTaken, SuggestedCreate;
    if n > 0 {
      CreateAllBumps(s, c, existing, accepted, newIds, n - 1);
    }
  }

  /**
    The optimistic lock on the configuration.  With no suggestion accepted, a client whose config
    version is out of date is rejected.  With one accepted, the version the client sends is only
    compared with the stored proposal, so a change of the configuration since then goes unnoticed:
    a conflict is reported exactly when the client and the stored proposal disagree.
   */
  lemma ConfigLockWhenAccepting(s: Store, c: Id, p: StoredProposal, req: AcceptRequest, now: int, docs: Documents,
                                createdBy: Option<string>, newIds: nat -> Id, newId: Id)
    requires Inv(s) && c in s.campaigns && p.proposalId == req.proposalId && now < p.expiresAt
    ensures var accepted := AcceptedOf(p.suggested, req.accepted, req.rejected);
      var outcome := AcceptStep(s, c, Some(p), req, now, docs, createdBy, newIds, newId).outcome;
      outcome == Err(ConfigVersionConflict) <==>
        || (p.suggested != [] && p.configVersion != req.configVersion)
        || (accepted == [] && req.configVersion != s.campaigns[c])
  {
    hide Inv, Merged, Unified, CreateAll, AcceptedOf, ExistingKeys, InitialRows, StaleDocuments, FieldsByKey;
    var accepted := AcceptedOf(p.suggested, req.accepted, req.rejected);
    CreateAllBumps(s, c, ExistingKeys(s.fields, c), accepted, newIds, |accepted|);
    NothingCreated(s, c, ExistingKeys(s.fields, c), accepted, newIds);
  }

  /** Whenever a proposal is accepted, no two rows that reach the dedup passes have one key. */
  lemma AcceptedRowsAreUnique(s: Store, c: Id, p: StoredProposal, req: AcceptRequest, newIds: nat -> Id)
    requires Inv(s)
    ensures var accepted := AcceptedOf(p.suggested, req.accepted, req.rejected);
      var fields := CreateAll(s, c, ExistingKeys(s.fields, c), accepted, newIds, |accepted|).store.fields;
      var byKey, ps := FieldsByKey(fields, c), Merged(Unified(p.fields, accepted), req.overrides);
      && FirstWins(ItemRows(byKey, fields, ps)) == ItemRows(byKey, fields, ps)
      && |LastWins(ValueRows(byKey, fields, ps))| == |ValueRows(byKey, fields, ps)|
  {
    hide CreateAll, AcceptedOf, ExistingKeys, Merged, Unified, FirstWins, LastWins, ItemRows, ValueRows;
    var accepted := AcceptedOf(p.suggested, req.accepted, req.rejected);
    DedupDropsNothing(CreateAll(s, c, ExistingKeys(s.fields, c), accepted, newIds, |accepted|).store.fields, c,
                      p.fields, accepted, req.overrides);
  }

  lemma NothingCreated(s: Store, c: Id, existing: set<string>, accepted: seq<Suggested>, newIds: nat -> Id)
    requires Inv(s)
    ensures accepted == [] ==> CreateAll(s, c, existing, accepted, newIds, |accepted|) == Step(s, Ok(()))
  {
    hide Inv;
  }

  const GOAL := Suggested("a", "A", "", ItemList, Empty, None, None)

  /**
    In every campaign without a version and without a field "a", a client that accepts one suggestion
    commits with a config version that is not the campaign's, if the stored proposal has it too.
   */
  lemma OutdatedConfigMayCommit(s: Store, c: Id, outdated: int, docs: Documents, newIds: nat -> Id, newId: Id)
    requires Inv(s) && c in s.campaigns && outdated != s.campaigns[c] && Latest(s.versions, c).None?
    requires !KeyTaken(s.fields, c, "a") && newIds(0) !in s.fields && newId !in s.versions
    ensures AcceptStep(s, c, Some(StoredProposal("p", outdated, 1, [], [GOAL], [])),
                       AcceptRequest("p", outdated, {"a"}, {}, None), 0, docs, None, newIds, newId).outcome == Ok(())
  {
    hide Inv, Merged, Unified, MaxDisplayOrder, InitialRows, FieldsByKey, CreateAll;
    assert AcceptedOf([GOAL], {"a"}, {}) == [GOAL] by {
      assert [GOAL][..0] == [];
    }
    OneIsCreated(s, c, newIds);
    assert StaleDocuments([], docs) == {};
  }

  lemma OneIsCreated(s: Store, c: Id, newIds: nat -> Id)
    requires Inv(s) && c in s.campaigns && !KeyTaken(s.fields, c, "a") && newIds(0) !in s.fields
    ensures var created := CreateAll(s, c, ExistingKeys(s.fields, c), [GOAL], newIds, 1);
      && created.outcome == Ok(())
      && created.store.versions == s.versions
      && c in created.store.campaigns
  {
    hide Inv, MaxDisplayOrder;
    assert MatchesFieldKey("a") && Utf8Length("") == 0;
    assert CreateAll(s, c, ExistingKeys(s.fields, c), [GOAL], newIds, 0) == Step(s, Ok(()));
    assert "a" !in ExistingKeys(s.fields, c);
  }
}
