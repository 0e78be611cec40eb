/** The Campaign State store as a state machine, and what holds of every run of calls. */
module CampaignStateRuns {
  import opened Wrappers
  import opened Seqs
  import opened CampaignState
  import opened CampaignStateInitial
  import opened CampaignStateProposals
  import opened CampaignStateSteps
  import opened CampaignStateInvariants

  // ---- the machine ----

  datatype Request =
    | ApplyPatch(campaign: Id, patch: PatchRequest, createdBy: Option<string>, newId: Id)
    | ApplyInitial(campaign: Id, proposal: seq<ProposalField>, snapshot: seq<DocumentSnapshot>, docs: Documents,
                   configVersion: int, createdBy: Option<string>, newId: Id)
    | AcceptProposal(campaign: Id, stored: Option<StoredProposal>, accept: AcceptRequest, now: int, docs: Documents,
                     createdBy: Option<string>, newIds: nat -> Id, newId: Id)
    | CreateField(campaign: Id, create: FieldCreate, newId: Id)
    | UpdateField(campaign: Id, field: Id, update: FieldUpdate)
    | DeleteField(campaign: Id, field: Id, createdBy: Option<string>, newId: Id)
    | ReorderFields(campaign: Id, ids: seq<Option<Id>>)

  ghost function Next(s: Store, r: Request): Store
    requires Inv(s)
  {
    match r
    case ApplyPatch(c, patch, author, newId) => PatchStep(s, c, patch, author, newId).store
    case ApplyInitial(c, proposal, snapshot, docs, cv, author, newId) =>
      InitialStep(s, c, proposal, snapshot, docs, cv, author, newId).store
    case AcceptProposal(c, stored, accept, now, docs, author, newIds, newId) =>
      AcceptStep(s, c, stored, accept, now, docs, author, newIds, newId).store
    case CreateField(c, create, newId) => CreateStep(s, c, create, newId).store
    case UpdateField(c, f, u) => UpdateStep(s, c, f, u).store
    case DeleteField(c, f, author, newId) => DeleteStep(s, c, f, author, newId).store
    case ReorderFields(c, ids) => ReorderStep(s, c, ids).store
  }

  /** Did the call commit? */
  ghost predicate Committed(s: Store, r: Request)
    requires Inv(s)
  {
    match r
    case ApplyPatch(c, patch, author, newId) => PatchStep(s, c, patch, author, newId).outcome.Ok?
    case ApplyInitial(c, proposal, snapshot, docs, cv, author, newId) =>
      InitialStep(s, c, proposal, snapshot, docs, cv, author, newId).outcome.Ok?
    case AcceptProposal(c, stored, accept, now, docs, author, newIds, newId) =>
      AcceptStep(s, c, stored, accept, now, docs, author, newIds, newId).outcome.Ok?
    case CreateField(c, create, newId) => CreateStep(s, c, create, newId).outcome.Ok?
    case UpdateField(c, f, u) => UpdateStep(s, c, f, u).outcome.Ok?
    case DeleteField(c, f, author, newId) => DeleteStep(s, c, f, author, newId).outcome.Ok?
    case ReorderFields(c, ids) => ReorderStep(s, c, ids).outcome.Ok?
  }

  /**
    Every call keeps the invariant: rows refer to live fields of the right mode, versions are
    numbered without repetition or gap, config versions recorded in order and never ahead.
   */
  lemma NextKeepsInv(s: Store, r: Request)
    requires Inv(s)
    ensures Inv(Next(s, r))
  {
    hide Inv, PatchStep, InitialStep, AcceptStep, CreateStep, UpdateStep, DeleteStep, ReorderStep;
    match r
    case ApplyPatch(c, patch, author, newId) => PatchKeepsInv(s, c, patch, author, newId);
    case ApplyInitial(c, proposal, snapshot, docs, cv, author, newId) =>
      InitialKeepsInv(s, c, proposal, snapshot, docs, cv, author, newId);
    case AcceptProposal(c, stored, accept, now, docs, author, newIds, newId) =>
      AcceptKeepsInv(s, c, stored, accept, now, docs, author, newIds, newId);
    case CreateField(c, create, newId) => CreateKeepsInv(s, c, create, newId);
    case UpdateField(c, f, u) => UpdateKeepsInv(s, c, f, u);
    case DeleteField(c, f, author, newId) => DeleteKeepsInv(s, c, f, author, newId);
    case ReorderFields(c, ids) => ReorderKeepsInv(s, c, ids);
  }

  // ---- what a call leaves alone ----

  /** A campaign's configuration, fields and versions are the same in both stores. */
  ghost predicate CampaignKept(s: Store, t: Store, c: Id) {
    && (c in t.campaigns <==> c in s.campaigns) && (c in s.campaigns ==> t.campaigns[c] == s.campaigns[c])
    && (forall f :: f in s.fields && s.fields[f].campaign == c ==> f in t.fields && t.fields[f] == s.fields[f])
    && (forall f :: f in t.fields && t.fields[f].campaign == c ==> f in s.fields)
    && (forall v :: v in s.versions && s.versions[v].campaign == c ==> v in t.versions && t.versions[v] == s.versions[v])
    && (forall v :: v in t.versions && t.versions[v].campaign == c ==> v in s.versions)
  }

  ghost predicate OthersKept(s: Store, t: Store, c: Id) {
    forall d :: d != c ==> CampaignKept(s, t, d)
  }

  /** Versions stay as they are, but for the rows of `purged`, and fields that stay keep their identity. */
  ghost predicate Persistent(s: Store, t: Store, purged: Option<Id>) {
    && (forall v :: v in s.versions ==> v in t.versions && t.versions[v] == s.versions[v].(rows := t.versions[v].rows))
    && (forall v :: v in s.versions && purged != Some(v) ==> t.versions[v] == s.versions[v])
    && (forall f :: f in s.fields && f in t.fields ==> SameIdentity(s.fields[f], t.fields[f]))
  }

  lemma AddedVersionFrame(s: Store, newId: Id, version: Version)
    requires newId !in s.versions
    ensures OthersKept(s, s.(versions := s.versions[newId := version]), version.campaign)
    ensures Persistent(s, s.(versions := s.versions[newId := version]), None)
  {
  }

  lemma RelabelFrame(s: Store, t: Store, c: Id)
    requires c in s.campaigns && t.campaigns == Bump(s.campaigns, c) && t.versions == s.versions
    requires forall f :: f in s.fields && s.fields[f].campaign != c ==> f in t.fields && t.fields[f] == s.fields[f]
    requires forall f :: f in t.fields && f !in s.fields ==> t.fields[f].campaign == c
    requires forall f :: f in s.fields && f in t.fields ==> SameIdentity(s.fields[f], t.fields[f])
    ensures OthersKept(s, t, c) && Persistent(s, t, None)
  {
  }

  lemma PatchFrame(s: Store, c: Id, req: PatchRequest, createdBy: Option<string>, newId: Id)
    requires Inv(s)
    ensures var t := PatchStep(s, c, req, createdBy, newId).store; OthersKept(s, t, c) && Persistent(s, t, None)
  {
    hide Inv, FirstRejection, FoldOps, BaseRows, BaseNumber, FieldsByKey;
    var t := PatchStep(s, c, req, createdBy, newId).store;
    if t != s {
      AddedVersionFrame(s, newId, t.versions[newId]);
    }
  }

  lemma InitialFrame(s: Store, c: Id, proposal: seq<ProposalField>, snapshot: seq<DocumentSnapshot>, docs: Documents,
                     configVersion: int, createdBy: Option<string>, newId: Id)
    requires Inv(s)
    ensures var t := InitialStep(s, c, proposal, snapshot, docs, configVersion, createdBy, newId).store;
      OthersKept(s, t, c) && Persistent(s, t, None)
  {
    hide Inv, InitialRows, StaleDocuments, FieldsByKey;
    var t := InitialStep(s, c, proposal, snapshot, docs, configVersion, createdBy, newId).store;
    if t != s {
      AddedVersionFrame(s, newId, t.versions[newId]);
    }
  }

  lemma CreateFrame(s: Store, c: Id, payload: FieldCreate, newId: Id)
    requires Inv(s)
    ensures var t := CreateStep(s, c, payload, newId).store; OthersKept(s, t, c) && Persistent(s, t, None)
  {
    hide Inv, MatchesFieldKey, Utf8Length, KeyTaken;
    var t := CreateStep(s, c, payload, newId).store;
    if t != s {
      RelabelFrame(s, t, c);
    }
  }

  lemma {:induction false} CreateAllFrame(s: Store, c: Id, existing: set<string>, accepted: seq<Suggested>, newIds: nat -> Id, n: nat)
    requires Inv(s) && n <= |accepted|
    ensures var t := CreateAll(s, c, existing, accepted, newIds, n).store;
      OthersKept(s, t, c) && Persistent(s, t, None) && forall f :: f in s.fields ==> f in t.fields
  {
    hide Inv, CreateStep, OthersKept, Persistent, SuggestedCreate;
    if n == 0 {
      AllKept(s, c);
    } else {
      var before := CreateAll(s, c, existing, accepted, newIds, n - 1).store;
      CreateAllFrame(s, c, existing, accepted, newIds, n - 1);
      var payload := SuggestedCreate(before, c, accepted[n - 1]);
      CreateFrame(before, c, payload, newIds(n - 1));
      CreateKeepsFields(before, c, payload, newIds(n - 1));
      KeptTwice(s, before, CreateStep(before, c, payload, newIds(n - 1)).store, c, None);
      AllKept(s, c);
    }
  }

  lemma CreateKeepsFields(s: Store, c: Id, payload: FieldCreate, newId: Id)
    requires Inv(s)
    ensures forall f :: f in s.fields ==> f in CreateStep(s, c, payload, newId).store.fields
  {
  }

  lemma AcceptFrame(s: Store, c: Id, stored: Option<StoredProposal>, req: AcceptRequest, now: int, docs: Documents,
                    createdBy: Option<string>, newIds: nat -> Id, newId: Id)
    requires Inv(s)
    ensures var t := AcceptStep(s, c, stored, req, now, docs, createdBy, newIds, newId).store;
      OthersKept(s, t, c) && Persistent(s, t, None)
  {
    hide Inv, InitialStep, Merged, Unified, CreateAll, AcceptedOf, ExistingKeys, OthersKept, Persistent;
    AllKept(s, c);
    if AcceptStep(s, c, stored, req, now, docs, createdBy, newIds, newId).outcome.Ok? {
      var accepted := AcceptedOf(stored.value.suggested, req.accepted, req.rejected);
      var created := CreateAll(s, c, ExistingKeys(s.fields, c), accepted, newIds, |accepted|).store;
      var configVersion := if accepted == [] || c !in created.campaigns then req.configVersion else created.campaigns[c];
      var proposal := Merged(Unified(stored.value.fields, accepted), req.overrides);
      CreateAllFrame(s, c, ExistingKeys(s.fields, c), accepted, newIds, |accepted|);
      InitialFrame(created, c, proposal, stored.value.snapshot, docs, configVersion, createdBy, newId);
      KeptTwice(s, created, InitialStep(created, c, proposal, stored.value.snapshot, docs, configVersion, createdBy, newId).store, c, None);
    }
  }

  lemma UpdateFrame(s: Store, c: Id, f: Id, u: FieldUpdate)
    requires Inv(s)
    ensures var t := UpdateStep(s, c, f, u).store; OthersKept(s, t, c) && Persistent(s, t, None)
  {
    hide History, CheckUpdate, NothingSent;
    var t := UpdateStep(s, c, f, u).store;
    if t != s {
      RelabelFrame(s, t, c);
    }
  }

  lemma ReorderFrame(s: Store, c: Id, ids: seq<Option<Id>>)
    requires Inv(s)
    ensures var t := ReorderStep(s, c, ids).store; OthersKept(s, t, c) && Persistent(s, t, None)
  {
    hide Inv, ReorderAccepted, PositionOf;
    var t := ReorderStep(s, c, ids).store;
    if t != s {
      RelabelFrame(s, t, c);
    }
  }

  lemma CascadeFrame(s: Store, c: Id, f: Id, v: Id, newId: Id, version: Version)
    requires v in s.versions && s.versions[v].campaign == c && newId !in s.versions && version.campaign == c
    ensures var t := s.(versions := Purged(s.versions, v, f)[newId := version]);
      OthersKept(s, t, c) && Persistent(s, t, Some(v)) && t.versions[v].rows == Purge(s.versions[v].rows, f)
  {
    hide Purge;
  }

  lemma DropFrame(s: Store, t: Store, c: Id, f: Id)
    requires c in s.campaigns && f in s.fields && s.fields[f].campaign == c
    requires t == Store(Bump(s.campaigns, c), s.fields - {f}, s.versions)
    ensures OthersKept(s, t, c) && Persistent(s, t, None)
  {
  }

  lemma KeptTwice(s: Store, t: Store, u: Store, c: Id, purged: Option<Id>)
    requires OthersKept(s, t, c) && OthersKept(t, u, c) && Persistent(s, t, purged) && Persistent(t, u, None)
    requires forall f :: f in s.fields ==> f in t.fields
    ensures OthersKept(s, u, c) && Persistent(s, u, purged)
  {
    forall d | d != c ensures CampaignKept(s, u, d) {
      assert CampaignKept(s, t, d) && CampaignKept(t, u, d);
    }
  }

  lemma DeleteFrame(s: Store, c: Id, f: Id, createdBy: Option<string>, newId: Id)
    requires Inv(s)
    ensures var t := DeleteStep(s, c, f, createdBy, newId).store;
      var latest := Latest(s.versions, c);
      && OthersKept(s, t, c) && Persistent(s, t, latest)
      && (t != s && latest.Some? ==> t.versions[latest.value].rows == Purge(s.versions[latest.value].rows, f))
  {
    hide Purged, Purge, Referenced, History, OthersKept, Persistent;
    var t := DeleteStep(s, c, f, createdBy, newId).store;
    var latest := Latest(s.versions, c);
    if t == s {
      AllKept(s, c);
    } else {
      assert c in s.campaigns;
      var u := s.(versions := t.versions);
      DropFrame(u, t, c, f);
      if latest.Some? {
        CascadeFrame(s, c, f, latest.value, newId, t.versions[newId]);
      } else {
        AllKept(s, c);
      }
      KeptTwice(s, u, t, c, latest);
    }
  }

  lemma AllKept(s: Store, c: Id)
    ensures OthersKept(s, s, c) && forall purged :: Persistent(s, s, purged)
  {
  }

  lemma Framed(s: Store, r: Request)
    requires Inv(s)
    ensures OthersKept(s, Next(s, r), r.campaign)
    ensures Persistent(s, Next(s, r), if r.DeleteField? then Latest(s.versions, r.campaign) else None)
  {
    hide Inv, PatchStep, InitialStep, AcceptStep, CreateStep, UpdateStep, DeleteStep, ReorderStep, OthersKept, Persistent;
    match r
    case ApplyPatch(c, patch, author, newId) => PatchFrame(s, c, patch, author, newId);
    case ApplyInitial(c, proposal, snapshot, docs, cv, author, newId) =>
      InitialFrame(s, c, proposal, snapshot, docs, cv, author, newId);
    case AcceptProposal(c, stored, accept, now, docs, author, newIds, newId) =>
      AcceptFrame(s, c, stored, accept, now, docs, author, newIds, newId);
    case CreateField(c, create, newId) => CreateFrame(s, c, create, newId);
    case UpdateField(c, f, u) => UpdateFrame(s, c, f, u);
    case DeleteField(c, f, author, newId) => DeleteFrame(s, c, f, author, newId);
    case ReorderFields(c, ids) => ReorderFrame(s, c, ids);
  }

  // ---- runs ----

  /** The store after a sequence of calls. */
  ghost function Run(s: Store, rs: seq<Request>): (t: Store)
    requires Inv(s)
    ensures Inv(t)
    decreases |rs|
  {
    if rs == [] then s
    else
      NextKeepsInv(s, rs[0]);
      Run(Next(s, rs[0]), rs[1..])
  }

  /** A rejected call changes nothing. */
  lemma RejectedChangesNothing(s: Store, r: Request)
    requires Inv(s) && !Committed(s, r)
    ensures Next(s, r) == s
  {
    hide Inv, FirstRejection, FoldOps, InitialRows, StaleDocuments, Purged, Referenced, CreateAll, Merged, Unified;
  }

  /** Nothing a call does is seen by another campaign. */
  lemma OtherCampaignsUntouched(s: Store, r: Request, c: Id)
    requires Inv(s) && c != r.campaign
    ensures CampaignKept(s, Next(s, r), c)
  {
    hide Next, Inv;
    Framed(s, r);
  }

  /**
    A version is never removed or renumbered, and its rows change in one case only: a field is
    deleted while the version is its campaign's latest, and then just that field's rows go.
   */
  lemma VersionsPersist(s: Store, r: Request, v: Id)
    requires Inv(s) && v in s.versions
    ensures var t := Next(s, r);
      && v in t.versions && t.versions[v] == s.versions[v].(rows := t.versions[v].rows)
      && (t.versions[v].rows != s.versions[v].rows ==>
            && r.DeleteField? && IsLatest(s.versions, s.versions[v].campaign, v)
            && t.versions[v].rows == Purge(s.versions[v].rows, r.field))
  {
    hide Inv, PatchStep, InitialStep, AcceptStep, CreateStep, UpdateStep, DeleteStep, ReorderStep, Purge;
    Framed(s, r);
    if r.DeleteField? {
      DeleteFrame(s, r.campaign, r.field, r.createdBy, r.newId);
    }
  }

  /** Once a version has a successor, no run of calls changes it in any way. */
  lemma {:induction false} HistoryIsFrozen(s: Store, rs: seq<Request>, v: Id)
    requires Inv(s) && v in s.versions && !IsLatest(s.versions, s.versions[v].campaign, v)
    ensures v in Run(s, rs).versions && Run(s, rs).versions[v] == s.versions[v]
    decreases |rs|
  {
    if rs != [] {
      hide Next, Inv;
      NextKeepsInv(s, rs[0]);
      StillSuperseded(s, rs[0], v);
      HistoryIsFrozen(Next(s, rs[0]), rs[1..], v);
    }
  }

  lemma StillSuperseded(s: Store, r: Request, v: Id)
    requires Inv(s) && v in s.versions && !IsLatest(s.versions, s.versions[v].campaign, v)
    ensures v in Next(s, r).versions && Next(s, r).versions[v] == s.versions[v]
    ensures !IsLatest(Next(s, r).versions, s.versions[v].campaign, v)
  {
    hide Next, Inv;
    VersionsPersist(s, r, v);
    var w :| w in s.versions && s.versions[w].campaign == s.versions[v].campaign
      && s.versions[w].stateVersion > s.versions[v].stateVersion;
    VersionsPersist(s, r, w);
  }

  lemma MentionedFieldLives(s: Store, v: Id, f: Id)
    requires Inv(s) && v in s.versions && Mentions(s.versions[v].rows, f)
    ensures f in s.fields
  {
    hide History;
    assert VersionFits(s, s.versions[v]);
  }

  /**
    A field that a superseded version mentions can never be deleted again, whatever is called;
    it keeps its campaign, its key and its mode.
   */
  lemma {:induction false} PinnedField(s: Store, rs: seq<Request>, v: Id, f: Id)
    requires Inv(s) && v in s.versions && !IsLatest(s.versions, s.versions[v].campaign, v)
    requires Mentions(s.versions[v].rows, f)
    ensures f in s.fields && f in Run(s, rs).fields && SameIdentity(s.fields[f], Run(s, rs).fields[f])
    decreases |rs|
  {
    hide Next, Inv, Mentions;
    MentionedFieldLives(s, v, f);
    if rs != [] {
      var t := Next(s, rs[0]);
      NextKeepsInv(s, rs[0]);
      StillSuperseded(s, rs[0], v);
      PinnedField(t, rs[1..], v, f);
      Framed(s, rs[0]);
    }
  }

  // ---- numbering ----

  /** The number of the latest version, 0 when there is none. */
  ghost function LatestNumber(s: Store, c: Id): int {
    var latest := Latest(s.versions, c);
    if latest.None? then 0 else s.versions[latest.value].stateVersion
  }

  lemma {:induction false} NumbersBelow(versions: map<Id, Version>, c: Id, v: Id, k: int)
    requires NoGaps(versions) && v in versions && versions[v].campaign == c && 1 <= k <= versions[v].stateVersion
    ensures HasVersion(versions, c, k)
    decreases versions[v].stateVersion - k
  {
    if k < versions[v].stateVersion {
      assert HasVersion(versions, c, versions[v].stateVersion - 1);
      var w :| w in versions && versions[w].campaign == c && versions[w].stateVersion == versions[v].stateVersion - 1;
      hide NoGaps;
      NumbersBelow(versions, c, w, k);
    }
  }

  /** A campaign's versions are exactly 1..n, each with one row, each based on the one before it. */
  lemma VersionsAreOneToN(s: Store, c: Id, k: int)
    requires Inv(s)
    ensures HasVersion(s.versions, c, k) <==> 1 <= k <= LatestNumber(s, c)
    ensures forall v, w | v in s.versions && w in s.versions && s.versions[v].campaign == s.versions[w].campaign == c ::
      s.versions[v].stateVersion == s.versions[w].stateVersion ==> v == w
    ensures forall v | v in s.versions && s.versions[v].campaign == c ::
      s.versions[v].base == (if s.versions[v].stateVersion == 1 then None else Some(s.versions[v].stateVersion - 1))
  {
    hide NoGaps, ConfigsOrdered;
    LatestExists(s.versions, c);
    var latest := Latest(s.versions, c);
    if latest.Some? && 1 <= k <= LatestNumber(s, c) {
      NumbersBelow(s.versions, c, latest.value, k);
    }
    forall v | v in s.versions && s.versions[v].campaign == c
      ensures 1 <= s.versions[v].stateVersion
      ensures s.versions[v].base == (if s.versions[v].stateVersion == 1 then None else Some(s.versions[v].stateVersion - 1))
    {
      assert VersionFits(s, s.versions[v]);
    }
  }

  lemma LatestNumberGrows(s: Store, r: Request, c: Id)
    requires Inv(s)
    ensures LatestNumber(s, c) <= LatestNumber(Next(s, r), c)
  {
    hide Next, Inv;
    var latest := Latest(s.versions, c);
    NextKeepsInv(s, r);
    LatestExists(Next(s, r).versions, c);
    if latest.Some? {
      VersionsPersist(s, r, latest.value);
    } else {
      LatestNumberNatural(Next(s, r), c);
    }
  }

  lemma LatestNumberNatural(s: Store, c: Id)
    requires Inv(s)
    ensures LatestNumber(s, c) >= 0
  {
    hide History;
    var latest := Latest(s.versions, c);
    assert latest.Some? ==> VersionFits(s, s.versions[latest.value]);
  }

  lemma {:induction false} LatestNumberGrowsOverRuns(s: Store, rs: seq<Request>, c: Id)
    requires Inv(s)
    ensures LatestNumber(s, c) <= LatestNumber(Run(s, rs), c)
    decreases |rs|
  {
    if rs != [] {
      hide Next, Inv;
      NextKeepsInv(s, rs[0]);
      LatestNumberGrows(s, rs[0], c);
      LatestNumberGrowsOverRuns(Next(s, rs[0]), rs[1..], c);
    }
  }

  /** A committed patch was based on the latest version and becomes the next one. */
  lemma PatchAdvances(s: Store, c: Id, req: PatchRequest, createdBy: Option<string>, newId: Id)
    requires Inv(s) && PatchStep(s, c, req, createdBy, newId).outcome.Ok?
    ensures req.base.GetOr(0) == LatestNumber(s, c)
    ensures var step := PatchStep(s, c, req, createdBy, newId);
      && Latest(step.store.versions, c) == Some(newId)
      && LatestNumber(step.store, c) == req.base.GetOr(0) + 1 == step.outcome.value.stateVersion
  {
    hide FirstRejection, FoldOps, Inv, FieldsByKey, BaseRows;
    PatchKeepsInv(s, c, req, createdBy, newId);
    BelowSuccessor(s, c);
    var t := PatchStep(s, c, req, createdBy, newId).store;
    assert IsLatest(t.versions, c, newId);
    LatestIsByInv(t, c, newId);
  }

  /** No lost update: of two patches that commit in one run, the later is based on a later version. */
  lemma NoLostUpdate(s: Store, first: Request, between: seq<Request>, second: Request)
    requires Inv(s) && first.ApplyPatch? && second.ApplyPatch? && first.campaign == second.campaign
    requires Committed(s, first) && Committed(Run(s, [first] + between), second)
    ensures first.patch.base.GetOr(0) < second.patch.base.GetOr(0)
  {
    hide Inv, PatchStep;
    var t := Next(s, first);
    NextKeepsInv(s, first);
    assert ([first] + between)[0] == first && ([first] + between)[1..] == between;
    var u := Run(t, between);
    PatchAdvances(s, first.campaign, first.patch, first.createdBy, first.newId);
    LatestNumberGrowsOverRuns(t, between, first.campaign);
    PatchAdvances(u, second.campaign, second.patch, second.createdBy, second.newId);
  }

  // ---- the configuration version ----

  /** How many configuration changes the call makes when it commits. */
  function ConfigChanges(r: Request): nat {
    match r
    case ApplyPatch(_, _, _, _) => 0
    case ApplyInitial(_, _, _, _, _, _, _) => 0
    case AcceptProposal(_, stored, accept, _, _, _, _, _) =>
      if stored.None? then 0 else |AcceptedOf(stored.value.suggested, accept.accepted, accept.rejected)|
    case CreateField(_, _, _) => 1
    case UpdateField(_, _, update) => if NothingSent(update) then 0 else 1
    case DeleteField(_, _, _, _) => 1
    case ReorderFields(_, _) => 1
  }

  /** The config version counts the committed configuration changes, one by one. */
  lemma ConfigVersionCounts(s: Store, r: Request)
    requires Inv(s) && r.campaign in s.campaigns
    ensures r.campaign in Next(s, r).campaigns
    ensures Next(s, r).campaigns[r.campaign] == s.campaigns[r.campaign] + if Committed(s, r) then ConfigChanges(r) else 0
    ensures ConfigChanges(r) == 0 ==> Next(s, r).fields == s.fields
  {
    hide Inv, FirstRejection, FoldOps, InitialRows, StaleDocuments, Purged, Referenced, CheckUpdate, MatchesFieldKey, AcceptStep, NothingSent;
    if r.AcceptProposal? {
      AcceptCounts(s, r);
    }
  }

  lemma AcceptCounts(s: Store, r: Request)
    requires Inv(s) && r.AcceptProposal? && r.campaign in s.campaigns
    ensures var step := AcceptStep(s, r.campaign, r.stored, r.accept, r.now, r.docs, r.createdBy, r.newIds, r.newId);
      && r.campaign in step.store.campaigns
      && step.store.campaigns[r.campaign] == s.campaigns[r.campaign] + (if step.outcome.Ok? then ConfigChanges(r) else 0)
      && (ConfigChanges(r) == 0 ==> step.store.fields == s.fields)
  {
    hide Inv, Merged, Unified, CreateAll, AcceptedOf, ExistingKeys, InitialRows, StaleDocuments, FieldsByKey;
    if r.stored.Some? {
      var accepted := AcceptedOf(r.stored.value.suggested, r.accept.accepted, r.accept.rejected);
      CreateAllBumps(s, r.campaign, ExistingKeys(s.fields, r.campaign), accepted, r.newIds, |accepted|);
      NothingCreated(s, r.campaign, ExistingKeys(s.fields, r.campaign), accepted, r.newIds);
    }
  }

  // ---- deleting and reordering fields ----

  /**
    Deleting a field commits exactly when no superseded version holds a row of it: the cascade
    clears the latest version only, and the RESTRICT constraint guards all the others.
   */
  lemma DeleteCommitsWhen(s: Store, c: Id, f: Id, createdBy: Option<string>, newId: Id)
    requires Inv(s) && f in s.fields && s.fields[f].campaign == c && newId !in s.versions
    ensures DeleteStep(s, c, f, createdBy, newId).outcome.Ok? <==>
      forall v :: v in s.versions && Mentions(s.versions[v].rows, f) ==> IsLatest(s.versions, c, v)
  {
    hide Purge, History, Mentions;
    var latest := Latest(s.versions, c);
    LatestExists(s.versions, c);
    if latest.Some? {
      var last := latest.value;
      var after := Purged(s.versions, last, f)[newId := EmptySuccessor(s.versions[last], s.campaigns[c], createdBy)];
      PurgedMentionsNot(s.versions[last].rows, f);
      assert forall v :: v in s.versions && v != last ==> after[v] == s.versions[v];
      assert after[newId].rows == NO_ROWS;
      LatestIsOnly(s, c, last);
    } else {
      forall v | v in s.versions ensures !Mentions(s.versions[v].rows, f) {
        OtherCampaignMentionsNot(s, v, f);
      }
    }
  }

  lemma PurgedMentionsNot(rows: Rows, f: Id)
    ensures !Mentions(Purge(rows, f), f) && !Mentions(NO_ROWS, f)
  {
  }

  lemma LatestIsOnly(s: Store, c: Id, last: Id)
    requires Inv(s) && Latest(s.versions, c) == Some(last)
    ensures forall v :: IsLatest(s.versions, c, v) ==> v == last
  {
    hide Inv, IsLatest;
    forall v | IsLatest(s.versions, c, v) ensures v == last {
      LatestIsByInv(s, c, v);
    }
  }

  lemma OtherCampaignMentionsNot(s: Store, v: Id, f: Id)
    requires Inv(s) && v in s.versions && f in s.fields && s.fields[f].campaign != s.versions[v].campaign
    ensures !Mentions(s.versions[v].rows, f)
  {
    hide History;
    assert VersionFits(s, s.versions[v]);
  }

  /** Deleting any field of a campaign with state leaves the active state empty: nothing is carried over. */
  lemma DeleteEmptiesActiveState(s: Store, c: Id, f: Id, createdBy: Option<string>, newId: Id)
    requires Inv(s) && DeleteStep(s, c, f, createdBy, newId).outcome.Ok? && Latest(s.versions, c).Some?
    ensures var t := DeleteStep(s, c, f, createdBy, newId).store;
      Latest(t.versions, c) == Some(newId) && t.versions[newId].rows == NO_ROWS
  {
    hide Inv, Purge, Referenced;
    var t := DeleteStep(s, c, f, createdBy, newId).store;
    DeleteKeepsInv(s, c, f, createdBy, newId);
    assert IsLatest(t.versions, c, newId);
    LatestIsByInv(t, c, newId);
  }

  ghost predicate ListedBefore(a: Field, b: Field) {
    a.displayOrder < b.displayOrder || (a.displayOrder == b.displayOrder && Text.StrLe(a.key, b.key))
  }

  /** The order in which `list_fields` returns the fields: by display order, then by key. */
  ghost predicate IsListing(fields: map<Id, Field>, c: Id, l: seq<Id>) {
    && Distinct(l) && ToSet(l) == FieldsOf(fields, c)
    && forall i, j :: 0 <= i < j < |l| ==> l[i] in fields && l[j] in fields && ListedBefore(fields[l[i]], fields[l[j]])
  }

  lemma {:induction false} PositionFound(ids: seq<Option<Id>>, i: nat)
    requires i < |ids| && Distinct(ids) && ids[i].Some?
    ensures PositionOf(ids, ids[i].value) == i
  {
    var n := |ids| - 1;
    if i < n {
      PositionFound(ids[..n], i);
    }
  }

  lemma {:induction false} IncreasingIsIdentity(d: seq<int>, i: nat)
    requires i < |d|
    requires forall j, k :: 0 <= j < k < |d| ==> d[j] < d[k]
    requires forall j :: 0 <= j < |d| ==> 0 <= d[j] < |d|
    ensures d[i] == i
  {
    forall j | 0 <= j <= i ensures d[j] >= j { IncreasingAbove(d, j); }
    IncreasingBelow(d, i);
  }

  lemma {:induction false} IncreasingAbove(d: seq<int>, i: nat)
    requires i < |d|
    requires forall j, k :: 0 <= j < k < |d| ==> d[j] < d[k]
    requires forall j :: 0 <= j < |d| ==> 0 <= d[j] < |d|
    ensures d[i] >= i
  {
    if i > 0 {
      IncreasingAbove(d, i - 1);
    }
  }

  lemma {:induction false} IncreasingBelow(d: seq<int>, i: nat)
    requires i < |d|
    requires forall j, k :: 0 <= j < k < |d| ==> d[j] < d[k]
    requires forall j :: 0 <= j < |d| ==> 0 <= d[j] < |d|
    ensures d[i] <= i
    decreases |d| - i
  {
    if i + 1 < |d| {
      IncreasingBelow(d, i + 1);
    }
  }

  /** After a reorder the fields are listed in exactly the order requested. */
  lemma ReorderLists(s: Store, c: Id, ids: seq<Option<Id>>, l: seq<Id>)
    requires Inv(s) && ReorderStep(s, c, ids).outcome.Ok?
    requires IsListing(ReorderStep(s, c, ids).store.fields, c, l)
    ensures |l| == |ids| && forall i :: 0 <= i < |l| ==> ids[i] == Some(l[i])
  {
    hide Inv;
    var fields := ReorderStep(s, c, ids).store.fields;
    var wanted := seq(|ids|, i requires 0 <= i < |ids| => ids[i].value);
    assert FieldsOf(fields, c) == FieldsOf(s.fields, c) == ToSet(wanted) by {
      WantedSet(ids, wanted);
    }
    DistinctSize(l);
    DistinctSize(wanted);
    forall i: nat | i < |l|
      ensures 0 <= fields[l[i]].displayOrder < |ids| && ids[fields[l[i]].displayOrder] == Some(l[i])
    {
      assert l[i] in ToSet(wanted);
      var j :| 0 <= j < |wanted| && wanted[j] == l[i];
      PositionFound(ids, j);
    }
    hide ReorderStep, ListedBefore;
    var d := seq(|l|, i requires 0 <= i < |l| => fields[l[i]].displayOrder);
    forall j, k | 0 <= j < k < |d| ensures d[j] < d[k] {
      ListedBeforeOrders(fields[l[j]], fields[l[k]]);
      assert l[j] != l[k];
    }
    forall i | 0 <= i < |l| ensures ids[i] == Some(l[i]) {
      IncreasingIsIdentity(d, i);
    }
  }

  lemma ListedBeforeOrders(a: Field, b: Field)
    requires ListedBefore(a, b)
    ensures a.displayOrder <= b.displayOrder
  {
  }

  lemma WantedSet(ids: seq<Option<Id>>, wanted: seq<Id>)
    requires forall i :: 0 <= i < |ids| ==> ids[i].Some?
    requires |wanted| == |ids| && forall i :: 0 <= i < |ids| ==> wanted[i] == ids[i].value
    ensures (set i | 0 <= i < |ids| && ids[i].Some? :: ids[i].value) == ToSet(wanted)
  {
    var all := set i | 0 <= i < |ids| && ids[i].Some? :: ids[i].value;
    forall x | x in all ensures x in ToSet(wanted) {
      var i :| 0 <= i < |ids| && ids[i].Some? && ids[i].value == x;
      assert wanted[i] == x;
    }
    forall x | x in ToSet(wanted) ensures x in all {
      var i :| 0 <= i < |wanted| && wanted[i] == x;
      assert ids[i].value == x;
    }
  }

  // ---- a field that cannot be deleted ----

  const NEW_STORE := Store(map[0 := 1], map[], map[])
  const GOAL_FIELD := Field(0, "a", "A", "", SingleValue, true, 0)
  const WITH_FIELD := Store(map[0 := 2], map[0 := GOAL_FIELD], map[])
  const FILLED := Version(0, 1, 2, Patch, None, None, Rows(map[0 := Value("x", [])], map[]))
  const CLEARED := Version(0, 2, 2, Patch, Some(1), None, NO_ROWS)

  const FILLED_STORE := WITH_FIELD.(versions := map[0 := FILLED])
  const CLEARED_STORE := WITH_FIELD.(versions := map[0 := FILLED, 1 := CLEARED])

  function GoalCalls(): seq<Request> {
    [ CreateField(0, FieldCreate("a", "A", "", SingleValue, true, 0), 0),
      ApplyPatch(0, PatchRequest(None, 2, [ReplaceSingle("a", "r", [], "x")]), None, 0),
      ApplyPatch(0, PatchRequest(Some(1), 2, [ClearSingle("a", "r", [])]), None, 1) ]
  }

  /** A field gets a value and loses it again: the latest version does not use the field, and it cannot be deleted. */
  lemma DeleteMayBeRefused()
    ensures Inv(NEW_STORE)
    ensures var s := Run(NEW_STORE, GoalCalls());
      && (forall v :: v in s.versions && IsLatest(s.versions, 0, v) ==> !Mentions(s.versions[v].rows, 0))
      && DeleteStep(s, 0, 0, None, 2).outcome == Err(IntegrityError)
  {
    GoalRun();
    hide DeleteStep, Inv, Run, GoalCalls;
    var s := Run(NEW_STORE, GoalCalls());
    DeleteCommitsWhen(s, 0, 0, None, 2);
    assert s.versions[1].stateVersion > s.versions[0].stateVersion;
    assert Mentions(s.versions[0].rows, 0) && !IsLatest(s.versions, 0, 0);
    RefusalIsIntegrity(s, 0, 0, None, 2);
  }

  lemma RefusalIsIntegrity(s: Store, c: Id, f: Id, createdBy: Option<string>, newId: Id)
    requires Inv(s) && f in s.fields && s.fields[f].campaign == c && DeleteStep(s, c, f, createdBy, newId).outcome.Err?
    ensures DeleteStep(s, c, f, createdBy, newId).outcome == Err(IntegrityError)
  {
    hide Inv, Purged, Referenced;
  }

  lemma GoalRun()
    ensures Inv(NEW_STORE)
    ensures Run(NEW_STORE, GoalCalls()) == CLEARED_STORE
  {
    hide Next, Inv;
    var calls := GoalCalls();
    GoalCreated();
    RunOne(NEW_STORE, calls);
    GoalFilled();
    RunOne(WITH_FIELD, calls[1..]);
    GoalCleared();
    RunOne(FILLED_STORE, calls[2..]);
  }

  lemma GoalFilled()
    requires Inv(WITH_FIELD)
    ensures Next(WITH_FIELD, GoalCalls()[1]) == FILLED_STORE
  {
    hide Inv, PatchStep;
    GoalPatched(WITH_FIELD, ReplaceSingle("a", "r", [], "x"), FILLED, 0);
  }

  lemma GoalCleared()
    requires Inv(FILLED_STORE)
    ensures Next(FILLED_STORE, GoalCalls()[2]) == CLEARED_STORE
  {
    hide Inv, PatchStep;
    assert IsLatest(FILLED_STORE.versions, 0, 0);
    assert FILLED.rows.values - {0} == map[];
    GoalPatched(FILLED_STORE, ClearSingle("a", "r", []), CLEARED, 1);
  }

  lemma RunOne(s: Store, rs: seq<Request>)
    requires Inv(s) && rs != []
    ensures Inv(Next(s, rs[0])) && Run(s, rs) == Run(Next(s, rs[0]), rs[1..])
  {
    hide Next, Inv;
    NextKeepsInv(s, rs[0]);
  }

  lemma GoalCreated()
    ensures Inv(NEW_STORE) && Next(NEW_STORE, GoalCalls()[0]) == WITH_FIELD
  {
    assert MatchesFieldKey("a") && Utf8Length("") == 0;
    assert !KeyTaken(NEW_STORE.fields, 0, "a");
  }

  /** One accepted operation on the field makes the next version. */
  lemma GoalPatched(s: Store, op: Op, version: Version, newId: Id)
    requires Inv(s) && s.campaigns == WITH_FIELD.campaigns && s.fields == WITH_FIELD.fields && newId !in s.versions
    requires op.Mode() == SingleValue && op.fieldKey == "a" && op.reason == "r" && op.refs == [] && op.TextLength() <= 1
    requires var latest := Latest(s.versions, 0);
      version == Version(0, Successor(BaseNumber(s, latest)), 2, Patch, BaseNumber(s, latest), None, ApplyOp(BaseRows(s, latest), 0, op))
    ensures PatchStep(s, 0, PatchRequest(version.base, 2, [op]), None, newId).store == s.(versions := s.versions[newId := version])
  {
    hide Inv, ApplyOp, Latest, BaseRows, BaseNumber, CheckPayload;
    var byKey, base := FieldsByKey(s.fields, 0), BaseRows(s, Latest(s.versions, 0));
    PayloadFine(op);
    assert byKey == map["a" := 0];
    assert CheckOp(byKey, s.fields, base, 0, op).None?;
    assert FirstRejection(byKey, s.fields, base, [op], 0).None?;
    assert KeysKnown(byKey, [op]) && FoldOps(base, byKey, [op], 0) == base;
  }

  lemma PayloadFine(op: Op)
    requires op.reason == "r" && op.refs == [] && op.TextLength() <= 1
    ensures CheckPayload(op).None?
  {
  }
}
