/** What the initial state and an accepted proposal store, entry by entry. */
module CampaignStateStored {
  import opened Wrappers
  import opened Seqs
  import opened CampaignState
  import opened CampaignStateInitial
  import opened CampaignStateProposals
  import opened CampaignStateSteps
  import opened CampaignStateInvariants
  import opened CampaignStateOutcomes

  // ---- the rows of a proposal ----

  /** The entry proposes something of this mode for the campaign's enabled field `f`. */
  ghost predicate Gives(fields: map<Id, Field>, c: Id, p: ProposalField, f: Id, mode: Mode) {
    && f in fields && fields[f].campaign == c && fields[f].key == p.fieldKey && fields[f].enabled && fields[f].mode == mode
    && p.status.Proposed? && (mode == SingleValue ==> p.single.Some?) && (mode == ItemList ==> p.list.Some?)
  }

  lemma GivesWhen(fields: map<Id, Field>, c: Id, p: ProposalField, f: Id, mode: Mode)
    requires KeysUnique(fields)
    ensures var byKey := FieldsByKey(fields, c);
      Gives(fields, c, p, f, mode) <==> Contributes(byKey, fields, p, mode) && byKey[p.fieldKey] == f
  {
    if Gives(fields, c, p, f, mode) {
      assert fields[f].key in FieldsByKey(fields, c);
    }
  }

  lemma {:induction false} ValueRowFrom(byKey: map<string, Id>, fields: map<Id, Field>, ps: seq<ProposalField>, row: ValueRow)
    ensures row in ValueRows(byKey, fields, ps) <==> exists i :: 0 <= i < |ps| && row in ValueRowsOf(byKey, fields, ps[i])
  {
    hide ValueRowsOf;
    if ps != [] {
      var n := |ps| - 1;
      ValueRowFrom(byKey, fields, ps[..n], row);
      assert forall i :: 0 <= i < n ==> ps[..n][i] == ps[i];
    }
  }

  lemma {:induction false} ItemRowFrom(byKey: map<string, Id>, fields: map<Id, Field>, ps: seq<ProposalField>, row: ItemRow)
    ensures row in ItemRows(byKey, fields, ps) <==> exists i :: 0 <= i < |ps| && row in ItemRowsOf(byKey, fields, ps[i])
  {
    hide ItemRowsOf;
    if ps != [] {
      var n := |ps| - 1;
      ItemRowFrom(byKey, fields, ps[..n], row);
      assert forall i :: 0 <= i < n ==> ps[..n][i] == ps[i];
    }
  }

  lemma {:induction false} LastWinsHolds(rows: seq<ValueRow>, row: ValueRow)
    requires ValueRowsUnique(rows)
    ensures row in rows <==> row.field in LastWins(rows) && LastWins(rows)[row.field] == row.value
  {
    if rows != [] {
      var n := |rows| - 1;
      LastWinsHolds(rows[..n], row);
      LastWinsFields(rows[..n], rows[n].field);
      assert rows == rows[..n] + [rows[n]];
      if row in rows[..n] {
        var i :| 0 <= i < n && rows[..n][i] == row;
        assert rows[i].field != rows[n].field;
      }
    }
  }

  lemma {:induction false} ItemTableHolds(rows: seq<ItemRow>, row: ItemRow)
    requires RowsUnique(rows)
    ensures row in rows <==> (row.field, row.key) in ItemTable(rows) && ItemTable(rows)[(row.field, row.key)] == row.item
  {
    if rows != [] {
      var n := |rows| - 1;
      ItemTableHolds(rows[..n], row);
      ItemTableKeys(rows[..n], (rows[n].field, rows[n].key));
      assert rows == rows[..n] + [rows[n]];
      if row in rows[..n] {
        var i :| 0 <= i < n && rows[..n][i] == row;
        assert (rows[i].field, rows[i].key) != (rows[n].field, rows[n].key);
      }
    }
  }

  /** Entry `i` gives this value to the field. */
  ghost predicate GivesValue(fields: map<Id, Field>, c: Id, ps: seq<ProposalField>, i: nat, f: Id, value: Value) {
    && i < |ps| && Gives(fields, c, ps[i], f, SingleValue)
    && value.text == ps[i].single.value.text && value.refs == ps[i].single.value.refs
  }

  /** Entry `i` gives the field this item as its `j`-th, counting from 0. */
  ghost predicate GivesItem(fields: map<Id, Field>, c: Id, ps: seq<ProposalField>, i: nat, j: nat, f: Id, key: string, item: Item) {
    && i < |ps| && Gives(fields, c, ps[i], f, ItemList) && j < |ps[i].list.value|
    && key == ItemKey(fields[f].key, j + 1)
    && item.text == ps[i].list.value[j].text && item.refs == ps[i].list.value[j].refs && !item.resolved
  }

  lemma ValueRowWhen(fields: map<Id, Field>, c: Id, ps: seq<ProposalField>, i: nat, row: ValueRow)
    requires KeysUnique(fields) && i < |ps|
    ensures row in ValueRowsOf(FieldsByKey(fields, c), fields, ps[i]) <==> GivesValue(fields, c, ps, i, row.field, row.value)
  {
    hide KeysUnique, FieldsByKey;
    GivesWhen(fields, c, ps[i], row.field, SingleValue);
  }

  lemma ItemRowWhen(fields: map<Id, Field>, c: Id, ps: seq<ProposalField>, i: nat, row: ItemRow)
    requires KeysUnique(fields) && i < |ps|
    ensures row in ItemRowsOf(FieldsByKey(fields, c), fields, ps[i]) <==>
      exists j: nat :: GivesItem(fields, c, ps, i, j, row.field, row.key, row.item)
  {
    hide KeysUnique, FieldsByKey, ItemKey;
    var byKey := FieldsByKey(fields, c);
    GivesWhen(fields, c, ps[i], row.field, ItemList);
    if row in ItemRowsOf(byKey, fields, ps[i]) {
      var j :| 0 <= j < |ItemRowsOf(byKey, fields, ps[i])| && ItemRowsOf(byKey, fields, ps[i])[j] == row;
      assert GivesItem(fields, c, ps, i, j, row.field, row.key, row.item);
    }
    if j: nat :| GivesItem(fields, c, ps, i, j, row.field, row.key, row.item) {
      assert ItemRowsOf(byKey, fields, ps[i])[j] == row;
    }
  }

  /**
    Of a proposal without repeated keys, the values stored are exactly those its entries propose for
    enabled single fields, and the items those it proposes for enabled lists, open and numbered from 1.
   */
  lemma StoresWhen(fields: map<Id, Field>, c: Id, ps: seq<ProposalField>, f: Id, value: Value, key: string, item: Item)
    requires KeysUnique(fields) && UniqueKeys(ps)
    ensures var rows := InitialRows(FieldsByKey(fields, c), fields, ps);
      && (f in rows.values && rows.values[f] == value <==> exists i: nat :: GivesValue(fields, c, ps, i, f, value))
      && ((f, key) in rows.items && rows.items[(f, key)] == item <==>
          exists i: nat, j: nat :: GivesItem(fields, c, ps, i, j, f, key, item))
  {
    hide KeysUnique, UniqueKeys, FieldsByKey, GivesValue, GivesItem, ValueRows, ItemRows, ValueRowsOf, ItemRowsOf, LastWins, FirstWins, ItemTable, RowsUnique, ValueRowsUnique;
    var byKey := FieldsByKey(fields, c);
    FieldsByKeyInjective(fields, c);
    InitialValueRowsUnique(byKey, fields, ps);
    ItemRowsUnique(byKey, fields, ps);
    FirstWinsOfUnique(ItemRows(byKey, fields, ps));
    LastWinsHolds(ValueRows(byKey, fields, ps), ValueRow(f, value));
    ItemTableHolds(ItemRows(byKey, fields, ps), ItemRow(f, key, item));
    ValueWhen(fields, c, ps, f, value);
    ItemWhen(fields, c, ps, f, key, item);
  }

  lemma ValueWhen(fields: map<Id, Field>, c: Id, ps: seq<ProposalField>, f: Id, value: Value)
    requires KeysUnique(fields)
    ensures ValueRow(f, value) in ValueRows(FieldsByKey(fields, c), fields, ps) <==>
      exists i: nat :: GivesValue(fields, c, ps, i, f, value)
  {
    hide KeysUnique, FieldsByKey, ValueRows, ValueRowsOf, Gives;
    ValueRowFrom(FieldsByKey(fields, c), fields, ps, ValueRow(f, value));
    forall i: nat | i < |ps|
      ensures ValueRow(f, value) in ValueRowsOf(FieldsByKey(fields, c), fields, ps[i]) <==> GivesValue(fields, c, ps, i, f, value) {
      ValueRowWhen(fields, c, ps, i, ValueRow(f, value));
    }
  }

  lemma ItemWhen(fields: map<Id, Field>, c: Id, ps: seq<ProposalField>, f: Id, key: string, item: Item)
    requires KeysUnique(fields)
    ensures ItemRow(f, key, item) in ItemRows(FieldsByKey(fields, c), fields, ps) <==>
      exists i: nat, j: nat :: GivesItem(fields, c, ps, i, j, f, key, item)
  {
    hide KeysUnique, FieldsByKey, ItemRows, ItemRowsOf, Gives, ItemKey;
    var row := ItemRow(f, key, item);
    ItemRowFrom(FieldsByKey(fields, c), fields, ps, row);
    forall i: nat | i < |ps|
      ensures row in ItemRowsOf(FieldsByKey(fields, c), fields, ps[i]) <==> exists j: nat :: GivesItem(fields, c, ps, i, j, f, key, item) {
      ItemRowWhen(fields, c, ps, i, row);
    }
  }

  // ---- the initial state ----

  /** Entry `i` is the last about this document, and records this checksum. */
  ghost predicate LastAbout(snapshot: seq<DocumentSnapshot>, i: nat, document: string, sha: string) {
    && i < |snapshot| && snapshot[i].documentId == document && snapshot[i].contentSha == sha
    && forall j :: i < j < |snapshot| ==> snapshot[j].documentId != document
  }

  lemma {:induction false} ShaWhen(snapshot: seq<DocumentSnapshot>, document: string, sha: string)
    ensures document in ShaOf(snapshot) <==> exists i :: 0 <= i < |snapshot| && snapshot[i].documentId == document
    ensures document in ShaOf(snapshot) && ShaOf(snapshot)[document] == sha <==>
      exists i: nat :: LastAbout(snapshot, i, document, sha)
  {
    if snapshot != [] {
      var n := |snapshot| - 1;
      ShaWhen(snapshot[..n], document, sha);
      assert forall i :: 0 <= i < n ==> snapshot[..n][i] == snapshot[i];
      if snapshot[n].documentId == document {
        assert LastAbout(snapshot, n, document, snapshot[n].contentSha);
      } else {
        assert forall i: nat :: LastAbout(snapshot[..n], i, document, sha) <==> LastAbout(snapshot, i, document, sha);
      }
    }
  }

  /** Every id is a document's, and the checksum of every document found is the one recorded under its text. */
  ghost predicate IsFresh(snapshot: seq<DocumentSnapshot>, docs: Documents) {
    && (forall i :: 0 <= i < |snapshot| ==> docs.parse(snapshot[i].documentId).Some?)
    && (forall id :: id in docs.md5 && (exists i :: 0 <= i < |snapshot| && docs.parse(snapshot[i].documentId) == Some(id)) ==>
          exists i: nat :: LastAbout(snapshot, i, docs.show(id), docs.md5[id]))
  }

  lemma StaleWhen(snapshot: seq<DocumentSnapshot>, docs: Documents)
    ensures StaleDocuments(snapshot, docs) == {} <==> IsFresh(snapshot, docs)
  {
    hide ShaOf, LastAbout;
    var sha := ShaOf(snapshot);
    forall d: string ensures d in sha <==> exists i :: 0 <= i < |snapshot| && snapshot[i].documentId == d {
      ShaWhen(snapshot, d, "");
    }
    if i :| 0 <= i < |snapshot| && docs.parse(snapshot[i].documentId).None? {
      assert snapshot[i].documentId in sha.Keys;
      assert snapshot[i].documentId in StaleDocuments(snapshot, docs);
    } else {
      forall id | id in docs.md5
        ensures docs.show(id) in sha && sha[docs.show(id)] == docs.md5[id] <==>
          exists i: nat :: LastAbout(snapshot, i, docs.show(id), docs.md5[id]) {
        ShaWhen(snapshot, docs.show(id), docs.md5[id]);
      }
      forall id | id in docs.md5
        ensures (exists d :: d in sha.Keys && docs.parse(d) == Some(id)) <==>
          exists i :: 0 <= i < |snapshot| && docs.parse(snapshot[i].documentId) == Some(id) {
        if i :| 0 <= i < |snapshot| && docs.parse(snapshot[i].documentId) == Some(id) {
          assert snapshot[i].documentId in sha.Keys;
        }
      }
      NoneStale(snapshot, docs);
    }
  }

  lemma NoneStale(snapshot: seq<DocumentSnapshot>, docs: Documents)
    requires forall d :: d in ShaOf(snapshot).Keys ==> docs.parse(d).Some?
    ensures var sha := ShaOf(snapshot);
      StaleDocuments(snapshot, docs) == {} <==>
        forall id :: id in docs.md5 && (exists d :: d in sha.Keys && docs.parse(d) == Some(id)) ==>
          docs.show(id) in sha && sha[docs.show(id)] == docs.md5[id]
  {
    hide ShaOf;
    var sha := ShaOf(snapshot);
    forall id | id in docs.md5 && (exists d :: d in sha.Keys && docs.parse(d) == Some(id)) && !(docs.show(id) in sha && sha[docs.show(id)] == docs.md5[id])
      ensures docs.show(id) in StaleDocuments(snapshot, docs) {
    }
  }

  /** The initial state commits exactly on the current configuration, before any version, on fresh documents. */
  lemma InitialCommitsWhen(s: Store, c: Id, proposal: seq<ProposalField>, snapshot: seq<DocumentSnapshot>, docs: Documents,
                           configVersion: int, createdBy: Option<string>, newId: Id)
    requires Inv(s)
    ensures InitialStep(s, c, proposal, snapshot, docs, configVersion, createdBy, newId).outcome.Ok? <==>
      && c in s.campaigns && configVersion == s.campaigns[c] && newId !in s.versions
      && (forall v :: v in s.versions ==> s.versions[v].campaign != c) && IsFresh(snapshot, docs)
  {
    hide Inv, InitialRows, StaleDocuments, FieldsByKey, IsFresh;
    LatestExists(s.versions, c);
    StaleWhen(snapshot, docs);
  }

  /** It adds version 1, which holds what the proposal gives. */
  lemma InitialStores(s: Store, c: Id, proposal: seq<ProposalField>, snapshot: seq<DocumentSnapshot>, docs: Documents,
                      configVersion: int, createdBy: Option<string>, newId: Id, f: Id, value: Value, key: string, item: Item)
    requires Inv(s) && UniqueKeys(proposal)
    requires InitialStep(s, c, proposal, snapshot, docs, configVersion, createdBy, newId).outcome.Ok?
    ensures var t := InitialStep(s, c, proposal, snapshot, docs, configVersion, createdBy, newId).store;
      && newId in t.versions && c in s.campaigns && t == s.(versions := s.versions[newId := t.versions[newId]])
      && var v := t.versions[newId];
      && v == Version(c, 1, s.campaigns[c], Initial, None, createdBy, v.rows)
      && (f in v.rows.values && v.rows.values[f] == value <==> exists i: nat :: GivesValue(s.fields, c, proposal, i, f, value))
      && ((f, key) in v.rows.items && v.rows.items[(f, key)] == item <==>
          exists i: nat, j: nat :: GivesItem(s.fields, c, proposal, i, j, f, key, item))
  {
    hide History, InitialRows, StaleDocuments, FieldsByKey, GivesValue, GivesItem, UniqueKeys;
    StoresWhen(s.fields, c, proposal, f, value, key, item);
  }

  // ---- the effective proposal ----

  /** The suggestions that are accepted and not rejected, in order. */
  lemma {:induction false} AcceptedAre(suggested: seq<Suggested>, accepted: set<string>, rejected: set<string>)
    ensures AcceptedOf(suggested, accepted, rejected) == Filter((sf: Suggested) => sf.key in accepted && sf.key !in rejected, suggested)
  {
    if suggested != [] {
      AcceptedAre(suggested[..|suggested| - 1], accepted, rejected);
    }
  }

  ghost predicate FirstSuggestion(accepted: seq<Suggested>, i: nat, key: string) {
    i < |accepted| && accepted[i].key == key && forall j :: 0 <= j < i ==> accepted[j].key != key
  }

  /** The first field of the proposal, or override, with this key. */
  ghost predicate FirstField(fields: seq<ProposalField>, i: nat, key: string) {
    i < |fields| && fields[i].fieldKey == key && forall j :: 0 <= j < i ==> fields[j].fieldKey != key
  }

  /** The suggestion as a field: its value counts when it is proposed, in its mode. */
  ghost predicate FromSuggestion(sf: Suggested, p: ProposalField) {
    && p.fieldKey == sf.key && p.mode == sf.mode && p.status == sf.status
    && p.single == (if sf.status.Proposed? && sf.mode == SingleValue then sf.single else None)
    && p.list == (if sf.status.Proposed? && sf.mode == ItemList then sf.list else None)
  }

  lemma {:induction false} AppendedWhen(acc: seq<ProposalField>, ps: seq<ProposalField>, p: ProposalField)
    ensures p in AppendAllNew(acc, ps) <==>
      p in acc || (p.fieldKey !in KeysOf(acc) && exists i: nat :: FirstField(ps, i, p.fieldKey) && ps[i] == p)
    ensures forall key :: key in KeysOf(AppendAllNew(acc, ps)) <==> key in KeysOf(acc) || key in KeysOf(ps)
    ensures acc <= AppendAllNew(acc, ps)
  {
    if ps != [] {
      var n := |ps| - 1;
      var before, last := AppendAllNew(acc, ps[..n]), ps[n];
      AppendedWhen(acc, ps[..n], p);
      KeysOfSnoc(before, last);
      KeysOfSnoc(ps[..n], last);
      assert ps == ps[..n] + [last];
      FirstFieldSnoc(ps[..n], last, p.fieldKey);
    }
  }

  lemma FirstFieldSnoc(ps: seq<ProposalField>, last: ProposalField, key: string)
    ensures forall i: nat :: i < |ps| ==> (FirstField(ps + [last], i, key) <==> FirstField(ps, i, key))
    ensures FirstField(ps + [last], |ps|, key) <==> last.fieldKey == key && key !in KeysOf(ps)
  {
    var all := ps + [last];
    assert forall j :: 0 <= j < |ps| ==> all[j] == ps[j];
  }

  /** A field of the union is the first accepted suggestion of its key, or without one the first stored field. */
  lemma UnifiedWhen(fields: seq<ProposalField>, accepted: seq<Suggested>, p: ProposalField)
    ensures p in Unified(fields, accepted) <==>
      || (exists i: nat :: FirstSuggestion(accepted, i, p.fieldKey) && FromSuggestion(accepted[i], p))
      || ((forall i :: 0 <= i < |accepted| ==> accepted[i].key != p.fieldKey) &&
          exists i: nat :: FirstField(fields, i, p.fieldKey) && fields[i] == p)
  {
    var entries := Map(AsProposalField, accepted);
    var base := AppendAllNew([], entries);
    hide AppendAllNew;
    AppendedWhen([], entries, p);
    AppendedWhen(base, fields, p);
    assert forall i: nat :: FirstField(entries, i, p.fieldKey) <==> FirstSuggestion(accepted, i, p.fieldKey);
    assert forall i: nat :: i < |accepted| ==> (entries[i] == p <==> FromSuggestion(accepted[i], p));
    assert p.fieldKey in KeysOf(entries) <==> exists i :: 0 <= i < |accepted| && accepted[i].key == p.fieldKey by {
      if i :| 0 <= i < |accepted| && accepted[i].key == p.fieldKey {
        assert entries[i].fieldKey == p.fieldKey;
      }
    }
  }

  /** The fields of the accepted suggestions come first. */
  lemma SuggestionsFirst(fields: seq<ProposalField>, accepted: seq<Suggested>, i: nat, j: nat)
    requires i < j < |Unified(fields, accepted)|
    requires exists k :: 0 <= k < |accepted| && accepted[k].key == Unified(fields, accepted)[j].fieldKey
    ensures exists k :: 0 <= k < |accepted| && accepted[k].key == Unified(fields, accepted)[i].fieldKey
  {
    hide AppendAllNew;
    var entries := Map(AsProposalField, accepted);
    var base, all := AppendAllNew([], entries), Unified(fields, accepted);
    var p := all[j];
    AppendedWhen([], entries, p);
    AppendedWhen(base, fields, p);
    EffectiveProposalUnique(fields, accepted, None);
    var k :| 0 <= k < |accepted| && accepted[k].key == p.fieldKey;
    assert entries[k].fieldKey == p.fieldKey && p.fieldKey in KeysOf(entries);
    assert p.fieldKey in KeysOf(base);
    var m :| 0 <= m < |base| && base[m].fieldKey == p.fieldKey;
    assert all[m] == base[m];
    assert m == j;
    assert base[i].fieldKey in KeysOf(base);
    var l :| 0 <= l < |entries| && entries[l].fieldKey == base[i].fieldKey;
  }

  lemma {:induction false} OverrideWhen(overrides: seq<ProposalField>, key: string)
    ensures OverrideFor(overrides, key).None? <==> forall i :: 0 <= i < |overrides| ==> overrides[i].fieldKey != key
    ensures OverrideFor(overrides, key).Some? ==>
      exists i: nat :: FirstField(overrides, i, key) && overrides[i] == OverrideFor(overrides, key).value
  {
    if overrides != [] {
      OverrideWhen(overrides[1..], key);
      assert forall i :: 0 < i < |overrides| ==> overrides[i] == overrides[1..][i - 1];
      if overrides[0].fieldKey == key {
        assert FirstField(overrides, 0, key);
      } else if i: nat :| FirstField(overrides[1..], i, key) && overrides[1..][i] == OverrideFor(overrides[1..], key).value {
        assert FirstField(overrides, i + 1, key);
      }
    }
  }

  /** `p` is the field with this override: its mode and status, and its value where it brings one. */
  ghost predicate WithOverride(p: ProposalField, before: ProposalField, o: ProposalField) {
    && p.fieldKey == before.fieldKey && p.mode == o.mode && p.status == o.status
    && p.single == (if o.single.Some? then o.single else before.single)
    && p.list == (if o.list.Some? then o.list else before.list)
  }

  /** Every field stays at its place, with the first override of its key, if there is one. */
  lemma MergedWhen(base: seq<ProposalField>, overrides: seq<ProposalField>, i: nat)
    requires i < |base|
    ensures Merged(base, None) == base
    ensures var merged := Merged(base, Some(overrides));
      && |merged| == |base|
      && if exists j :: 0 <= j < |overrides| && overrides[j].fieldKey == base[i].fieldKey
         then exists j: nat :: FirstField(overrides, j, base[i].fieldKey) && WithOverride(merged[i], base[i], overrides[j])
         else merged[i] == base[i]
  {
    OverrideWhen(overrides, base[i].fieldKey);
  }

  // ---- accepting a proposal ----

  ghost predicate TopOrder(fields: map<Id, Field>, c: Id, order: int) {
    && order >= 0
    && (forall g :: g in fields && fields[g].campaign == c ==> fields[g].displayOrder < order)
    && (order > 0 ==> exists g :: g in fields && fields[g].campaign == c && fields[g].displayOrder == order - 1)
  }

  lemma {:induction false} GreatestOrder(fields: map<Id, Field>, gs: set<Id>) returns (top: Id)
    requires gs != {} && gs <= fields.Keys
    ensures top in gs && forall g :: g in gs ==> fields[g].displayOrder <= fields[top].displayOrder
    decreases gs
  {
    var x :| x in gs;
    top := x;
    if gs - {x} != {} {
      var y := GreatestOrder(fields, gs - {x});
      top := if fields[x].displayOrder <= fields[y].displayOrder then y else x;
    }
    assert forall g :: g in gs ==> g == x || g in gs - {x};
  }

  /** The next display order is one above all, or 0. */
  lemma NextIsTop(fields: map<Id, Field>, c: Id)
    ensures TopOrder(fields, c, NextDisplayOrder(MaxDisplayOrder(fields, c)))
  {
    var gs := set g | g in fields && fields[g].campaign == c;
    assert forall g :: g in fields && fields[g].campaign == c ==> g in gs;
    if gs != {} {
      var top := GreatestOrder(fields, gs);
      assert IsTop(fields, c, top);
    }
  }

  /** Suggestion `i` can be created as a field beside those of before and the suggestions before it. */
  ghost predicate Creatable(s: Store, c: Id, accepted: seq<Suggested>, newIds: nat -> Id, i: nat)
    requires i < |accepted|
  {
    && ProperKey(accepted[i].key) && |FlatMap(Encoded, accepted[i].description)| <= 8192
    && (forall f :: f in s.fields && s.fields[f].campaign == c ==> s.fields[f].key != accepted[i].key)
    && newIds(i) !in s.fields
    && forall j :: 0 <= j < i ==> accepted[j].key != accepted[i].key && newIds(j) != newIds(i)
  }

  ghost predicate AllCreatable(s: Store, c: Id, accepted: seq<Suggested>, newIds: nat -> Id, n: nat)
    requires n <= |accepted|
  {
    forall i :: 0 <= i < n ==> Creatable(s, c, accepted, newIds, i)
  }

  /** The field that suggestion `i` becomes, above all fields of before in the order. */
  ghost predicate CreatedFrom(sf: Suggested, c: Id, before: map<Id, Field>, row: Field) {
    && row.campaign == c && row.key == sf.key && row.labelText == sf.labelText && row.description == sf.description
    && row.mode == sf.mode && row.enabled && TopOrder(before, c, row.displayOrder)
  }

  ghost predicate IsKeyed(fields: map<Id, Field>, f: Id, c: Id, key: string) {
    f in fields && fields[f].campaign == c && fields[f].key == key
  }

  /** The store after the first `n` suggestions: the fields of before, and theirs. */
  ghost predicate HoldsCreated(s: Store, t: Store, c: Id, accepted: seq<Suggested>, newIds: nat -> Id, n: nat)
    requires n <= |accepted|
  {
    && t.versions == s.versions && c in s.campaigns && t.campaigns == s.campaigns[c := s.campaigns[c] + n]
    && (forall f :: f in s.fields ==> f in t.fields && t.fields[f] == s.fields[f])
    && (forall i :: 0 <= i < n ==> newIds(i) !in s.fields && IsKeyed(t.fields, newIds(i), c, accepted[i].key))
    && (forall f :: f in t.fields && f !in s.fields ==> exists i :: 0 <= i < n && f == newIds(i))
  }

  lemma CreateOneMore(s: Store, t: Store, c: Id, accepted: seq<Suggested>, newIds: nat -> Id, n: nat)
    requires Inv(t) && n < |accepted| && HoldsCreated(s, t, c, accepted, newIds, n)
    ensures var step := CreateStep(t, c, SuggestedCreate(t, c, accepted[n]), newIds(n));
      && (step.outcome.Ok? && accepted[n].key !in ExistingKeys(s.fields, c) <==> Creatable(s, c, accepted, newIds, n))
      && (step.outcome.Ok? ==>
        && HoldsCreated(s, step.store, c, accepted, newIds, n + 1)
        && newIds(n) in step.store.fields && CreatedFrom(accepted[n], c, t.fields, step.store.fields[newIds(n)]))
  {
    hide Inv, CreateStep, HoldsCreated, Creatable, CreatedFrom, ExistingKeys;
    CreatableNext(s, t, c, accepted, newIds, n);
    if CreateStep(t, c, SuggestedCreate(t, c, accepted[n]), newIds(n)).outcome.Ok? {
      CreatedNext(s, t, c, accepted, newIds, n);
    }
  }

  lemma CreatedNext(s: Store, t: Store, c: Id, accepted: seq<Suggested>, newIds: nat -> Id, n: nat)
    requires Inv(t) && n < |accepted| && HoldsCreated(s, t, c, accepted, newIds, n)
    requires CreateStep(t, c, SuggestedCreate(t, c, accepted[n]), newIds(n)).outcome.Ok?
    ensures var step := CreateStep(t, c, SuggestedCreate(t, c, accepted[n]), newIds(n));
      && HoldsCreated(s, step.store, c, accepted, newIds, n + 1)
      && newIds(n) in step.store.fields && CreatedFrom(accepted[n], c, t.fields, step.store.fields[newIds(n)])
  {
    hide Inv, ProperKey, CreateStep, TopOrder, MaxDisplayOrder;
    CreateCommitsWhen(t, c, SuggestedCreate(t, c, accepted[n]), newIds(n));
    NextIsTop(t.fields, c);
    CreateAdds(t, c, SuggestedCreate(t, c, accepted[n]), newIds(n));
  }

  lemma CreatableNext(s: Store, t: Store, c: Id, accepted: seq<Suggested>, newIds: nat -> Id, n: nat)
    requires Inv(t) && n < |accepted| && HoldsCreated(s, t, c, accepted, newIds, n)
    ensures CreateStep(t, c, SuggestedCreate(t, c, accepted[n]), newIds(n)).outcome.Ok? && accepted[n].key !in ExistingKeys(s.fields, c) <==>
      Creatable(s, c, accepted, newIds, n)
  {
    hide Inv, ProperKey, CreateStep, MaxDisplayOrder, ExistingKeys;
    CreateCommitsWhen(t, c, SuggestedCreate(t, c, accepted[n]), newIds(n));
    ExistingWhen(s.fields, c, accepted[n].key);
  }

  lemma ExistingWhen(fields: map<Id, Field>, c: Id, key: string)
    ensures key in ExistingKeys(fields, c) <==> exists f :: f in fields && fields[f].campaign == c && fields[f].key == key
  {
  }

  /** The accepted suggestions are created together exactly when each can be. */
  lemma {:induction false} CreateAllWhen(s: Store, c: Id, accepted: seq<Suggested>, newIds: nat -> Id, n: nat)
    requires Inv(s) && c in s.campaigns && n <= |accepted|
    ensures var step := CreateAll(s, c, ExistingKeys(s.fields, c), accepted, newIds, n);
      && (step.outcome.Ok? <==> AllCreatable(s, c, accepted, newIds, n))
      && (step.outcome.Ok? ==> HoldsCreated(s, step.store, c, accepted, newIds, n))
  {
    hide Inv, CreateStep, SuggestedCreate, HoldsCreated, Creatable, ExistingKeys;
    if n == 0 {
      NothingCreatedYet(s, c, accepted, newIds);
    } else {
      CreateAllWhen(s, c, accepted, newIds, n - 1);
      var before := CreateAll(s, c, ExistingKeys(s.fields, c), accepted, newIds, n - 1);
      if before.outcome.Ok? {
        CreateOneMore(s, before.store, c, accepted, newIds, n - 1);
      }
    }
  }

  lemma NothingCreatedYet(s: Store, c: Id, accepted: seq<Suggested>, newIds: nat -> Id)
    requires c in s.campaigns
    ensures HoldsCreated(s, s, c, accepted, newIds, 0)
  {
    assert s.campaigns == s.campaigns[c := s.campaigns[c] + 0];
  }

  /** Each then is a field of its own, as suggested, enabled, and last in the order when it was created. */
  lemma {:induction false} CreatedFields(s: Store, c: Id, accepted: seq<Suggested>, newIds: nat -> Id, n: nat, i: nat)
    requires Inv(s) && c in s.campaigns && i < n <= |accepted|
    requires CreateAll(s, c, ExistingKeys(s.fields, c), accepted, newIds, n).outcome.Ok?
    ensures var t := CreateAll(s, c, ExistingKeys(s.fields, c), accepted, newIds, n).store;
      && CreateAll(s, c, ExistingKeys(s.fields, c), accepted, newIds, i).outcome.Ok?
      && newIds(i) in t.fields
      && CreatedFrom(accepted[i], c, CreateAll(s, c, ExistingKeys(s.fields, c), accepted, newIds, i).store.fields, t.fields[newIds(i)])
    decreases n
  {
    hide Inv, CreateStep, SuggestedCreate, Creatable, ExistingKeys, CreatedFrom, HoldsCreated;
    CreateAllWhen(s, c, accepted, newIds, n - 1);
    var before := CreateAll(s, c, ExistingKeys(s.fields, c), accepted, newIds, n - 1).store;
    CreateOneMore(s, before, c, accepted, newIds, n - 1);
    if i < n - 1 {
      CreatedFields(s, c, accepted, newIds, n - 1, i);
      CreateAdds(before, c, SuggestedCreate(before, c, accepted[n - 1]), newIds(n - 1));
      CreateCommitsWhen(before, c, SuggestedCreate(before, c, accepted[n - 1]), newIds(n - 1));
      PayloadKey(before, c, accepted[n - 1]);
    }
  }

  lemma PayloadKey(s: Store, c: Id, sf: Suggested)
    ensures SuggestedCreate(s, c, sf).key == sf.key
  {
  }

  /** What accepting demands of the stored proposal and the request before it looks at the tables. */
  ghost predicate Presentable(s: Store, c: Id, stored: Option<StoredProposal>, req: AcceptRequest, now: int) {
    && c in s.campaigns && stored.Some? && stored.value.proposalId == req.proposalId && now < stored.value.expiresAt
    && (stored.value.suggested != [] ==> stored.value.configVersion == req.configVersion)
    && (AcceptedOf(stored.value.suggested, req.accepted, req.rejected) == [] ==> req.configVersion == s.campaigns[c])
  }

  /** A proposal is accepted exactly when it may be, each accepted suggestion can be created, and the initial state can be. */
  lemma AcceptCommitsWhen(s: Store, c: Id, stored: Option<StoredProposal>, req: AcceptRequest, now: int, docs: Documents,
                          createdBy: Option<string>, newIds: nat -> Id, newId: Id)
    requires Inv(s)
    ensures AcceptStep(s, c, stored, req, now, docs, createdBy, newIds, newId).outcome.Ok? <==>
      && Presentable(s, c, stored, req, now)
      && var accepted := AcceptedOf(stored.value.suggested, req.accepted, req.rejected);
      && AllCreatable(s, c, accepted, newIds, |accepted|)
      && (forall v :: v in s.versions ==> s.versions[v].campaign != c) && newId !in s.versions
      && IsFresh(stored.value.snapshot, docs)
  {
    hide Inv, Merged, Unified, CreateAll, AcceptedOf, ExistingKeys, InitialStep, AllCreatable, IsFresh;
    if c in s.campaigns && stored.Some? {
      var accepted := AcceptedOf(stored.value.suggested, req.accepted, req.rejected);
      var created := CreateAll(s, c, ExistingKeys(s.fields, c), accepted, newIds, |accepted|);
      CreateAllWhen(s, c, accepted, newIds, |accepted|);
      NothingCreated(s, c, ExistingKeys(s.fields, c), accepted, newIds);
      var configVersion := if accepted == [] || c !in created.store.campaigns then req.configVersion else created.store.campaigns[c];
      InitialCommitsWhen(created.store, c, Merged(Unified(stored.value.fields, accepted), req.overrides), stored.value.snapshot,
                         docs, configVersion, createdBy, newId);
      if created.outcome.Ok? {
        assert created.store.versions == s.versions && c in created.store.campaigns;
        assert configVersion == created.store.campaigns[c] <==> (accepted == [] ==> req.configVersion == s.campaigns[c]);
      }
    }
  }

  /** Suggestion `i` is a field, created beside the fields of before and the suggestions before it. */
  ghost predicate CreatedAt(s: Store, fields: map<Id, Field>, c: Id, accepted: seq<Suggested>, newIds: nat -> Id, i: nat)
    requires Inv(s) && i < |accepted|
  {
    && newIds(i) in fields
    && CreatedFrom(accepted[i], c, CreateAll(s, c, ExistingKeys(s.fields, c), accepted, newIds, i).store.fields, fields[newIds(i)])
  }

  /** A committed acceptance is the creation of the accepted suggestions, then the initial state. */
  lemma AcceptIsInitial(s: Store, c: Id, p: StoredProposal, req: AcceptRequest, now: int, docs: Documents,
                        createdBy: Option<string>, newIds: nat -> Id, newId: Id) returns (created: Store, configVersion: int)
    requires Inv(s) && AcceptStep(s, c, Some(p), req, now, docs, createdBy, newIds, newId).outcome.Ok?
    ensures var accepted := AcceptedOf(p.suggested, req.accepted, req.rejected);
      && c in s.campaigns && Inv(created)
      && var step := CreateAll(s, c, ExistingKeys(s.fields, c), accepted, newIds, |accepted|);
      && step.outcome.Ok? && step.store == created
      && InitialStep(created, c, Merged(Unified(p.fields, accepted), req.overrides), p.snapshot, docs, configVersion, createdBy, newId)
           == AcceptStep(s, c, Some(p), req, now, docs, createdBy, newIds, newId)
  {
    hide Inv, Merged, Unified, CreateAll, AcceptedOf, ExistingKeys, InitialStep;
    var accepted := AcceptedOf(p.suggested, req.accepted, req.rejected);
    created := CreateAll(s, c, ExistingKeys(s.fields, c), accepted, newIds, |accepted|).store;
    configVersion := if accepted == [] || c !in created.campaigns then req.configVersion else created.campaigns[c];
  }

  /** It adds the accepted suggestions as fields, and version 1... */
  lemma AcceptAdds(s: Store, c: Id, p: StoredProposal, req: AcceptRequest, now: int, docs: Documents,
                   createdBy: Option<string>, newIds: nat -> Id, newId: Id)
    requires Inv(s) && AcceptStep(s, c, Some(p), req, now, docs, createdBy, newIds, newId).outcome.Ok?
    ensures var t := AcceptStep(s, c, Some(p), req, now, docs, createdBy, newIds, newId).store;
      var accepted := AcceptedOf(p.suggested, req.accepted, req.rejected);
      && HoldsCreated(s, t.(versions := s.versions), c, accepted, newIds, |accepted|)
      && (forall i :: 0 <= i < |accepted| ==> CreatedAt(s, t.fields, c, accepted, newIds, i))
      && newId in t.versions && c in t.campaigns && t.versions == s.versions[newId := t.versions[newId]]
      && t.versions[newId] == Version(c, 1, t.campaigns[c], Initial, None, createdBy, t.versions[newId].rows)
  {
    hide Inv, Merged, Unified, CreateAll, AcceptStep, AcceptedOf, ExistingKeys, InitialStep, AllCreatable, CreatedFrom, UniqueKeys;
    var accepted := AcceptedOf(p.suggested, req.accepted, req.rejected);
    var created, configVersion := AcceptIsInitial(s, c, p, req, now, docs, createdBy, newIds, newId);
    CreateAllWhen(s, c, accepted, newIds, |accepted|);
    forall i | 0 <= i < |accepted| ensures CreatedAt(s, created.fields, c, accepted, newIds, i) {
      CreatedFields(s, c, accepted, newIds, |accepted|, i);
    }
    EffectiveProposalUnique(p.fields, accepted, req.overrides);
    InitialStores(created, c, Merged(Unified(p.fields, accepted), req.overrides), p.snapshot, docs, configVersion, createdBy, newId,
                  0, Value("", []), "", Item("", false, []));
  }

  /** ... which holds what the effective proposal gives. */
  lemma AcceptStores(s: Store, c: Id, p: StoredProposal, req: AcceptRequest, now: int, docs: Documents,
                     createdBy: Option<string>, newIds: nat -> Id, newId: Id, f: Id, value: Value, key: string, item: Item)
    requires Inv(s) && AcceptStep(s, c, Some(p), req, now, docs, createdBy, newIds, newId).outcome.Ok?
    ensures var t := AcceptStep(s, c, Some(p), req, now, docs, createdBy, newIds, newId).store;
      var ps := Merged(Unified(p.fields, AcceptedOf(p.suggested, req.accepted, req.rejected)), req.overrides);
      && newId in t.versions
      && var rows := t.versions[newId].rows;
      && (f in rows.values && rows.values[f] == value <==> exists i: nat :: GivesValue(t.fields, c, ps, i, f, value))
      && ((f, key) in rows.items && rows.items[(f, key)] == item <==>
          exists i: nat, j: nat :: GivesItem(t.fields, c, ps, i, j, f, key, item))
  {
    hide Inv, Merged, Unified, CreateAll, AcceptStep, AcceptedOf, ExistingKeys, InitialStep, GivesValue, GivesItem, UniqueKeys;
    var accepted := AcceptedOf(p.suggested, req.accepted, req.rejected);
    var created, configVersion := AcceptIsInitial(s, c, p, req, now, docs, createdBy, newIds, newId);
    EffectiveProposalUnique(p.fields, accepted, req.overrides);
    InitialStores(created, c, Merged(Unified(p.fields, accepted), req.overrides), p.snapshot, docs, configVersion, createdBy, newId,
                  f, value, key, item);
  }
}
