/** When the other calls commit, and member by member what they leave. */
module CampaignStateOutcomes {
  import opened Wrappers
  import opened Seqs
  import opened CampaignState
  import opened CampaignStateSteps
  import opened CampaignStateInvariants
  import opened CampaignStateRuns

  // ---- deleting a field ----

  ghost predicate NoRowOf(rows: Rows, f: Id) {
    f !in rows.values && forall k :: k in rows.items ==> k.0 != f
  }

  /** The rows of every other field are the same. */
  ghost predicate OtherRowsKept(before: Rows, after: Rows, f: Id) {
    && (forall g :: g != f ==> (g in after.values <==> g in before.values) && (g in before.values ==> after.values[g] == before.values[g]))
    && (forall k: (Id, string) :: k.0 != f ==> (k in after.items <==> k in before.items) && (k in before.items ==> after.items[k] == before.items[k]))
  }

  lemma MentionsWhen(rows: Rows, f: Id)
    ensures Mentions(rows, f) <==> !NoRowOf(rows, f)
  {
  }

  lemma PurgeLeaves(rows: Rows, f: Id)
    ensures NoRowOf(Purge(rows, f), f) && OtherRowsKept(rows, Purge(rows, f), f)
  {
  }

  /**
    A committed deletion removes the field and no other, no row of any version is left of it, the
    rows of other fields stay, and the configuration is one version further.
   */
  lemma DeleteRemoves(s: Store, c: Id, f: Id, createdBy: Option<string>, newId: Id)
    requires Inv(s) && DeleteStep(s, c, f, createdBy, newId).outcome.Ok?
    ensures var t := DeleteStep(s, c, f, createdBy, newId).store;
      && f in s.fields && s.fields[f].campaign == c
      && t.fields.Keys == s.fields.Keys - {f}
      && (forall g :: g in t.fields ==> t.fields[g] == s.fields[g])
      && (forall v :: v in t.versions ==> NoRowOf(t.versions[v].rows, f))
      && (forall v :: v in s.versions && v in t.versions ==> OtherRowsKept(s.versions[v].rows, t.versions[v].rows, f))
      && c in s.campaigns && c in t.campaigns && t.campaigns[c] == s.campaigns[c] + 1
  {
    hide History, Purge, Mentions, NoRowOf, OtherRowsKept;
    var t := DeleteStep(s, c, f, createdBy, newId).store;
    forall v | v in t.versions ensures NoRowOf(t.versions[v].rows, f) {
      MentionsWhen(t.versions[v].rows, f);
    }
    forall v | v in s.versions && v in t.versions ensures OtherRowsKept(s.versions[v].rows, t.versions[v].rows, f) {
      PurgeLeaves(s.versions[v].rows, f);
      SameRows(s.versions[v].rows, f);
    }
  }

  lemma SameRows(rows: Rows, f: Id)
    ensures OtherRowsKept(rows, rows, f)
  {
  }

  /** When the campaign has a version, the deletion adds one: the next, empty, on the configuration of before. */
  lemma DeleteRecords(s: Store, c: Id, f: Id, createdBy: Option<string>, newId: Id, last: Id)
    requires Inv(s) && DeleteStep(s, c, f, createdBy, newId).outcome.Ok? && IsLatest(s.versions, c, last)
    ensures var t := DeleteStep(s, c, f, createdBy, newId).store;
      && t.versions.Keys == s.versions.Keys + {newId} && newId !in s.versions && c in s.campaigns
      && t.versions[newId] == Version(c, s.versions[last].stateVersion + 1, s.campaigns[c], Patch,
                                      Some(s.versions[last].stateVersion), createdBy, Rows(map[], map[]))
  {
    hide History, Purge, Referenced;
    LatestIsByInv(s, c, last);
    assert VersionFits(s, s.versions[last]);
  }

  // ---- creating a field ----

  /** A letter, then at most 63 letters, digits and underscores, before at most one newline. */
  ghost predicate ProperKey(key: string) {
    exists k: string :: (key == k || key == k + "\n") && IsPlainKey(k)
  }

  ghost predicate IsPlainKey(k: string) {
    && 1 <= |k| <= 64 && 'a' <= k[0] <= 'z'
    && forall i :: 0 <= i < |k| ==> 'a' <= k[i] <= 'z' || '0' <= k[i] <= '9' || k[i] == '_'
  }

  lemma KeyMatchesWhen(key: string)
    ensures MatchesFieldKey(key) <==> ProperKey(key)
  {
    if key != [] && key[|key| - 1] == '\n' && IsFieldKey(key[..|key| - 1]) {
      assert key == key[..|key| - 1] + "\n" && IsPlainKey(key[..|key| - 1]);
    } else if IsFieldKey(key) {
      assert IsPlainKey(key);
    }
    if k: string :| (key == k || key == k + "\n") && IsPlainKey(k) {
      assert IsFieldKey(k);
      assert key == k + "\n" ==> key[..|key| - 1] == k;
    }
  }

  /** The bytes of a character in UTF-8. */
  function Encoded(c: char): seq<int> {
    var n := c as int;
    if n < 0x80 then [n]
    else if n < 0x800 then [0xC0 + n / 64, 0x80 + n % 64]
    else if n < 0x1_0000 then [0xE0 + n / 4096, 0x80 + n / 64 % 64, 0x80 + n % 64]
    else [0xF0 + n / 262144, 0x80 + n / 4096 % 64, 0x80 + n / 64 % 64, 0x80 + n % 64]
  }

  lemma {:induction false} BytesCounted(s: string)
    ensures Utf8Length(s) == |FlatMap(Encoded, s)|
  {
    if s != [] {
      BytesCounted(s[1..]);
      EncodedCons(s[0], s[1..]);
      assert s == [s[0]] + s[1..];
    }
  }

  lemma {:induction false} EncodedCons(c: char, s: string)
    ensures |FlatMap(Encoded, [c] + s)| == |Encoded(c)| + |FlatMap(Encoded, s)|
  {
    if s == [] {
      assert [c] + s == [c] && [c][..0] == [];
    } else {
      var n := |s| - 1;
      EncodedCons(c, s[..n]);
      assert ([c] + s)[..n + 1] == [c] + s[..n];
    }
  }

  /** A field is created exactly under a proper key that is free in its campaign, with a description of at most 8192 bytes. */
  lemma CreateCommitsWhen(s: Store, c: Id, payload: FieldCreate, newId: Id)
    requires Inv(s)
    ensures CreateStep(s, c, payload, newId).outcome.Ok? <==>
      && c in s.campaigns && ProperKey(payload.key) && |FlatMap(Encoded, payload.description)| <= 8192 && newId !in s.fields
      && forall f :: f in s.fields && s.fields[f].campaign == c ==> s.fields[f].key != payload.key
  {
    hide Inv, MatchesFieldKey, ProperKey, Utf8Length;
    KeyMatchesWhen(payload.key);
    BytesCounted(payload.description);
  }

  /** It is then what the client sent, beside the fields of before. */
  lemma CreateAdds(s: Store, c: Id, payload: FieldCreate, newId: Id)
    requires Inv(s) && CreateStep(s, c, payload, newId).outcome.Ok?
    ensures var step := CreateStep(s, c, payload, newId);
      && newId in step.store.fields && step.outcome.value == step.store.fields[newId]
      && var row := step.store.fields[newId];
      && row.campaign == c && row.key == payload.key && row.labelText == payload.labelText && row.description == payload.description
      && row.mode == payload.mode && row.enabled == payload.enabled && row.displayOrder == payload.displayOrder
      && step.store == Store(s.campaigns[c := s.campaigns[c] + 1], s.fields[newId := row], s.versions)
  {
    hide Inv, MatchesFieldKey, Utf8Length;
  }

  // ---- updating a field ----

  /** An update commits exactly when it sends neither key nor mode, no null, and values within their bounds. */
  lemma UpdateCommitsWhen(s: Store, c: Id, f: Id, u: FieldUpdate)
    requires Inv(s)
    ensures UpdateStep(s, c, f, u).outcome.Ok? <==>
      && f in s.fields && s.fields[f].campaign == c
      && !u.key.Set? && !u.mode.Set?
      && !u.labelText.Null? && !u.description.Null? && !u.enabled.Null? && !u.displayOrder.Null?
      && (u.labelText.Set? ==> 1 <= |u.labelText.value| <= 256)
      && (u.description.Set? ==> |FlatMap(Encoded, u.description.value)| <= 8192)
      && (u.displayOrder.Set? ==> u.displayOrder.value >= 0)
  {
    hide Inv, Utf8Length;
    if u.description.Set? {
      BytesCounted(u.description.value);
    }
  }

  /** What is sent replaces what was there, the rest stays, and the configuration moves on unless nothing was sent. */
  lemma UpdateSets(s: Store, c: Id, f: Id, u: FieldUpdate)
    requires Inv(s) && UpdateStep(s, c, f, u).outcome.Ok?
    ensures var step := UpdateStep(s, c, f, u);
      && f in s.fields && f in step.store.fields && c in s.campaigns
      && var row, before := step.store.fields[f], s.fields[f];
      && step.outcome.value == row
      && row.campaign == before.campaign && row.key == before.key && row.mode == before.mode
      && row.labelText == (if u.labelText.Set? then u.labelText.value else before.labelText)
      && row.description == (if u.description.Set? then u.description.value else before.description)
      && row.enabled == (if u.enabled.Set? then u.enabled.value else before.enabled)
      && row.displayOrder == (if u.displayOrder.Set? then u.displayOrder.value else before.displayOrder)
      && step.store.fields == s.fields[f := row] && step.store.versions == s.versions
      && step.store.campaigns ==
        if u.labelText.Set? || u.description.Set? || u.enabled.Set? || u.displayOrder.Set?
        then s.campaigns[c := s.campaigns[c] + 1] else s.campaigns
  {
    hide History, Utf8Length;
    assert s.fields == s.fields[f := s.fields[f]];
  }

  // ---- reordering fields ----

  /** The ids are those of the campaign's fields, each once. */
  ghost predicate AreFields(s: Store, c: Id, ids: seq<Option<Id>>) {
    && (forall i :: 0 <= i < |ids| ==> ids[i].Some? && ids[i].value in s.fields && s.fields[ids[i].value].campaign == c)
    && (forall f :: f in s.fields && s.fields[f].campaign == c ==> Some(f) in ids)
    && (forall i, j :: 0 <= i < j < |ids| ==> ids[i] != ids[j])
  }

  lemma ReorderCommitsWhen(s: Store, c: Id, ids: seq<Option<Id>>)
    requires Inv(s)
    ensures ReorderStep(s, c, ids).outcome.Ok? <==> c in s.campaigns && ids != [] && AreFields(s, c, ids)
  {
    hide Inv;
    var given, wanted := set i | 0 <= i < |ids| && ids[i].Some? :: ids[i].value, FieldsOf(s.fields, c);
    if given == wanted {
      forall i | 0 <= i < |ids| && ids[i].Some? ensures ids[i].value in s.fields && s.fields[ids[i].value].campaign == c {
        assert ids[i].value in given;
      }
      forall f | f in s.fields && s.fields[f].campaign == c ensures Some(f) in ids {
        assert f in wanted;
        var i :| 0 <= i < |ids| && ids[i].Some? && ids[i].value == f;
      }
    }
    if AreFields(s, c, ids) {
      forall f | f in wanted ensures f in given {
        var i :| 0 <= i < |ids| && ids[i] == Some(f);
      }
    }
  }

  /** Each field of the campaign gets its position among the ids as its order, and keeps everything else. */
  lemma ReorderSets(s: Store, c: Id, ids: seq<Option<Id>>, i: nat)
    requires Inv(s) && ReorderStep(s, c, ids).outcome.Ok? && i < |ids|
    ensures var t := ReorderStep(s, c, ids).store;
      && ids[i].Some? && ids[i].value in s.fields && ids[i].value in t.fields
      && t.fields[ids[i].value] == s.fields[ids[i].value].(displayOrder := i)
      && t.fields.Keys == s.fields.Keys && t.versions == s.versions
      && (forall f :: f in s.fields && s.fields[f].campaign != c ==> t.fields[f] == s.fields[f])
      && c in s.campaigns && t.campaigns == s.campaigns[c := s.campaigns[c] + 1]
  {
    ReorderCommitsWhen(s, c, ids);
    hide Inv, ReorderAccepted;
    PositionFound(ids, i);
  }
}
