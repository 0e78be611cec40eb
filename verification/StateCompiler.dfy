/** Compiling the active campaign state into a text block of limited size, field by field. */
module StateCompiler {
  import opened Wrappers
  import opened Text
  import opened Seqs
  import opened Sorting

  datatype Mode = Single | List

  datatype FieldConfig = FieldConfig(id: string, key: string, fieldName: string, mode: Mode, enabled: bool, displayOrder: int)

  datatype Item = Item(text: string, resolved: bool)

  datatype Values = Values(fieldKey: string, mode: Mode, single: Option<string>, items: seq<Item>)

  datatype Version = Version(stateVersion: int, configVersion: int, fields: seq<Values>)

  datatype CompiledField = CompiledField(fieldKey: string, fieldId: string, fieldName: string, mode: Mode,
    included: bool, truncated: bool, text: string, tokens: nat, itemsIncluded: nat, itemsTotal: nat)

  datatype Block = Block(stateVersion: Option<int>, configVersion: Option<int>, budget: int, used: nat,
    truncatedFields: seq<string>, emptyFields: seq<string>, fields: seq<CompiledField>, text: string)

  /** `default_token_counter` */
  function DefaultCounter(text: string): nat {
    (|text| + 3) / 4
  }

  // ---- rendering ----

  predicate IsEmpty(v: Values) {
    if v.mode == Single then v.single.None? || Strip(v.single.value) == "" else v.items == []
  }

  function ItemsTotal(v: Option<Values>): nat {
    if v.None? || v.value.mode != List then 0 else |v.value.items|
  }

  function ItemsIncluded(v: Values): nat {
    if v.mode == List then |v.items| else if v.single.Some? then 1 else 0
  }

  function ModeName(mode: Mode): string {
    if mode == Single then "single" else "list"
  }

  function Header(cfg: FieldConfig): string {
    Strip(if cfg.fieldName != "" then cfg.fieldName else cfg.key) + " (key=" + cfg.key + ", mode=" + ModeName(cfg.mode) + ")"
  }

  function ItemLines(items: seq<Item>): seq<string> {
    if items == [] then []
    else
      var it := items[|items| - 1];
      ItemLines(items[..|items| - 1]) + [(if it.resolved then "[x] " else "- ") + Strip(it.text)]
  }

  function Rendered(cfg: FieldConfig, v: Values): string {
    if v.mode == Single then Header(cfg) + ": " + Strip(v.single.GetOr(""))
    else Join("\n", [Header(cfg) + ":"] + ItemLines(v.items))
  }

  method RenderField(cfg: FieldConfig, v: Values) returns (text: string)
    ensures text == Rendered(cfg, v)
  {
    hide Header, Strip;
    if v.mode == Single {
      return Header(cfg) + ": " + Strip(v.single.GetOr(""));
    }
    if v.items == [] {
      return Header(cfg) + ":";
    }
    var lines := [Header(cfg) + ":"];
    for i := 0 to |v.items|
      invariant lines == [Header(cfg) + ":"] + ItemLines(v.items[..i])
    {
      PrefixStep(v.items, i);
      var it := v.items[i];
      lines := lines + [(if it.resolved then "[x] " else "- ") + Strip(it.text)];
    }
    assert v.items[..|v.items|] == v.items;
    text := Join("\n", lines);
  }

  // ---- order ----

  predicate Before(a: FieldConfig, b: FieldConfig) {
    a.displayOrder < b.displayOrder || (a.displayOrder == b.displayOrder && StrLe(a.key, b.key))
  }

  predicate IsEnabled(cfg: FieldConfig) {
    cfg.enabled
  }

  function Ordered(fields: seq<FieldConfig>): seq<FieldConfig> {
    SortBy(Before, Filter(IsEnabled, fields))
  }

  function ValuesByKey(fields: seq<Values>): map<string, Values> {
    if fields == [] then map[]
    else ValuesByKey(fields[..|fields| - 1])[fields[|fields| - 1].fieldKey := fields[|fields| - 1]]
  }

  // ---- selection ----

  datatype Progress = Progress(used: nat, chunks: seq<string>, fields: seq<CompiledField>, truncatedFields: seq<string>, emptyFields: seq<string>)

  function Lookup(byKey: map<string, Values>, key: string): Option<Values> {
    if key in byKey then Some(byKey[key]) else None
  }

  function Entry(cfg: FieldConfig, included: bool, truncated: bool, text: string, tokens: nat, itemsIncluded: nat, itemsTotal: nat): CompiledField {
    CompiledField(cfg.key, cfg.id, cfg.fieldName, cfg.mode, included, truncated, text, tokens, itemsIncluded, itemsTotal)
  }

  function Advance(byKey: map<string, Values>, counter: string -> nat, budget: int, p: Progress, cfg: FieldConfig): Progress {
    var v := Lookup(byKey, cfg.key);
    if v.None? || IsEmpty(v.value) then
      p.(emptyFields := p.emptyFields + [cfg.key], fields := p.fields + [Entry(cfg, false, false, "", 0, 0, ItemsTotal(v))])
    else
      var chunk := Rendered(cfg, v.value);
      if p.used + counter(chunk) > budget then
        p.(truncatedFields := p.truncatedFields + [cfg.key],
           fields := p.fields + [Entry(cfg, false, true, "", counter(chunk), 0, ItemsTotal(v))])
      else
        p.(fields := p.fields + [Entry(cfg, true, false, chunk, counter(chunk), ItemsIncluded(v.value), ItemsTotal(v))],
           chunks := p.chunks + [chunk],
           used := p.used + counter(chunk))
  }

  function Selected(byKey: map<string, Values>, counter: string -> nat, budget: int, fields: seq<FieldConfig>): Progress {
    if fields == [] then Progress(0, [], [], [], [])
    else Advance(byKey, counter, budget, Selected(byKey, counter, budget, fields[..|fields| - 1]), fields[|fields| - 1])
  }

  function Compiled(version: Option<Version>, fields: seq<FieldConfig>, budget: int, counter: string -> nat): Block {
    var p := Selected(ValuesByKey(if version.Some? then version.value.fields else []), counter, budget, Ordered(fields));
    Block(if version.Some? then Some(version.value.stateVersion) else None,
          if version.Some? then Some(version.value.configVersion) else None,
          budget, p.used, p.truncatedFields, p.emptyFields, p.fields, Join("\n\n", p.chunks))
  }

  /** `compile_campaign_state` */
  method CompileCampaignState(version: Option<Version>, fields: seq<FieldConfig>, budget: int, counter: string -> nat) returns (block: Block)
    ensures block == Compiled(version, fields, budget, counter)
  {
    hide Rendered, IsEmpty, ItemsTotal, ItemsIncluded, SortBy, Filter;
    var enabledFields := Ordered(fields);
    block := Block(if version.Some? then Some(version.value.stateVersion) else None,
                   if version.Some? then Some(version.value.configVersion) else None,
                   budget, 0, [], [], [], "");
    if enabledFields == [] {
      return;
    }
    var byKey: map<string, Values> := map[];
    if version.Some? {
      var all := version.value.fields;
      for i := 0 to |all|
        invariant byKey == ValuesByKey(all[..i])
      {
        PrefixStep(all, i);
        byKey := byKey[all[i].fieldKey := all[i]];
      }
      assert all[..|all|] == all;
    }
    var p := SelectFields(byKey, counter, budget, enabledFields);
    block := block.(used := p.used, truncatedFields := p.truncatedFields, emptyFields := p.emptyFields, fields := p.fields,
                    text := Join("\n\n", p.chunks));
  }

  /** The loop over the ordered fields. */
  method SelectFields(byKey: map<string, Values>, counter: string -> nat, budget: int, ordered: seq<FieldConfig>) returns (p: Progress)
    ensures p == Selected(byKey, counter, budget, ordered)
  {
    hide Rendered, IsEmpty, ItemsTotal, ItemsIncluded;
    var used: nat, chunks, entries, truncatedFields, emptyFields := 0, [], [], [], [];
    for i := 0 to |ordered|
      invariant Progress(used, chunks, entries, truncatedFields, emptyFields) == Selected(byKey, counter, budget, ordered[..i])
    {
      PrefixStep(ordered, i);
      var cfg := ordered[i];
      var v := Lookup(byKey, cfg.key);
      if v.None? || IsEmpty(v.value) {
        emptyFields := emptyFields + [cfg.key];
        entries := entries + [Entry(cfg, false, false, "", 0, 0, ItemsTotal(v))];
        continue;
      }
      var chunk := RenderField(cfg, v.value);
      var tokens := counter(chunk);
      if used + tokens > budget {
        truncatedFields := truncatedFields + [cfg.key];
        entries := entries + [Entry(cfg, false, true, "", tokens, 0, ItemsTotal(v))];
        continue;
      }
      entries := entries + [Entry(cfg, true, false, chunk, tokens, ItemsIncluded(v.value), ItemsTotal(v))];
      chunks := chunks + [chunk];
      used := used + tokens;
    }
    assert ordered[..|ordered|] == ordered;
    p := Progress(used, chunks, entries, truncatedFields, emptyFields);
  }

  // ---- order does not depend on the input's ----

  lemma BeforeIsTotalPreorder()
    ensures TotalPreorder(Before)
  {
    hide StrLe;
    forall a, b ensures Before(a, b) || Before(b, a) {
      StrLeTotal(a.key, b.key);
    }
    forall a, b, c | Before(a, b) && Before(b, c) ensures Before(a, c) {
      if a.displayOrder == b.displayOrder == c.displayOrder {
        StrLeTransitive(a.key, b.key, c.key);
      }
    }
  }

  /** Enabled fields have different keys. */
  ghost predicate UniqueKeys(fields: seq<FieldConfig>) {
    forall x, y :: x in fields && y in fields && x.enabled && y.enabled && x.key == y.key ==> x == y
  }

  lemma KeysBreakTies(fields: seq<FieldConfig>)
    requires UniqueKeys(fields)
    ensures NoTies(Before, Filter(IsEnabled, fields))
  {
    hide StrLe;
    forall x, y | x in Filter(IsEnabled, fields) && y in Filter(IsEnabled, fields) && Before(x, y) && Before(y, x) ensures x == y {
      FilterMember(IsEnabled, fields, x);
      FilterMember(IsEnabled, fields, y);
      StrLeAntisymmetric(x.key, y.key);
    }
  }

  lemma {:induction false} FilterCount<T>(keep: T -> bool, xs: seq<T>, x: T)
    ensures multiset(Filter(keep, xs))[x] == if keep(x) then multiset(xs)[x] else 0
  {
    if xs != [] {
      var n := |xs| - 1;
      FilterCount(keep, xs[..n], x);
      assert xs == xs[..n] + [xs[n]];
    }
  }

  /** With unique keys, the block is the same for every order of the fields. */
  lemma OrderOfInputIsIrrelevant(version: Option<Version>, a: seq<FieldConfig>, b: seq<FieldConfig>, budget: int, counter: string -> nat)
    requires multiset(a) == multiset(b) && UniqueKeys(a)
    ensures Compiled(version, a, budget, counter) == Compiled(version, b, budget, counter)
  {
    hide Selected, Before, SortBy;
    var fa, fb := Filter(IsEnabled, a), Filter(IsEnabled, b);
    forall x ensures multiset(fa)[x] == multiset(fb)[x] {
      FilterCount(IsEnabled, a, x);
      FilterCount(IsEnabled, b, x);
    }
    BeforeIsTotalPreorder();
    KeysBreakTies(a);
    SortByDecides(Before, fa, fb);
  }

  // ---- what is listed ----

  /** The tokens of the included fields before position `i`. */
  function UsedBefore(fields: seq<CompiledField>, i: nat): nat
    requires i <= |fields|
  {
    if i == 0 then 0 else UsedBefore(fields, i - 1) + if fields[i - 1].included then fields[i - 1].tokens else 0
  }

  function Texts(fields: seq<CompiledField>): seq<string> {
    if fields == [] then []
    else
      var last := fields[|fields| - 1];
      Texts(fields[..|fields| - 1]) + if last.included then [last.text] else []
  }

  function KeysWhere(keep: CompiledField -> bool, fields: seq<CompiledField>): seq<string> {
    if fields == [] then []
    else
      var last := fields[|fields| - 1];
      KeysWhere(keep, fields[..|fields| - 1]) + if keep(last) then [last.fieldKey] else []
  }

  predicate IsTruncated(f: CompiledField) {
    f.truncated
  }

  predicate IsLeftEmpty(f: CompiledField) {
    !f.included && !f.truncated
  }

  /** What the entry of one field says, given the tokens used at its turn. */
  ghost predicate EntryOk(byKey: map<string, Values>, counter: string -> nat, budget: int, cfg: FieldConfig, used: nat, e: CompiledField) {
    var v := Lookup(byKey, cfg.key);
    && e.fieldKey == cfg.key && e.fieldId == cfg.id && e.fieldName == cfg.fieldName && e.mode == cfg.mode
    && !(e.included && e.truncated)
    && e.itemsTotal == (if v.Some? && v.value.mode == List then |v.value.items| else 0)
    && e.itemsIncluded == (if !e.included then 0 else if v.Some? && v.value.mode == List then |v.value.items| else 1)
    && (!e.included ==> e.text == "") && (IsLeftEmpty(e) ==> e.tokens == 0)
    && (IsLeftEmpty(e) <==> v.None? || IsEmpty(v.value))
    && (v.Some? && !IsEmpty(v.value) ==>
      && e.tokens == counter(Rendered(cfg, v.value))
      && (e.included <==> used + e.tokens <= budget)
      && (e.included ==> e.text == Rendered(cfg, v.value)))
  }

  lemma {:induction false} UsedBeforePrefix(fields: seq<CompiledField>, more: seq<CompiledField>, i: nat)
    requires i <= |fields|
    ensures UsedBefore(fields + more, i) == UsedBefore(fields, i)
  {
    if i > 0 {
      UsedBeforePrefix(fields, more, i - 1);
    }
  }

  lemma SnocLists(fields: seq<CompiledField>, e: CompiledField)
    ensures UsedBefore(fields + [e], |fields| + 1) == UsedBefore(fields, |fields|) + if e.included then e.tokens else 0
    ensures Texts(fields + [e]) == Texts(fields) + if e.included then [e.text] else []
    ensures KeysWhere(IsTruncated, fields + [e]) == KeysWhere(IsTruncated, fields) + if e.truncated then [e.fieldKey] else []
    ensures KeysWhere(IsLeftEmpty, fields + [e]) == KeysWhere(IsLeftEmpty, fields) + if IsLeftEmpty(e) then [e.fieldKey] else []
  {
    UsedBeforePrefix(fields, [e], |fields|);
    assert (fields + [e])[..|fields|] == fields;
  }

  /** The account of a selection: an entry per field in order, and lists and totals that agree with the entries. */
  ghost predicate Accounted(byKey: map<string, Values>, counter: string -> nat, budget: int, ordered: seq<FieldConfig>, p: Progress) {
    && |p.fields| == |ordered|
    && p.used == UsedBefore(p.fields, |p.fields|)
    && p.chunks == Texts(p.fields)
    && p.truncatedFields == KeysWhere(IsTruncated, p.fields)
    && p.emptyFields == KeysWhere(IsLeftEmpty, p.fields)
    && EntriesOk(byKey, counter, budget, ordered, p.fields)
  }

  ghost predicate EntriesOk(byKey: map<string, Values>, counter: string -> nat, budget: int, ordered: seq<FieldConfig>, fields: seq<CompiledField>) {
    && |fields| == |ordered|
    && forall i :: 0 <= i < |ordered| ==> EntryOk(byKey, counter, budget, ordered[i], UsedBefore(fields, i), fields[i])
  }

  lemma EntriesStep(byKey: map<string, Values>, counter: string -> nat, budget: int, ordered: seq<FieldConfig>, fields: seq<CompiledField>, e: CompiledField)
    requires ordered != [] && EntriesOk(byKey, counter, budget, ordered[..|ordered| - 1], fields)
    requires EntryOk(byKey, counter, budget, ordered[|ordered| - 1], UsedBefore(fields, |fields|), e)
    ensures EntriesOk(byKey, counter, budget, ordered, fields + [e])
  {
    hide EntryOk, UsedBefore;
    var n := |ordered| - 1;
    var all := fields + [e];
    forall i | 0 <= i <= n ensures EntryOk(byKey, counter, budget, ordered[i], UsedBefore(all, i), all[i]) {
      UsedBeforePrefix(fields, [e], i);
      if i < n {
        assert EntryOk(byKey, counter, budget, ordered[..n][i], UsedBefore(fields, i), fields[i]);
      }
    }
  }

  lemma AdvanceEntry(byKey: map<string, Values>, counter: string -> nat, budget: int, p: Progress, cfg: FieldConfig)
    ensures var q := Advance(byKey, counter, budget, p, cfg);
      && |q.fields| == |p.fields| + 1
      && var e := q.fields[|p.fields|];
      && q.fields == p.fields + [e]
      && EntryOk(byKey, counter, budget, cfg, p.used, e)
      && e.fieldKey == cfg.key
      && q.used == p.used + (if e.included then e.tokens else 0)
      && q.chunks == p.chunks + (if e.included then [e.text] else [])
      && q.truncatedFields == p.truncatedFields + (if e.truncated then [cfg.key] else [])
      && q.emptyFields == p.emptyFields + (if IsLeftEmpty(e) then [cfg.key] else [])
  {
    hide Rendered, Strip;
  }

  lemma NothingAccounted(byKey: map<string, Values>, counter: string -> nat, budget: int)
    ensures Accounted(byKey, counter, budget, [], Selected(byKey, counter, budget, []))
  {
  }

  lemma SelectedStep(byKey: map<string, Values>, counter: string -> nat, budget: int, ordered: seq<FieldConfig>)
    requires ordered != []
    ensures var n := |ordered| - 1;
      Selected(byKey, counter, budget, ordered) == Advance(byKey, counter, budget, Selected(byKey, counter, budget, ordered[..n]), ordered[n])
  {
    hide Advance;
  }

  lemma {:induction false} SelectionIsAccounted(byKey: map<string, Values>, counter: string -> nat, budget: int, ordered: seq<FieldConfig>)
    ensures Accounted(byKey, counter, budget, ordered, Selected(byKey, counter, budget, ordered))
  {
    hide Advance, EntryOk, EntriesOk, UsedBefore, Texts, KeysWhere, IsLeftEmpty, IsTruncated, Selected;
    if ordered == [] {
      NothingAccounted(byKey, counter, budget);
    } else {
      var n := |ordered| - 1;
      var p := Selected(byKey, counter, budget, ordered[..n]);
      SelectionIsAccounted(byKey, counter, budget, ordered[..n]);
      AdvanceEntry(byKey, counter, budget, p, ordered[n]);
      SelectedStep(byKey, counter, budget, ordered);
      var e := Advance(byKey, counter, budget, p, ordered[n]).fields[n];
      SnocLists(p.fields, e);
      EntriesStep(byKey, counter, budget, ordered, p.fields, e);
    }
  }

  lemma {:induction false} UsedIsWithin(byKey: map<string, Values>, counter: string -> nat, budget: int, ordered: seq<FieldConfig>)
    requires budget >= 0
    ensures Selected(byKey, counter, budget, ordered).used <= budget
  {
    hide Rendered, IsEmpty, ItemsTotal, ItemsIncluded;
    if ordered != [] {
      UsedIsWithin(byKey, counter, budget, ordered[..|ordered| - 1]);
    }
  }

  lemma RenderedIsNotEmpty(cfg: FieldConfig, v: Values)
    ensures |Rendered(cfg, v)| > 0
  {
    hide Strip, Join;
    var h := Header(cfg);
    assert |h| >= 6;
    if v.mode == List {
      JoinStarts("\n", h + ":", ItemLines(v.items));
    }
  }

  lemma JoinStarts(sep: string, first: string, rest: seq<string>)
    ensures |Join(sep, [first] + rest)| >= |first|
  {
    assert rest == [] ==> [first] + rest == [first];
  }

  lemma {:induction false} JoinLength(sep: string, parts: seq<string>)
    ensures parts != [] ==> |Join(sep, parts)| == |Concat(parts)| + |sep| * (|parts| - 1)
    ensures parts == [] ==> Join(sep, parts) == ""
  {
    if |parts| > 1 {
      JoinLength(sep, parts[1..]);
      assert |sep| * (|parts| - 1) == |sep| + |sep| * (|parts| - 2);
    } else if |parts| == 1 {
      assert parts[1..] == [];
      assert Concat(parts) == parts[0] + "";
    }
  }

  /** By display order, then by key. */
  ghost predicate InDisplayOrder(fields: seq<FieldConfig>) {
    forall i, j :: 0 <= i < j < |fields| ==>
      fields[i].displayOrder < fields[j].displayOrder || (fields[i].displayOrder == fields[j].displayOrder && StrLe(fields[i].key, fields[j].key))
  }

  lemma {:induction false} EnabledAre(fields: seq<FieldConfig>)
    ensures Filter(IsEnabled, fields) == Filter((cfg: FieldConfig) => cfg.enabled, fields)
  {
    if fields != [] {
      EnabledAre(fields[..|fields| - 1]);
    }
  }

  lemma SortedIsDisplayOrder(fields: seq<FieldConfig>)
    requires Sorted(Before, fields)
    ensures InDisplayOrder(fields)
  {
    hide StrLe;
    forall i, j | 0 <= i < j < |fields|
      ensures fields[i].displayOrder < fields[j].displayOrder || (fields[i].displayOrder == fields[j].displayOrder && StrLe(fields[i].key, fields[j].key)) {
      assert Before(fields[i], fields[j]);
    }
  }

  /** A field holds nothing when its text is white space only, or its list has no items. */
  lemma EmptyWhen(v: Values)
    ensures v.mode == Single ==> (IsEmpty(v) <==> v.single.None? || forall i :: 0 <= i < |v.single.value| ==> IsSpace(v.single.value[i]))
    ensures v.mode == List ==> (IsEmpty(v) <==> v.items == [])
  {
    hide IsSpace, Strip;
    if v.mode == Single && v.single.Some? {
      StripFacts(v.single.value);
      NoInkWhen(v.single.value);
    }
  }

  lemma {:induction false} NoInkWhen(s: string)
    ensures Ink(s) == "" <==> forall i :: 0 <= i < |s| ==> IsSpace(s[i])
  {
    if s != "" {
      hide IsSpace;
      NoInkWhen(s[1..]);
      assert forall i :: 0 < i < |s| ==> s[i] == s[1..][i - 1];
    }
  }

  /** What a field is shown under: its label, or its key without one, with key and mode. */
  function HeaderText(cfg: FieldConfig): string {
    Strip(if cfg.fieldName == "" then cfg.key else cfg.fieldName) + " (key=" + cfg.key + ", mode=" +
    (match cfg.mode case Single => "single" case List => "list") + ")"
  }

  lemma HeaderIs(cfg: FieldConfig)
    ensures Header(cfg) == HeaderText(cfg)
  {
    hide Strip;
  }

  /** A single field is shown on one line. */
  lemma SingleIsShown(cfg: FieldConfig, v: Values)
    requires v.mode == Single
    ensures Rendered(cfg, v) == HeaderText(cfg) + ": " + if v.single.Some? then Strip(v.single.value) else ""
  {
    hide Strip, Header, HeaderText;
    HeaderIs(cfg);
    StripFacts("");
  }

  /** A list is shown line by line, resolved items and open ones marked. */
  lemma ListIsShown(cfg: FieldConfig, v: Values) returns (lines: seq<string>)
    requires v.mode == List
    ensures |lines| == |v.items| + 1 && lines[0] == HeaderText(cfg) + ":" && Rendered(cfg, v) == Join("\n", lines)
    ensures forall i :: 0 <= i < |v.items| ==> lines[i + 1] == (if v.items[i].resolved then "[x] " else "- ") + Strip(v.items[i].text)
  {
    hide Strip, Join, Header, HeaderText;
    HeaderIs(cfg);
    ItemLinesAre(v.items);
    lines := [Header(cfg) + ":"] + ItemLines(v.items);
  }

  lemma {:induction false} ItemLinesAre(items: seq<Item>)
    ensures |ItemLines(items)| == |items|
    ensures forall i :: 0 <= i < |items| ==> ItemLines(items)[i] == (if items[i].resolved then "[x] " else "- ") + Strip(items[i].text)
  {
    if items != [] {
      hide Strip;
      ItemLinesAre(items[..|items| - 1]);
    }
  }

  /** Of several values for one key the last counts. */
  lemma {:induction false} LastValuesCount(all: seq<Values>, key: string, v: Values)
    ensures key in ValuesByKey(all) && ValuesByKey(all)[key] == v <==>
      exists i :: 0 <= i < |all| && all[i] == v && v.fieldKey == key && forall j :: i < j < |all| ==> all[j].fieldKey != key
  {
    if all != [] {
      var n := |all| - 1;
      LastValuesCount(all[..n], key, v);
      assert forall i :: 0 <= i < n ==> all[..n][i] == all[i];
    }
  }

  /**
    The compiled block lists every enabled field exactly once, in (display_order, key) order, as
    included, truncated or empty; the used tokens are those of the included fields and within a
    nonnegative budget; a field is truncated exactly when it did not fit at its turn; and the text
    is the included fields' texts, empty exactly when none is included.
   */
  lemma BlockAccounts(version: Option<Version>, fields: seq<FieldConfig>, budget: int, counter: string -> nat)
    ensures var block := Compiled(version, fields, budget, counter);
      var ordered := Ordered(fields);
      var byKey := ValuesByKey(if version.Some? then version.value.fields else []);
      && block.budget == budget
      && block.stateVersion == (if version.Some? then Some(version.value.stateVersion) else None)
      && block.configVersion == (if version.Some? then Some(version.value.configVersion) else None)
      && multiset(ordered) == multiset(Filter((cfg: FieldConfig) => cfg.enabled, fields)) && InDisplayOrder(ordered)
      && Accounted(byKey, counter, budget, ordered, Progress(block.used, Texts(block.fields), block.fields, block.truncatedFields, block.emptyFields))
      && block.text == Join("\n\n", Texts(block.fields))
      && (budget >= 0 ==> block.used <= budget)
      && (block.text == "" <==> Texts(block.fields) == [])
  {
    hide EntryOk, UsedBefore, KeysWhere, Advance, Before, SortBy;
    var ordered := Ordered(fields);
    var byKey := ValuesByKey(if version.Some? then version.value.fields else []);
    BeforeIsTotalPreorder();
    SortBySorted(Before, Filter(IsEnabled, fields));
    SortedIsDisplayOrder(ordered);
    EnabledAre(fields);
    SelectionIsAccounted(byKey, counter, budget, ordered);
    if budget >= 0 {
      UsedIsWithin(byKey, counter, budget, ordered);
    }
    TextsNotEmpty(byKey, counter, budget, ordered);
  }

  lemma TextsNotEmpty(byKey: map<string, Values>, counter: string -> nat, budget: int, ordered: seq<FieldConfig>)
    ensures var texts := Selected(byKey, counter, budget, ordered).chunks; Join("\n\n", texts) == "" <==> texts == []
  {
    hide Rendered;
    var texts := Selected(byKey, counter, budget, ordered).chunks;
    ChunksNotEmpty(byKey, counter, budget, ordered);
    if texts != [] {
      assert texts == [texts[0]] + texts[1..];
      JoinStarts("\n\n", texts[0], texts[1..]);
    }
  }

  predicate NoneEmpty(texts: seq<string>) {
    forall i :: 0 <= i < |texts| ==> |texts[i]| > 0
  }

  lemma {:induction false} ChunksNotEmpty(byKey: map<string, Values>, counter: string -> nat, budget: int, ordered: seq<FieldConfig>)
    ensures NoneEmpty(Selected(byKey, counter, budget, ordered).chunks)
  {
    hide Rendered, IsEmpty, ItemsTotal, ItemsIncluded;
    if ordered != [] {
      var n := |ordered| - 1;
      ChunksNotEmpty(byKey, counter, budget, ordered[..n]);
      var v := Lookup(byKey, ordered[n].key);
      if v.Some? {
        RenderedIsNotEmpty(ordered[n], v.value);
      }
    }
  }

  // ---- rounding ----

  lemma ConcatLength(parts: seq<string>, s: string)
    ensures |Concat(parts + [s])| == |Concat(parts)| + |s|
  {
    ConcatAppend(parts, [s]);
    ConcatOne(s);
  }

  /** The used tokens cover the chunks: each was rounded up, by less than one token. */
  lemma {:induction false} UsedCoversChunks(byKey: map<string, Values>, budget: int, ordered: seq<FieldConfig>)
    ensures var p := Selected(byKey, DefaultCounter, budget, ordered);
      && |Concat(p.chunks)| <= 4 * p.used <= |Concat(p.chunks)| + 3 * |p.chunks|
      && ((forall i :: 0 <= i < |p.chunks| ==> |p.chunks[i]| % 4 == 0) ==> 4 * p.used == |Concat(p.chunks)|)
  {
    hide Rendered, IsEmpty, ItemsTotal, ItemsIncluded, Concat;
    if ordered == [] {
      ConcatNothing();
    } else {
      var n := |ordered| - 1;
      var p := Selected(byKey, DefaultCounter, budget, ordered[..n]);
      var q := Selected(byKey, DefaultCounter, budget, ordered);
      UsedCoversChunks(byKey, budget, ordered[..n]);
      if q.chunks != p.chunks {
        var chunk := q.chunks[|p.chunks|];
        assert q.chunks == p.chunks + [chunk] && q.used == p.used + DefaultCounter(chunk);
        ConcatLength(p.chunks, chunk);
        assert forall i :: 0 <= i < |p.chunks| ==> p.chunks[i] == q.chunks[i];
        assert (|chunk| + 3) / 4 == DefaultCounter(chunk);
      }
    }
  }

  lemma ConcatNothing()
    ensures Concat([]) == ""
  {
  }

  /**
    With k included fields the text counts at most ceil((k-1)/2) tokens more than the used tokens,
    for its separators; and exactly so many more when no field's text is rounded up.
   */
  lemma SeparatorsCost(version: Option<Version>, fields: seq<FieldConfig>, budget: int)
    ensures var block := Compiled(version, fields, budget, DefaultCounter);
      var texts := Texts(block.fields);
      texts != [] ==>
        && DefaultCounter(block.text) <= block.used + |texts| / 2
        && ((forall i :: 0 <= i < |texts| ==> |texts[i]| % 4 == 0) ==> DefaultCounter(block.text) == block.used + |texts| / 2)
  {
    hide EntryOk, UsedBefore, KeysWhere, Advance, Before, SortBy, Texts, Selected, Join, Concat;
    var ordered := Ordered(fields);
    var byKey := ValuesByKey(if version.Some? then version.value.fields else []);
    SelectionIsAccounted(byKey, DefaultCounter, budget, ordered);
    UsedCoversChunks(byKey, budget, ordered);
    JoinLength("\n\n", Selected(byKey, DefaultCounter, budget, ordered).chunks);
  }

  /** What rounding up has added: the characters the counted tokens hold beyond the texts'. */
  function Slack(texts: seq<string>): nat {
    if texts == [] then 0
    else
      var last := texts[|texts| - 1];
      Slack(texts[..|texts| - 1]) + (4 * DefaultCounter(last) - |last|)
  }

  lemma {:induction false} UsedAndSlack(byKey: map<string, Values>, budget: int, ordered: seq<FieldConfig>)
    ensures var p := Selected(byKey, DefaultCounter, budget, ordered);
      4 * p.used == |Concat(p.chunks)| + Slack(p.chunks)
  {
    hide Rendered, IsEmpty, ItemsTotal, ItemsIncluded, Concat;
    if ordered == [] {
      ConcatNothing();
    } else {
      var n := |ordered| - 1;
      var p := Selected(byKey, DefaultCounter, budget, ordered[..n]);
      var q := Selected(byKey, DefaultCounter, budget, ordered);
      UsedAndSlack(byKey, budget, ordered[..n]);
      if q.chunks != p.chunks {
        var chunk := q.chunks[|p.chunks|];
        assert q.chunks == p.chunks + [chunk] && q.used == p.used + DefaultCounter(chunk);
        assert q.chunks[..|p.chunks|] == p.chunks;
        ConcatLength(p.chunks, chunk);
      }
    }
  }

  /**
    The text stays within the used tokens, or within the budget, exactly when the rounding of the
    included fields absorbs their separators, two characters each, with what the budget leaves.
   */
  lemma TextFitsWhen(version: Option<Version>, fields: seq<FieldConfig>, budget: int)
    ensures var block := Compiled(version, fields, budget, DefaultCounter);
      var texts := Texts(block.fields);
      texts != [] ==>
        && (DefaultCounter(block.text) <= block.used <==> 2 * (|texts| - 1) <= Slack(texts))
        && (DefaultCounter(block.text) <= budget <==> 2 * (|texts| - 1) <= Slack(texts) + 4 * (budget - block.used))
  {
    hide EntryOk, UsedBefore, KeysWhere, Advance, Before, SortBy, Texts, Selected, Join, Concat, Slack;
    var ordered := Ordered(fields);
    var byKey := ValuesByKey(if version.Some? then version.value.fields else []);
    SelectionIsAccounted(byKey, DefaultCounter, budget, ordered);
    UsedAndSlack(byKey, budget, ordered);
    JoinLength("\n\n", Selected(byKey, DefaultCounter, budget, ordered).chunks);
  }

  /** Two single fields, and values for them. */
  const FIRST := FieldConfig("1", "a", "", Single, true, 0)
  const SECOND := FieldConfig("2", "b", "", Single, true, 1)
  const FIRST_VALUE := Values("a", Single, Some("wxyz"), [])
  const SECOND_VALUE := Values("b", Single, Some("wxyz"), [])

  lemma NoRounding()
    ensures |Rendered(FIRST, FIRST_VALUE)| == |Rendered(SECOND, SECOND_VALUE)| == 28
  {
    hide Strip;
    CleanStrips("wxyz");
    CleanStrips("a");
    CleanStrips("b");
  }

  lemma CleanStrips(s: string)
    requires s == "wxyz" || s == "a" || s == "b"
    ensures Strip(s) == s
  {
    StripFacts(s);
  }

  lemma TwoInOrder()
    ensures Ordered([FIRST, SECOND]) == [FIRST, SECOND]
  {
    FilterAll(IsEnabled, [FIRST, SECOND]);
    assert [FIRST, SECOND][1..] == [SECOND] && [SECOND][1..] == [];
    assert SortBy(Before, [SECOND]) == [SECOND];
  }

  lemma TwoValues()
    ensures var byKey := ValuesByKey([FIRST_VALUE, SECOND_VALUE]);
      Lookup(byKey, "a") == Some(FIRST_VALUE) && Lookup(byKey, "b") == Some(SECOND_VALUE)
  {
    assert [FIRST_VALUE, SECOND_VALUE][..1] == [FIRST_VALUE] && [FIRST_VALUE][..0] == [];
    assert "a"[0] != "b"[0];
  }

  /** The two texts have no slack: 7 tokens each, but 15 with the separator, over a budget of 14. */
  lemma TextMayExceedBudget()
    ensures var block := Compiled(Some(Version(1, 1, [FIRST_VALUE, SECOND_VALUE])), [FIRST, SECOND], 14, DefaultCounter);
      block.used == 14 && DefaultCounter(block.text) > 14
  {
    hide Rendered, Strip, ValuesByKey, Ordered, Join, IsEmpty, Advance, Selected, DefaultCounter, Texts;
    var byKey := ValuesByKey([FIRST_VALUE, SECOND_VALUE]);
    var p := Selected(byKey, DefaultCounter, 14, [FIRST]);
    var q := Selected(byKey, DefaultCounter, 14, [FIRST, SECOND]);
    NoRounding();
    TwoInOrder();
    TwoValues();
    NothingSelected(byKey, 14);
    SevenTokens();
    assert [] + [FIRST] == [FIRST] && [FIRST] + [SECOND] == [FIRST, SECOND];
    SelectedNext(byKey, 14, [], FIRST, FIRST_VALUE);
    SelectedNext(byKey, 14, [FIRST], SECOND, SECOND_VALUE);
    assert [] + [Rendered(FIRST, FIRST_VALUE)] == [Rendered(FIRST, FIRST_VALUE)];
    TwoChunks(Rendered(FIRST, FIRST_VALUE), Rendered(SECOND, SECOND_VALUE));
  }

  lemma NothingSelected(byKey: map<string, Values>, budget: int)
    ensures Selected(byKey, DefaultCounter, budget, []) == Progress(0, [], [], [], [])
  {
  }

  lemma SevenTokens()
    ensures DefaultCounter(Rendered(FIRST, FIRST_VALUE)) == DefaultCounter(Rendered(SECOND, SECOND_VALUE)) == 7
    ensures !IsEmpty(FIRST_VALUE) && !IsEmpty(SECOND_VALUE)
  {
    hide Rendered, Strip;
    NoRounding();
    CleanStrips("wxyz");
  }

  lemma SelectedNext(byKey: map<string, Values>, budget: int, fields: seq<FieldConfig>, cfg: FieldConfig, v: Values)
    requires Lookup(byKey, cfg.key) == Some(v) && !IsEmpty(v)
    requires Selected(byKey, DefaultCounter, budget, fields).used + DefaultCounter(Rendered(cfg, v)) <= budget
    ensures var p, q := Selected(byKey, DefaultCounter, budget, fields), Selected(byKey, DefaultCounter, budget, fields + [cfg]);
      q.chunks == p.chunks + [Rendered(cfg, v)] && q.used == p.used + DefaultCounter(Rendered(cfg, v))
  {
    hide Rendered, IsEmpty, DefaultCounter, ItemsTotal, ItemsIncluded;
    assert (fields + [cfg])[..|fields|] == fields;
  }

  lemma TwoChunks(a: string, b: string)
    requires |a| == |b| == 28
    ensures DefaultCounter(Join("\n\n", [a] + [b])) == 15
  {
    assert ([a] + [b])[1..] == [b];
    assert Join("\n\n", [b]) == b;
  }
}
