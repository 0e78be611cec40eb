/** Over every sequence of calls a vault's table refines a map from (document, index) to rows. */
module VectorStoreTheorems {
  import opened Wrappers
  import opened Sorting
  import opened VectorStore

  type Key = (string, int)

  /** What a table holds, the last row of a key winning. */
  function Contents(table: seq<Row>): map<Key, Row> {
    if table == [] then map[]
    else
      var last := table[|table| - 1];
      Contents(table[..|table| - 1])[(last.documentId, last.chunkIndex) := last]
  }

  ghost predicate UniqueIds(table: seq<Row>) {
    forall i, j :: 0 <= i < j < |table| ==> table[i].chunkId != table[j].chunkId
  }

  ghost predicate Named(table: seq<Row>) {
    forall i :: 0 <= i < |table| ==> table[i].chunkId == ChunkId(table[i].documentId, table[i].chunkIndex)
  }

  /** Every vector has dimension `d`. */
  ghost predicate AllOf(table: seq<Row>, d: nat) {
    forall i :: 0 <= i < |table| ==> |table[i].vector| == d
  }

  ghost predicate Uniform(table: seq<Row>) {
    exists d :: AllOf(table, d)
  }

  // ---- tables ----

  lemma {:induction false} ContentsConcat(a: seq<Row>, b: seq<Row>)
    ensures Contents(a + b) == Contents(a) + Contents(b)
  {
    if b == [] {
      assert a + b == a;
    } else {
      var n := |b| - 1;
      ContentsConcat(a, b[..n]);
      assert (a + b)[..|a + b| - 1] == a + b[..n];
    }
  }

  lemma {:induction false} ContentsKeys(table: seq<Row>, k: Key)
    ensures k in Contents(table) <==> exists i :: 0 <= i < |table| && (table[i].documentId, table[i].chunkIndex) == k
  {
    if table != [] {
      var n := |table| - 1;
      ContentsKeys(table[..n], k);
      assert forall i :: 0 <= i < n ==> table[..n][i] == table[i];
    }
  }

  lemma HasIdMeansKey(rows: seq<Row>, k: Key)
    requires Named(rows)
    ensures HasId(rows, ChunkId(k.0, k.1)) <==> k in Contents(rows)
  {
    ContentsKeys(rows, k);
    if HasId(rows, ChunkId(k.0, k.1)) {
      var i :| 0 <= i < |rows| && rows[i].chunkId == ChunkId(k.0, k.1);
      ChunkIdInjective(rows[i].documentId, rows[i].chunkIndex, k.0, k.1);
    }
  }

  lemma SnocContents(table: seq<Row>, r: Row)
    ensures Contents(table + [r]) == Contents(table)[(r.documentId, r.chunkIndex) := r]
  {
    assert (table + [r])[..|table|] == table;
  }

  lemma UpdateThenRemove(m: map<Key, Row>, k: Key, r: Row, gone: set<Key>)
    ensures m[k := r] - gone == if k in gone then m - gone else (m - gone)[k := r]
  {
  }

  lemma {:induction false} KeptContents(table: seq<Row>, rows: seq<Row>)
    requires Named(table) && Named(rows)
    ensures Contents(Kept(table, rows)) == Contents(table) - Contents(rows).Keys
  {
    hide HasId, ChunkId, Contents;
    ContentsFacts([]);
    if table != [] {
      var n := |table| - 1;
      var init, last := table[..n], table[n];
      var k, kept := (last.documentId, last.chunkIndex), Kept(table[..n], rows);
      KeptContents(init, rows);
      HasIdMeansKey(rows, k);
      UpdateThenRemove(Contents(init), k, last, Contents(rows).Keys);
      SnocContents(init, last);
      SnocContents(kept, last);
      assert kept + [] == kept && init + [last] == table;
    }
  }

  /** Replacing by id is a map update. */
  lemma ReplacedContents(table: seq<Row>, rows: seq<Row>)
    requires Named(table) && Named(rows)
    ensures Contents(Replaced(table, rows)) == Contents(table) + Contents(rows)
  {
    KeptContents(table, rows);
    ContentsConcat(Kept(table, rows), rows);
    assert (Contents(table) - Contents(rows).Keys) + Contents(rows) == Contents(table) + Contents(rows);
  }

  lemma {:induction false} KeptMember(table: seq<Row>, rows: seq<Row>, r: Row)
    ensures r in Kept(table, rows) <==> r in table && !HasId(rows, r.chunkId)
  {
    if table != [] {
      hide HasId;
      var n := |table| - 1;
      KeptMember(table[..n], rows, r);
      assert table == table[..n] + [table[n]];
    }
  }

  lemma {:induction false} KeptUnique(table: seq<Row>, rows: seq<Row>)
    requires UniqueIds(table)
    ensures UniqueIds(Kept(table, rows))
  {
    if table != [] {
      hide HasId;
      var n := |table| - 1;
      var kept := Kept(table[..n], rows);
      KeptUnique(table[..n], rows);
      forall i | 0 <= i < |kept| ensures kept[i].chunkId != table[n].chunkId {
        KeptMember(table[..n], rows, kept[i]);
        var j :| 0 <= j < n && table[..n][j] == kept[i];
        assert table[j] == kept[i];
      }
    }
  }

  /** The rows stay unique exactly when the request does not repeat an id. */
  lemma ReplacedUniqueWhen(table: seq<Row>, rows: seq<Row>)
    requires UniqueIds(table)
    ensures UniqueIds(Replaced(table, rows)) <==> UniqueIds(rows)
  {
    var kept := Kept(table, rows);
    KeptUnique(table, rows);
    forall i, j | 0 <= i < |kept| && 0 <= j < |rows| ensures kept[i].chunkId != rows[j].chunkId {
      KeptMember(table, rows, kept[i]);
      assert HasId(rows, rows[j].chunkId);
    }
    var all := kept + rows;
    assert forall j :: 0 <= j < |rows| ==> all[|kept| + j] == rows[j];
    if UniqueIds(all) {
      forall i, j | 0 <= i < j < |rows| ensures rows[i].chunkId != rows[j].chunkId {
        assert all[|kept| + i].chunkId != all[|kept| + j].chunkId;
      }
    }
  }

  lemma {:induction false} AcceptedFacts(chunks: seq<Chunk>, dim: nat)
    ensures Named(Accepted(chunks, dim)) && AllOf(Accepted(chunks, dim), dim)
    ensures |Accepted(chunks, dim)| + |Failed(chunks, dim)| == |chunks|
  {
    if chunks != [] {
      hide ChunkId;
      AcceptedFacts(chunks[..|chunks| - 1], dim);
    }
  }

  lemma {:induction false} FirstIsAccepted(chunks: seq<Chunk>)
    requires chunks != []
    ensures Accepted(chunks, |chunks[0].vector|) != []
  {
    if |chunks| > 1 {
      FirstIsAccepted(chunks[..|chunks| - 1]);
    }
  }

  ghost predicate DistinctPairs(chunks: seq<Chunk>) {
    forall i, j :: 0 <= i < j < |chunks| ==>
      (chunks[i].documentId, chunks[i].chunkIndex) != (chunks[j].documentId, chunks[j].chunkIndex)
  }

  lemma {:induction false} AcceptedOrigin(chunks: seq<Chunk>, dim: nat, i: nat)
    requires i < |Accepted(chunks, dim)|
    ensures exists j :: 0 <= j < |chunks| && Accepted(chunks, dim)[i] == RowOf(chunks[j])
  {
    var n := |chunks| - 1;
    var before := Accepted(chunks[..n], dim);
    if i < |before| {
      AcceptedOrigin(chunks[..n], dim, i);
      var j :| 0 <= j < n && before[i] == RowOf(chunks[..n][j]);
      assert chunks[j] == chunks[..n][j];
    }
  }

  lemma {:induction false} AcceptedUnique(chunks: seq<Chunk>, dim: nat)
    requires DistinctPairs(chunks)
    ensures UniqueIds(Accepted(chunks, dim))
  {
    if chunks != [] {
      hide ChunkId;
      var n := |chunks| - 1;
      var before := Accepted(chunks[..n], dim);
      AcceptedUnique(chunks[..n], dim);
      forall i | 0 <= i < |before| ensures before[i].chunkId != RowOf(chunks[n]).chunkId {
        AcceptedOrigin(chunks[..n], dim, i);
        var j :| 0 <= j < n && before[i] == RowOf(chunks[..n][j]);
        if before[i].chunkId == RowOf(chunks[n]).chunkId {
          ChunkIdInjective(chunks[j].documentId, chunks[j].chunkIndex, chunks[n].documentId, chunks[n].chunkIndex);
        }
      }
    }
  }

  lemma {:induction false} WithoutDocumentUnique(table: seq<Row>, d: string)
    ensures forall r :: r in WithoutDocument(table, d) ==> r in table
    ensures UniqueIds(table) ==> UniqueIds(WithoutDocument(table, d))
  {
    if table != [] {
      var n := |table| - 1;
      var kept := WithoutDocument(table[..n], d);
      WithoutDocumentUnique(table[..n], d);
      assert table == table[..n] + [table[n]];
      forall i | UniqueIds(table) && 0 <= i < |kept| ensures kept[i].chunkId != table[n].chunkId {
        assert kept[i] in table[..n];
        var j :| 0 <= j < n && table[..n][j] == kept[i];
        assert table[j] == kept[i];
      }
    }
  }

  function ExceptDocument(m: map<Key, Row>, d: string): map<Key, Row> {
    map k | k in m && k.0 != d :: m[k]
  }

  lemma {:induction false} WithoutDocumentContents(table: seq<Row>, d: string)
    ensures Contents(WithoutDocument(table, d)) == ExceptDocument(Contents(table), d)
  {
    hide Contents;
    ContentsFacts([]);
    if table != [] {
      var n := |table| - 1;
      WithoutDocumentContents(table[..n], d);
      var kept := WithoutDocument(table[..n], d);
      SnocContents(table[..n], table[n]);
      assert table[..n] + [table[n]] == table;
      SnocContents(kept, table[n]);
      assert kept + [] == kept;
    }
  }

  // ---- calls ----

  datatype Call =
    | UpsertCall(vault: string, chunks: seq<Chunk>)
    | DeleteDocumentCall(vault: string, documentId: string)
    | DeleteVaultCall(vault: string)
    | SearchCall(vault: string)
    | RestartCall

  function Next(db: Db, call: Call): Db {
    match call
    case UpsertCall(v, chunks) => db.Upsert(v, chunks).0
    case DeleteDocumentCall(v, d) => db.DeleteDocument(v, d).0
    case DeleteVaultCall(v) => db.DeleteVault(v).0
    case SearchCall(v) => db.Searched(v)
    case RestartCall => db.Restart()
  }

  /** Calls on one vault leave another alone, in every state, exactly when their table names differ. */
  lemma IsolatedWhen(u: string, v: string)
    requires TableName(u).Ok? && TableName(v).Ok?
    ensures (forall db: Db, call: Call | !call.RestartCall? && call.vault == u :: Next(db, call).Table(v) == db.Table(v)) <==>
      TableName(u) != TableName(v)
  {
    hide TableName, Accepted, Replaced, WithoutDocument;
    if TableName(u) == TableName(v) {
      var name := TableName(v).value;
      var row := Row("", "", 0, "", [], "");
      var db := Db(map[name := [row]], map[]);
      assert Next(db, DeleteVaultCall(u)).Table(v) == [] != db.Table(v);
    }
  }

  /** Two vault ids that share a table. */
  lemma NamesCollide()
    ensures TableName("a-b") == TableName("a_b") == Ok("vault_a_b")
  {
    assert "vault_" + "a_b" == "vault_a_b";
    assert Sanitized("a-b") == "a_b" by {
      assert "a-b"[1..] == "-b" && "-b"[1..] == "b" && "b"[1..] == "";
      assert Sanitized("b") == "b";
    }
    assert Sanitized("a_b") == "a_b" by {
      assert "a_b"[1..] == "_b" && "_b"[1..] == "b" && "b"[1..] == "";
      assert Sanitized("b") == "b";
    }
  }

  // ---- one vault ----

  /** The vaults in use have table names, all different. */
  ghost predicate NamesInjective(vaults: set<string>) {
    && (forall v :: v in vaults ==> TableName(v).Ok?)
    && (forall u, v :: u in vaults && v in vaults && TableName(u) == TableName(v) ==> u == v)
  }

  /** Rows carry the id of their document and index, and a cached dimension is that of a table. */
  ghost predicate Sound(db: Db, v: string) {
    && Named(db.Table(v))
    && (v in db.dims ==> TableName(v).Ok? && TableName(v).value in db.tables)
  }

  /** The stored vectors are all alike, and of the cached dimension. */
  ghost predicate OneDimension(db: Db, v: string) {
    && Uniform(db.Table(v))
    && (v in db.dims ==> AllOf(db.Table(v), db.dims[v]))
  }

  /** The table after an upsert. */
  lemma UpsertTable(db: Db, v: string, chunks: seq<Chunk>)
    requires TableName(v).Ok? && chunks != []
    ensures var db' := db.Upsert(v, chunks).0;
      var dim := db.Dimension(v, chunks);
      && db'.Table(v) == (if Accepted(chunks, dim) == [] then db.Table(v) else Replaced(db.Table(v), Accepted(chunks, dim)))
      && db'.dims == db.dims[v := dim]
      && (forall u :: TableName(u) != TableName(v) ==> db'.Table(u) == db.Table(u))
      && (forall name :: name in db.tables ==> name in db'.tables)
  {
    hide TableName, Accepted, Replaced;
  }

  /** Does a row of dimension 0 survive an upsert whose dimension is learned anew, from a nonempty vector? */
  ghost predicate ZeroSurvives(db: Db, v: string, chunks: seq<Chunk>)
    requires chunks != []
  {
    && v !in db.dims && chunks[0].vector != []
    && exists i :: 0 <= i < |Kept(db.Table(v), Accepted(chunks, db.Dimension(v, chunks)))|
         && Kept(db.Table(v), Accepted(chunks, db.Dimension(v, chunks)))[i].vector == []
  }

  /**
    An upsert keeps the stored vectors at one dimension, the cached one, exactly when no empty
    vector of before outlives a restart into it: a table of empty vectors tells no dimension.
   */
  lemma UniformWhen(db: Db, v: string, chunks: seq<Chunk>)
    requires TableName(v).Ok? && chunks != [] && OneDimension(db, v)
    ensures OneDimension(db.Upsert(v, chunks).0, v) <==> !ZeroSurvives(db, v, chunks)
  {
    hide TableName, Kept, Accepted, ChunkId;
    var table, dim := db.Table(v), db.Dimension(v, chunks);
    var rows := Accepted(chunks, dim);
    UpsertTable(db, v, chunks);
    AcceptedFacts(chunks, dim);
    if rows != [] {
      ReplacedAllOf(table, rows, dim);
    } else if v !in db.dims && (table == [] || |table[0].vector| == 0) {
      FirstIsAccepted(chunks);
    } else {
      KeptAll(table, rows);
    }
    KeptDimension(table, rows);
  }

  lemma ReplacedAllOf(table: seq<Row>, rows: seq<Row>, d: nat)
    requires AllOf(rows, d)
    ensures AllOf(Replaced(table, rows), d) <==> AllOf(Kept(table, rows), d)
  {
    hide Kept;
    var kept := Kept(table, rows);
    assert forall i :: 0 <= i < |kept| ==> (kept + rows)[i] == kept[i];
  }

  lemma {:induction false} KeptAll(table: seq<Row>, rows: seq<Row>)
    requires rows == []
    ensures Kept(table, rows) == table
  {
    if table != [] {
      KeptAll(table[..|table| - 1], rows);
    }
  }

  lemma KeptDimension(table: seq<Row>, rows: seq<Row>)
    requires Uniform(table)
    ensures Kept(table, rows) == [] || (table != [] && AllOf(Kept(table, rows), |table[0].vector|))
  {
    var kept := Kept(table, rows);
    var d :| AllOf(table, d);
    forall i | 0 <= i < |kept| ensures table != [] && |kept[i].vector| == d {
      KeptMember(table, rows, kept[i]);
      var j :| 0 <= j < |table| && table[j] == kept[i];
    }
  }

  // ---- any calls ----

  /** A call on one of the vaults, or a restart. */
  ghost predicate InUse(vaults: set<string>, call: Call) {
    !call.RestartCall? ==> call.vault in vaults
  }

  /** The last row written for each (document, index) among the chunks of dimension `d`. */
  function Written(chunks: seq<Chunk>, d: nat): map<Key, Row> {
    if chunks == [] then map[]
    else
      var c := chunks[|chunks| - 1];
      var before := Written(chunks[..|chunks| - 1], d);
      if |c.vector| == d then before[(c.documentId, c.chunkIndex) := RowOf(c)] else before
  }

  /** The dimension that the store holds a call's chunks to. */
  function HeldBy(db: Db, call: Call): nat {
    if call.UpsertCall? && call.chunks != [] then db.Dimension(call.vault, call.chunks) else 0
  }

  /** What a call held to dimension `d` does to the rows of a vault. */
  function RowsNext(rows: map<Key, Row>, v: string, call: Call, d: nat): map<Key, Row> {
    if call.RestartCall? || call.vault != v then rows
    else
      match call
      case UpsertCall(_, chunks) => rows + Written(chunks, d)
      case DeleteDocumentCall(_, document) => ExceptDocument(rows, document)
      case DeleteVaultCall(_) => map[]
      case SearchCall(_) => rows
  }

  lemma {:induction false} AcceptedIsWritten(chunks: seq<Chunk>, d: nat)
    ensures Contents(Accepted(chunks, d)) == Written(chunks, d)
  {
    if chunks != [] {
      hide ChunkId;
      var n := |chunks| - 1;
      var rows := Accepted(chunks[..n], d);
      AcceptedIsWritten(chunks[..n], d);
      SnocContents(rows, RowOf(chunks[n]));
      assert rows + [] == rows;
    }
  }

  lemma ContentsFacts(table: seq<Row>)
    ensures table == [] <==> Contents(table) == map[]
    ensures forall k :: k in Contents(table) ==> Contents(table)[k] in table
  {
    if table != [] {
      ContentsKeys(table, (table[0].documentId, table[0].chunkIndex));
      ContentsFromTable(table);
    }
  }

  lemma {:induction false} ContentsFromTable(table: seq<Row>)
    ensures forall k :: k in Contents(table) ==> Contents(table)[k] in table
  {
    if table != [] {
      ContentsFromTable(table[..|table| - 1]);
      assert table == table[..|table| - 1] + [table[|table| - 1]];
    }
  }

  lemma ReplacedNamed(table: seq<Row>, rows: seq<Row>)
    requires Named(table) && Named(rows)
    ensures Named(Replaced(table, rows))
  {
    hide ChunkId, HasId;
    forall r | r in Kept(table, rows) ensures r in table {
      KeptMember(table, rows, r);
    }
    var all := Replaced(table, rows);
    forall i | 0 <= i < |all| ensures all[i] in table || all[i] in rows {
    }
  }

  /** No chunk is accepted only when the dimension was known already. */
  lemma NoneAccepted(db: Db, v: string, chunks: seq<Chunk>)
    requires TableName(v).Ok? && chunks != [] && Sound(db, v)
    requires Accepted(chunks, db.Dimension(v, chunks)) == []
    ensures TableName(v).value in db.tables
  {
    hide TableName, Accepted;
    FirstIsAccepted(chunks);
  }

  lemma UpsertRows(db: Db, v: string, chunks: seq<Chunk>)
    requires TableName(v).Ok? && Sound(db, v) && chunks != []
    ensures Sound(db.Upsert(v, chunks).0, v)
    ensures Contents(db.Upsert(v, chunks).0.Table(v)) == Contents(db.Table(v)) + Written(chunks, db.Dimension(v, chunks))
  {
    hide TableName, Contents, Written, Accepted, Kept, ChunkId, HasId;
    var table, dim := db.Table(v), db.Dimension(v, chunks);
    var rows := Accepted(chunks, dim);
    UpsertTable(db, v, chunks);
    AcceptedFacts(chunks, dim);
    AcceptedIsWritten(chunks, dim);
    ContentsFacts([]);
    if rows == [] {
      NoneAccepted(db, v, chunks);
      assert Contents(table) + map[] == Contents(table);
    } else {
      ReplacedContents(table, rows);
      ReplacedNamed(table, rows);
    }
  }

  lemma DeleteRows(db: Db, v: string, d: string)
    requires TableName(v).Ok? && Sound(db, v)
    ensures Sound(db.DeleteDocument(v, d).0, v)
    ensures Contents(db.DeleteDocument(v, d).0.Table(v)) == ExceptDocument(Contents(db.Table(v)), d)
  {
    hide TableName, Contents, WithoutDocument, ChunkId;
    var table := db.Table(v);
    WithoutDocumentContents(table, d);
    WithoutDocumentUnique(table, d);
    ContentsFacts([]);
    forall r | r in WithoutDocument(table, d) ensures r.chunkId == ChunkId(r.documentId, r.chunkIndex) {
      assert r in table;
    }
  }

  /**
    Every call on a vault in use is a step of its map of rows, whatever the vectors it is given;
    calls on other vaults, searches and restarts leave the map alone.
   */
  lemma StepRefines(db: Db, vaults: set<string>, v: string, call: Call)
    requires NamesInjective(vaults) && v in vaults && InUse(vaults, call) && Sound(db, v)
    ensures Sound(Next(db, call), v)
    ensures Contents(Next(db, call).Table(v)) == RowsNext(Contents(db.Table(v)), v, call, HeldBy(db, call))
  {
    hide TableName, Contents, Written, Accepted, Kept, WithoutDocument, ChunkId, HasId;
    if !call.RestartCall? && call.vault == v {
      ContentsFacts([]);
      match call
      case UpsertCall(_, chunks) =>
        if chunks == [] {
          NothingWritten(HeldBy(db, call));
          assert Contents(db.Table(v)) + map[] == Contents(db.Table(v));
        } else {
          UpsertRows(db, v, chunks);
        }
      case DeleteDocumentCall(_, d) =>
        DeleteRows(db, v, d);
      case DeleteVaultCall(_) =>
      case SearchCall(_) =>
    }
  }

  lemma NothingWritten(d: nat)
    ensures Written([], d) == map[]
    ensures forall rows: map<Key, Row> :: rows + map[] == rows
  {
  }

  function Run(calls: seq<Call>): Db {
    if calls == [] then Db(map[], map[])
    else Next(Run(calls[..|calls| - 1]), calls[|calls| - 1])
  }

  function RowsRun(v: string, calls: seq<Call>): map<Key, Row> {
    if calls == [] then map[]
    else
      var n := |calls| - 1;
      RowsNext(RowsRun(v, calls[..n]), v, calls[n], HeldBy(Run(calls[..n]), calls[n]))
  }

  /** After any calls on vaults in use, a vault's table holds what its map holds. */
  lemma {:induction false} RunRefines(vaults: set<string>, calls: seq<Call>, v: string)
    requires NamesInjective(vaults) && v in vaults
    requires forall i :: 0 <= i < |calls| ==> InUse(vaults, calls[i])
    ensures Sound(Run(calls), v)
    ensures Contents(Run(calls).Table(v)) == RowsRun(v, calls)
  {
    hide TableName, RowsNext, Next, InUse, NamesInjective, HeldBy;
    if calls != [] {
      var n := |calls| - 1;
      RunRefines(vaults, calls[..n], v);
      StepRefines(Run(calls[..n]), vaults, v, calls[n]);
    }
  }

  /** Does a call mix dimensions in a vault's table? */
  ghost predicate Mixes(db: Db, v: string, call: Call) {
    call.UpsertCall? && call.vault == v && call.chunks != [] && ZeroSurvives(db, v, call.chunks)
  }

  lemma DeleteKeepsDimension(db: Db, v: string, d: string)
    requires TableName(v).Ok? && OneDimension(db, v)
    ensures OneDimension(db.DeleteDocument(v, d).0, v)
  {
    hide TableName, WithoutDocument;
    var table := db.Table(v);
    var kept := WithoutDocument(table, d);
    WithoutDocumentUnique(table, d);
    var e :| AllOf(table, e);
    forall i | 0 <= i < |kept| ensures exists j :: 0 <= j < |table| && table[j] == kept[i] {
      assert kept[i] in table;
    }
    assert AllOf(kept, e);
  }

  lemma DimensionStep(db: Db, vaults: set<string>, v: string, call: Call)
    requires NamesInjective(vaults) && v in vaults && InUse(vaults, call) && Sound(db, v) && OneDimension(db, v)
    ensures OneDimension(Next(db, call), v) <==> !Mixes(db, v, call)
  {
    hide TableName, Accepted, Kept, WithoutDocument, ChunkId, HasId, ZeroSurvives;
    if !call.RestartCall? && call.vault == v {
      match call
      case UpsertCall(_, chunks) =>
        if chunks != [] {
          UniformWhen(db, v, chunks);
        }
      case DeleteDocumentCall(_, d) =>
        DeleteKeepsDimension(db, v, d);
      case DeleteVaultCall(_) =>
        assert AllOf([], 0);
      case SearchCall(_) =>
    }
  }

  /** In every state of the run the stored vectors of `v` are alike, and of the cached dimension. */
  ghost predicate AlwaysUniform(calls: seq<Call>, v: string) {
    forall k :: 0 <= k <= |calls| ==> OneDimension(Run(calls[..k]), v)
  }

  ghost predicate NeverMixes(calls: seq<Call>, v: string) {
    forall k :: 0 <= k < |calls| ==> !Mixes(Run(calls[..k]), v, calls[k])
  }

  lemma AlwaysUniformSnoc(calls: seq<Call>, v: string)
    requires calls != []
    ensures AlwaysUniform(calls, v) <==> AlwaysUniform(calls[..|calls| - 1], v) && OneDimension(Run(calls), v)
  {
    hide Run, OneDimension;
    var n := |calls| - 1;
    assert forall k :: 0 <= k <= n ==> calls[..n][..k] == calls[..k];
    assert calls[..n + 1] == calls;
  }

  lemma NeverMixesSnoc(calls: seq<Call>, v: string)
    requires calls != []
    ensures var n := |calls| - 1;
      NeverMixes(calls, v) <==> NeverMixes(calls[..n], v) && !Mixes(Run(calls[..n]), v, calls[n])
  {
    hide Run, Mixes;
    var n := |calls| - 1;
    assert forall k :: 0 <= k < n ==> calls[..n][..k] == calls[..k] && calls[..n][k] == calls[k];
  }

  /**
    The vectors of a vault stay alike over a run exactly when none of its upserts learns a
    dimension anew beside a stored empty vector.
   */
  lemma {:induction false} UniformOverRunWhen(vaults: set<string>, calls: seq<Call>, v: string)
    requires NamesInjective(vaults) && v in vaults
    requires forall i :: 0 <= i < |calls| ==> InUse(vaults, calls[i])
    ensures AlwaysUniform(calls, v) <==> NeverMixes(calls, v)
    ensures AlwaysUniform(calls, v) ==> OneDimension(Run(calls), v)
  {
    hide TableName, Next, InUse, NamesInjective, Mixes, OneDimension, Sound, AlwaysUniform, NeverMixes;
    if calls == [] {
      NewVaultIsUniform(v);
    } else {
      var n := |calls| - 1;
      UniformOverRunWhen(vaults, calls[..n], v);
      AlwaysUniformSnoc(calls, v);
      NeverMixesSnoc(calls, v);
      RunRefines(vaults, calls[..n], v);
      if OneDimension(Run(calls[..n]), v) {
        DimensionStep(Run(calls[..n]), vaults, v, calls[n]);
      }
    }
  }

  const EMPTY_CHUNK: Chunk := Chunk("d", 0, "", [], "")
  const PLAIN_CHUNK: Chunk := Chunk("e", 0, "", [1.0], "")
  const MIXING_CALLS: seq<Call> := [UpsertCall("a", [EMPTY_CHUNK]), RestartCall, UpsertCall("a", [PLAIN_CHUNK])]

  lemma NameOfA()
    ensures TableName("a") == Ok("vault_a")
  {
    assert "a"[1..] == "" && Sanitized("a") == "a";
    assert "vault_" + "a" == "vault_a";
  }

  lemma AcceptedOne(c: Chunk)
    ensures Accepted([c], |c.vector|) == [RowOf(c)]
  {
    assert [c][..0] == [];
  }

  lemma MixingStart()
    ensures Run(MIXING_CALLS[..1]) == Db(map["vault_a" := [RowOf(EMPTY_CHUNK)]], map["a" := 0])
    ensures Run(MIXING_CALLS[..2]) == Db(map["vault_a" := [RowOf(EMPTY_CHUNK)]], map[])
  {
    hide TableName, Accepted, ChunkId;
    NameOfA();
    AcceptedOne(EMPTY_CHUNK);
    var db := Db(map[], map[]);
    assert db.Dimension("a", [EMPTY_CHUNK]) == |EMPTY_CHUNK.vector| == 0;
    assert Replaced([], [RowOf(EMPTY_CHUNK)]) == [RowOf(EMPTY_CHUNK)];
    assert MIXING_CALLS[..1][..0] == [] && MIXING_CALLS[..2][..1] == MIXING_CALLS[..1];
  }

  /** A run that mixes: an empty vector is stored, and a restart forgets that dimension. */
  lemma DimensionsMayMix()
    ensures !AlwaysUniform(MIXING_CALLS, "a")
  {
    hide TableName, Accepted, ChunkId, Run, Next, InUse, OneDimension, AlwaysUniform;
    NameOfA();
    MixingStart();
    AcceptedOne(PLAIN_CHUNK);
    var table, rows := [RowOf(EMPTY_CHUNK)], [RowOf(PLAIN_CHUNK)];
    DifferentIds();
    assert Kept(table, rows) == table by {
      assert table[..0] == [] && Kept([], rows) == [];
    }
    var db := Run(MIXING_CALLS[..2]);
    assert db.Table("a") == table && db.Dimension("a", [PLAIN_CHUNK]) == |PLAIN_CHUNK.vector|;
    assert Kept(db.Table("a"), Accepted([PLAIN_CHUNK], db.Dimension("a", [PLAIN_CHUNK])))[0].vector == [];
    assert Mixes(Run(MIXING_CALLS[..2]), "a", MIXING_CALLS[2]);
    MixingInUse();
    UniformOverRunWhen({"a"}, MIXING_CALLS, "a");
  }

  lemma DifferentIds()
    ensures RowOf(EMPTY_CHUNK).chunkId != RowOf(PLAIN_CHUNK).chunkId
  {
    hide ChunkId;
    if ChunkId("d", 0) == ChunkId("e", 0) {
      ChunkIdInjective("d", 0, "e", 0);
    }
  }

  lemma MixingInUse()
    ensures NamesInjective({"a"})
    ensures forall i :: 0 <= i < |MIXING_CALLS| ==> InUse({"a"}, MIXING_CALLS[i])
  {
    NameOfA();
  }

  lemma NewVaultIsUniform(v: string)
    ensures AlwaysUniform([], v) && NeverMixes([], v) && OneDimension(Run([]), v)
  {
    hide TableName;
    assert AllOf([], 0);
  }

  // ---- the abstract vault ----

  /** A vault as its callers see it: the dimension this process remembers, and a map of rows. */
  datatype Vault = Vault(cached: Option<nat>, rows: map<Key, Row>)

  /** The dimension that rows which are all alike tell: empty vectors tell none. */
  ghost function Learned(rows: map<Key, Row>): Option<nat> {
    if rows == map[] then None
    else
      var k :| k in rows;
      if rows[k].vector == [] then None else Some(|rows[k].vector|)
  }

  ghost function HeldTo(s: Vault, chunks: seq<Chunk>): nat
    requires chunks != []
  {
    s.cached.GetOr(Learned(s.rows).GetOr(|chunks[0].vector|))
  }

  ghost function VaultNext(s: Vault, v: string, call: Call): Vault {
    match call
    case UpsertCall(u, chunks) =>
      if u != v || chunks == [] then s
      else Vault(Some(HeldTo(s, chunks)), s.rows + Written(chunks, HeldTo(s, chunks)))
    case DeleteDocumentCall(u, d) => if u != v then s else s.(rows := ExceptDocument(s.rows, d))
    case DeleteVaultCall(u) => if u != v then s else Vault(None, map[])
    case SearchCall(u) => if u != v || s.cached.Some? then s else s.(cached := Learned(s.rows))
    case RestartCall => s.(cached := None)
  }

  ghost function VaultOf(db: Db, v: string): Vault {
    Vault(if v in db.dims then Some(db.dims[v]) else None, Contents(db.Table(v)))
  }

  /** Does a call put vectors of a dimension of their own beside an empty one that stays? */
  ghost predicate VaultMixes(s: Vault, v: string, call: Call) {
    && call.UpsertCall? && call.vault == v && call.chunks != [] && s.cached.None? && call.chunks[0].vector != []
    && exists k :: k in s.rows && k !in Written(call.chunks, HeldTo(s, call.chunks)) && s.rows[k].vector == []
  }

  lemma SameDimension(db: Db, v: string, chunks: seq<Chunk>)
    requires OneDimension(db, v) && TableName(v).Ok? && chunks != []
    ensures db.Dimension(v, chunks) == HeldTo(VaultOf(db, v), chunks)
  {
    hide TableName, Contents;
    ContentsFacts(db.Table(v));
  }

  /** Of a table of vectors alike, an empty one in it is an empty one in its map. */
  lemma EmptyVectors(table: seq<Row>)
    requires Uniform(table)
    ensures (exists i :: 0 <= i < |table| && table[i].vector == []) <==>
      exists k :: k in Contents(table) && Contents(table)[k].vector == []
  {
    hide Contents;
    ContentsFacts(table);
    if i :| 0 <= i < |table| && table[i].vector == [] {
      assert Contents(table) != map[];
      var k :| k in Contents(table);
      assert Contents(table)[k] in table;
    }
  }

  lemma RestrictedEmpty(m: map<Key, Row>, gone: set<Key>)
    ensures (exists k :: k in m - gone && (m - gone)[k].vector == []) <==> exists k :: k in m && k !in gone && m[k].vector == []
  {
    if k :| k in m && k !in gone && m[k].vector == [] {
      assert k in m - gone;
    }
  }

  lemma MixesMeans(db: Db, v: string, call: Call)
    requires Sound(db, v) && OneDimension(db, v) && TableName(v).Ok?
    ensures Mixes(db, v, call) <==> VaultMixes(VaultOf(db, v), v, call)
  {
    hide TableName, Contents, Written, Accepted, Kept, ChunkId, HasId, HeldTo, Db.Dimension;
    if call.UpsertCall? && call.vault == v && call.chunks != [] {
      var table, dim := db.Table(v), db.Dimension(v, call.chunks);
      var rows := Accepted(call.chunks, dim);
      SameDimension(db, v, call.chunks);
      AcceptedFacts(call.chunks, dim);
      AcceptedIsWritten(call.chunks, dim);
      KeptContents(table, rows);
      KeptDimension(table, rows);
      assert AllOf([], 0);
      EmptyVectors(Kept(table, rows));
      RestrictedEmpty(Contents(table), Written(call.chunks, dim).Keys);
    }
  }

  lemma CacheStep(db: Db, v: string, call: Call)
    requires TableName(v).Ok? && Sound(db, v) && OneDimension(db, v) && InUse({v}, call)
    ensures VaultOf(Next(db, call), v).cached == VaultNext(VaultOf(db, v), v, call).cached
  {
    hide TableName, Contents, Written, Accepted, Kept, WithoutDocument, ChunkId, HasId;
    ContentsFacts(db.Table(v));
    if call.UpsertCall? && call.chunks != [] {
      SameDimension(db, v, call.chunks);
    }
  }

  /**
    A vault whose vectors are alike is a map and a dimension: what the store remembers, what it
    holds an upsert to, and whether the vectors stay alike follow from these two.
   */
  lemma VaultStepRefines(db: Db, vaults: set<string>, v: string, call: Call)
    requires NamesInjective(vaults) && v in vaults && InUse(vaults, call) && Sound(db, v) && OneDimension(db, v)
    ensures VaultOf(Next(db, call), v) == VaultNext(VaultOf(db, v), v, call)
    ensures OneDimension(Next(db, call), v) <==> !VaultMixes(VaultOf(db, v), v, call)
  {
    hide TableName, Contents, Written, ChunkId, Next, Mixes, Sound, OneDimension, HeldTo, VaultMixes;
    StepRefines(db, vaults, v, call);
    DimensionStep(db, vaults, v, call);
    MixesMeans(db, v, call);
    if call.RestartCall? || call.vault == v {
      CacheStep(db, v, call);
      NothingWritten(0);
      if call.UpsertCall? && call.chunks != [] {
        SameDimension(db, v, call.chunks);
      }
    } else {
      OthersLeave(db, vaults, v, call);
    }
  }

  lemma OthersLeave(db: Db, vaults: set<string>, v: string, call: Call)
    requires NamesInjective(vaults) && v in vaults && InUse(vaults, call) && !call.RestartCall? && call.vault != v
    ensures Next(db, call).Table(v) == db.Table(v) && !Mixes(db, v, call)
    ensures VaultOf(Next(db, call), v).cached == VaultOf(db, v).cached
  {
    hide TableName, Accepted, Replaced, WithoutDocument;
  }

  // ---- runs ----

  ghost function VaultRun(v: string, calls: seq<Call>): Vault {
    if calls == [] then Vault(None, map[])
    else VaultNext(VaultRun(v, calls[..|calls| - 1]), v, calls[|calls| - 1])
  }

  ghost predicate VaultNeverMixes(v: string, calls: seq<Call>) {
    forall k :: 0 <= k < |calls| ==> !VaultMixes(VaultRun(v, calls[..k]), v, calls[k])
  }

  lemma VaultNeverMixesSnoc(v: string, calls: seq<Call>)
    requires calls != []
    ensures var n := |calls| - 1;
      VaultNeverMixes(v, calls) <==> VaultNeverMixes(v, calls[..n]) && !VaultMixes(VaultRun(v, calls[..n]), v, calls[n])
  {
    hide VaultRun, VaultMixes;
    var n := |calls| - 1;
    assert forall k :: 0 <= k < n ==> calls[..n][..k] == calls[..k] && calls[..n][k] == calls[k];
  }

  lemma NewVault(v: string)
    ensures VaultOf(Run([]), v) == VaultRun(v, []) && VaultNeverMixes(v, [])
  {
  }

  /**
    Over any calls, the vectors of a vault stay alike exactly when those of its map and dimension
    do, and the store is then that map and dimension.
   */
  lemma {:induction false} VaultRunRefines(vaults: set<string>, calls: seq<Call>, v: string)
    requires NamesInjective(vaults) && v in vaults
    requires forall i :: 0 <= i < |calls| ==> InUse(vaults, calls[i])
    ensures AlwaysUniform(calls, v) <==> VaultNeverMixes(v, calls)
    ensures AlwaysUniform(calls, v) ==> VaultOf(Run(calls), v) == VaultRun(v, calls)
  {
    hide TableName, VaultNext, Next, InUse, NamesInjective, AlwaysUniform, VaultNeverMixes, VaultMixes, Sound, OneDimension, VaultOf;
    if calls == [] {
      NewVaultIsUniform(v);
      NewVault(v);
    } else {
      var n := |calls| - 1;
      VaultRunRefines(vaults, calls[..n], v);
      RunRefines(vaults, calls[..n], v);
      UniformOverRunWhen(vaults, calls[..n], v);
      AlwaysUniformSnoc(calls, v);
      VaultNeverMixesSnoc(v, calls);
      if AlwaysUniform(calls[..n], v) {
        VaultStepRefines(Run(calls[..n]), vaults, v, calls[n]);
      }
    }
  }

  ghost predicate NoEmptyVector(call: Call) {
    call.UpsertCall? ==> forall i :: 0 <= i < |call.chunks| ==> call.chunks[i].vector != []
  }

  lemma {:induction false} WrittenNotEmpty(chunks: seq<Chunk>, d: nat)
    requires forall i :: 0 <= i < |chunks| ==> chunks[i].vector != []
    ensures forall k :: k in Written(chunks, d) ==> Written(chunks, d)[k].vector != []
  {
    if chunks != [] {
      hide ChunkId;
      WrittenNotEmpty(chunks[..|chunks| - 1], d);
    }
  }

  /** Calls that upsert no empty vector mix no dimensions. */
  lemma {:induction false} NoEmptyNeverMixes(v: string, calls: seq<Call>)
    requires forall i :: 0 <= i < |calls| ==> NoEmptyVector(calls[i])
    ensures VaultNeverMixes(v, calls)
    ensures forall k :: k in VaultRun(v, calls).rows ==> VaultRun(v, calls).rows[k].vector != []
  {
    hide Written, HeldTo, Learned, VaultNeverMixes;
    if calls == [] {
      NewVault(v);
    } else {
      var n := |calls| - 1;
      NoEmptyNeverMixes(v, calls[..n]);
      VaultNeverMixesSnoc(v, calls);
      assert NoEmptyVector(calls[n]);
      if calls[n].UpsertCall? && calls[n].chunks != [] {
        WrittenNotEmpty(calls[n].chunks, HeldTo(VaultRun(v, calls[..n]), calls[n].chunks));
      }
    }
  }

  /** When no request repeats a (document, index) pair, no table ever holds a chunk id twice. */
  lemma {:induction false} RunKeepsIdsUnique(calls: seq<Call>, name: string)
    requires forall i :: 0 <= i < |calls| && calls[i].UpsertCall? ==> DistinctPairs(calls[i].chunks)
    ensures name in Run(calls).tables ==> UniqueIds(Run(calls).tables[name])
  {
    hide TableName, DistinctPairs, Accepted, Kept, WithoutDocument, Db.Dimension;
    if calls != [] {
      var n := |calls| - 1;
      var db := Run(calls[..n]);
      RunKeepsIdsUnique(calls[..n], name);
      match calls[n]
      case UpsertCall(v, chunks) =>
        if chunks != [] && TableName(v) == Ok(name) {
          var rows := Accepted(chunks, db.Dimension(v, chunks));
          AcceptedUnique(chunks, db.Dimension(v, chunks));
          ReplacedUniqueWhen(db.Table(v), rows);
        }
      case DeleteDocumentCall(v, d) =>
        if TableName(v) == Ok(name) && name in db.tables {
          WithoutDocumentUnique(db.tables[name], d);
        }
      case DeleteVaultCall(_) =>
      case SearchCall(_) =>
      case RestartCall =>
    }
  }

  // ---- reading a document back ----

  lemma {:induction false} OfDocumentFacts(table: seq<Row>, d: string)
    ensures UniqueIds(table) ==> UniqueIds(OfDocument(table, d))
    ensures forall r :: r in OfDocument(table, d) <==> r in table && r.documentId == d
  {
    if table != [] {
      var n := |table| - 1;
      var before := OfDocument(table[..n], d);
      OfDocumentFacts(table[..n], d);
      assert table == table[..n] + [table[n]];
      forall i | UniqueIds(table) && 0 <= i < |before| ensures before[i].chunkId != table[n].chunkId {
        assert before[i] in table[..n];
        var j :| 0 <= j < n && table[..n][j] == before[i];
        assert table[j] == before[i];
      }
    }
  }

  lemma {:induction false} UniqueIsContents(table: seq<Row>, r: Row)
    requires UniqueIds(table) && Named(table)
    ensures r in table <==> (r.documentId, r.chunkIndex) in Contents(table) && Contents(table)[(r.documentId, r.chunkIndex)] == r
  {
    if table != [] {
      hide ChunkId;
      var n := |table| - 1;
      UniqueIsContents(table[..n], r);
      assert table == table[..n] + [table[n]];
      if r in table[..n] {
        var j :| 0 <= j < n && table[..n][j] == r;
        assert table[j].chunkId != table[n].chunkId;
      }
    }
  }

  lemma IndicesIncrease(rows: seq<Row>, d: string)
    requires Sorted(ByIndex, rows) && UniqueIds(rows) && Named(rows)
    requires forall i :: 0 <= i < |rows| ==> rows[i].documentId == d
    ensures forall i, j :: 0 <= i < j < |rows| ==> rows[i].chunkIndex < rows[j].chunkIndex
  {
    hide ChunkId;
    forall i, j | 0 <= i < j < |rows| ensures rows[i].chunkIndex < rows[j].chunkIndex {
      assert ByIndex(rows[i], rows[j]);
      assert rows[i].chunkId != rows[j].chunkId;
    }
  }

  lemma {:induction false} UniqueInsert(le: (Row, Row) -> bool, x: Row, s: seq<Row>)
    requires UniqueIds(s) && forall i :: 0 <= i < |s| ==> s[i].chunkId != x.chunkId
    ensures UniqueIds(Insert(le, x, s))
  {
    if s != [] && !le(x, s[0]) {
      UniqueInsert(le, x, s[1..]);
      var r := Insert(le, x, s[1..]);
      forall i | 0 <= i < |r| ensures r[i].chunkId != s[0].chunkId {
        assert r[i] in multiset(r);
        assert r[i] == x || r[i] in s[1..];
      }
    }
  }

  lemma {:induction false} UniqueSorted(le: (Row, Row) -> bool, s: seq<Row>)
    requires UniqueIds(s)
    ensures UniqueIds(SortBy(le, s))
  {
    if s != [] {
      UniqueSorted(le, s[1..]);
      var r := SortBy(le, s[1..]);
      forall i | 0 <= i < |r| ensures r[i].chunkId != s[0].chunkId {
        InMultiset(r, s[1..], r[i]);
        assert r[i] in s[1..];
      }
      UniqueInsert(le, s[0], r);
    }
  }

  lemma OfDocumentSorted(table: seq<Row>, d: string)
    requires UniqueIds(table) && Named(table)
    ensures var rows := SortBy(ByIndex, OfDocument(table, d));
      && (forall i, j :: 0 <= i < j < |rows| ==> rows[i].chunkIndex < rows[j].chunkIndex)
      && (forall r :: r in rows <==> r in table && r.documentId == d)
  {
    hide ChunkId, SortBy;
    var own := OfDocument(table, d);
    var rows := SortBy(ByIndex, own);
    OfDocumentFacts(table, d);
    UniqueSorted(ByIndex, own);
    SortBySorted(ByIndex, own);
    forall r ensures r in rows <==> r in table && r.documentId == d {
      InMultiset(rows, own, r);
    }
    IndicesIncrease(rows, d);
  }

  /** After any calls a document reads back as its rows in the map, by strictly increasing index. */
  lemma ChunksReadBack(vaults: set<string>, calls: seq<Call>, v: string, d: string)
    requires NamesInjective(vaults) && v in vaults
    requires forall i :: 0 <= i < |calls| ==> InUse(vaults, calls[i])
    requires forall i :: 0 <= i < |calls| && calls[i].UpsertCall? ==> DistinctPairs(calls[i].chunks)
    ensures var rows := Run(calls).Chunks(v, d);
      && (forall i, j :: 0 <= i < j < |rows| ==> rows[i].chunkIndex < rows[j].chunkIndex)
      && (forall r: Row :: r in rows <==>
        r.documentId == d && (d, r.chunkIndex) in RowsRun(v, calls) && RowsRun(v, calls)[(d, r.chunkIndex)] == r)
  {
    hide TableName, InUse, DistinctPairs, RowsRun, Run, ChunkId, Contents, SortBy, OfDocument;
    var table := Run(calls).Table(v);
    RunRefines(vaults, calls, v);
    RunKeepsIdsUnique(calls, TableName(v).value);
    OfDocumentSorted(table, d);
    forall r: Row ensures r in table <==> (r.documentId, r.chunkIndex) in Contents(table) && Contents(table)[(r.documentId, r.chunkIndex)] == r {
      UniqueIsContents(table, r);
    }
  }
}
