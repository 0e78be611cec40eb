/**
  The LanceDB store: one table of chunk rows per vault, rows replaced by chunk id, and a cache of
  each vault's vector dimension.  LanceDB itself is a map from table names to rows in order.
 */
module VectorStore {
  import opened Wrappers
  import opened Text
  import opened Seqs
  import opened Sorting

  datatype Chunk = Chunk(documentId: string, chunkIndex: int, text: string, vector: seq<real>, metadata: string)

  datatype Row = Row(chunkId: string, documentId: string, chunkIndex: int, text: string, vector: seq<real>, metadata: string)

  datatype Status = AllStored | Partial

  datatype UpsertResponse = UpsertResponse(status: Status, upsertedCount: int, failedIndices: seq<int>, errorDetails: seq<string>)

  /** Raised for a vault id without any letter or digit. */
  datatype ValueError = ValueError

  // ---- names ----

  predicate IsWordChar(c: char) {
    'a' <= c <= 'z' || 'A' <= c <= 'Z' || '0' <= c <= '9' || c == '_'
  }

  function Sanitized(vault: string): string {
    if vault == [] then [] else [if IsWordChar(vault[0]) then vault[0] else '_'] + Sanitized(vault[1..])
  }

  /** `s.strip("_")` */
  function StripUnderscores(s: string): string {
    if s == [] then []
    else if s[0] == '_' then StripUnderscores(s[1..])
    else if s[|s| - 1] == '_' then StripUnderscores(s[..|s| - 1])
    else s
  }

  function TableName(vault: string): Result<string, ValueError> {
    var name := StripUnderscores(Sanitized(vault));
    if name == [] then Err(ValueError) else Ok("vault_" + name)
  }

  /** `f"{document_id}_{chunk_index}"` */
  function ChunkId(documentId: string, chunkIndex: int): string {
    documentId + "_" + IntText(chunkIndex)
  }

  lemma IntTextHasNoUnderscore(i: int, k: nat)
    requires k < |IntText(i)|
    ensures IntText(i)[k] != '_'
  {
    var d := Decimal(if i < 0 then -i else i);
    assert forall j :: 0 <= j < |d| ==> IsDigit(d[j]);
  }

  /** Chunk ids tell documents and indices apart, even when document ids contain underscores. */
  lemma ChunkIdInjective(d: string, i: int, d': string, i': int)
    requires ChunkId(d, i) == ChunkId(d', i')
    ensures d == d' && i == i'
  {
    var s, a, b := ChunkId(d, i), IntText(i), IntText(i');
    if |a| < |b| {
      assert s[|s| - |a| - 1] == '_';
      assert s[|s| - |a| - 1] == b[|b| - |a| - 1];
      IntTextHasNoUnderscore(i', |b| - |a| - 1);
    } else if |b| < |a| {
      assert s[|s| - |b| - 1] == '_';
      assert s[|s| - |b| - 1] == a[|a| - |b| - 1];
      IntTextHasNoUnderscore(i, |a| - |b| - 1);
    }
    assert a == s[|s| - |a|..] == b;
    IntTextInjective(i, i');
    assert d == s[..|s| - |a| - 1] == d';
  }

  // ---- upsert ----

  function RowOf(c: Chunk): Row {
    Row(ChunkId(c.documentId, c.chunkIndex), c.documentId, c.chunkIndex, c.text, c.vector, c.metadata)
  }

  /** The rows of the chunks whose vector has the expected dimension. */
  function Accepted(chunks: seq<Chunk>, dim: nat): seq<Row> {
    if chunks == [] then []
    else
      var last := chunks[|chunks| - 1];
      Accepted(chunks[..|chunks| - 1], dim) + if |last.vector| == dim then [RowOf(last)] else []
  }

  /** The positions of the others. */
  function Failed(chunks: seq<Chunk>, dim: nat): seq<int> {
    if chunks == [] then []
    else
      var n := |chunks| - 1;
      Failed(chunks[..n], dim) + if |chunks[n].vector| == dim then [] else [n]
  }

  function Mismatch(index: int, dim: nat, got: nat): string {
    "Dimension mismatch at index " + IntText(index) + ": expected " + IntText(dim) + ", got " + IntText(got)
  }

  function Details(chunks: seq<Chunk>, dim: nat): seq<string> {
    if chunks == [] then []
    else
      var n := |chunks| - 1;
      Details(chunks[..n], dim) + if |chunks[n].vector| == dim then [] else [Mismatch(n, dim, |chunks[n].vector|)]
  }

  function ResponseFor(chunks: seq<Chunk>, dim: nat): UpsertResponse {
    UpsertResponse(if Failed(chunks, dim) == [] then AllStored else Partial,
                   |Accepted(chunks, dim)|, Failed(chunks, dim), Details(chunks, dim))
  }

  /** The rows whose id is not among those of `rows`. */
  function Kept(table: seq<Row>, rows: seq<Row>): seq<Row> {
    if table == [] then []
    else
      var last := table[|table| - 1];
      Kept(table[..|table| - 1], rows) + if HasId(rows, last.chunkId) then [] else [last]
  }

  predicate HasId(rows: seq<Row>, id: string) {
    exists i :: 0 <= i < |rows| && rows[i].chunkId == id
  }

  /** `delete ... WHERE chunk_id IN (...)`, then `add`. */
  function Replaced(table: seq<Row>, rows: seq<Row>): seq<Row> {
    Kept(table, rows) + rows
  }

  /** The rows of other documents. */
  function WithoutDocument(table: seq<Row>, documentId: string): seq<Row> {
    if table == [] then []
    else
      var last := table[|table| - 1];
      WithoutDocument(table[..|table| - 1], documentId) + if last.documentId == documentId then [] else [last]
  }

  function OfDocument(table: seq<Row>, documentId: string): seq<Row> {
    if table == [] then []
    else
      var last := table[|table| - 1];
      OfDocument(table[..|table| - 1], documentId) + if last.documentId == documentId then [last] else []
  }

  predicate ByIndex(a: Row, b: Row) {
    a.chunkIndex <= b.chunkIndex
  }

  /** The tables, and the dimensions cached by the running process. */
  datatype Db = Db(tables: map<string, seq<Row>>, dims: map<string, nat>) {
    function Table(vault: string): seq<Row> {
      var name := TableName(vault);
      if name.Ok? && name.value in tables then tables[name.value] else []
    }

    /** `_get_expected_dimensions`, without the caching. */
    function Expected(vault: string): Result<Option<nat>, ValueError> {
      if vault in dims then Ok(Some(dims[vault]))
      else if TableName(vault).Err? then Err(ValueError)
      else if Table(vault) == [] || |Table(vault)[0].vector| == 0 then Ok(None)
      else Ok(Some(|Table(vault)[0].vector|))
    }

    /** The dimension an upsert of these chunks is held to. */
    function Dimension(vault: string, chunks: seq<Chunk>): nat
      requires chunks != []
    {
      var expected := Expected(vault);
      if expected.Ok? && expected.value.Some? then expected.value.value else |chunks[0].vector|
    }

    /** `upsert` */
    function Upsert(vault: string, chunks: seq<Chunk>): (Db, Result<UpsertResponse, ValueError>) {
      if chunks == [] then (this, Ok(UpsertResponse(AllStored, 0, [], [])))
      else if TableName(vault).Err? then (this, Err(ValueError))
      else
        var dim, name := Dimension(vault, chunks), TableName(vault).value;
        var rows := Accepted(chunks, dim);
        (Db(if rows == [] then tables else tables[name := Replaced(Table(vault), rows)], dims[vault := dim]),
         Ok(ResponseFor(chunks, dim)))
    }

    /** `delete_document` */
    function DeleteDocument(vault: string, documentId: string): (Db, Result<int, ValueError>) {
      if TableName(vault).Err? then (this, Err(ValueError))
      else
        var name := TableName(vault).value;
        if name !in tables then (this, Ok(0))
        else
          var kept := WithoutDocument(tables[name], documentId);
          (Db(tables[name := kept], dims), Ok(|tables[name]| - |kept|))
    }

    /** `delete_vault` */
    function DeleteVault(vault: string): (Db, Result<int, ValueError>) {
      if TableName(vault).Err? then (this, Err(ValueError))
      else
        var name := TableName(vault).value;
        if name !in tables then (this, Ok(0))
        else (Db(tables - {name}, dims - {vault}), Ok(|tables[name]|))
    }

    /** What `search` does to the store: it may learn the dimension. */
    function Searched(vault: string): Db {
      if TableName(vault).Err? || TableName(vault).value !in tables then this
      else
        var expected := Expected(vault);
        if expected.Ok? && expected.value.Some? then Db(tables, dims[vault := expected.value.value]) else this
    }

    /** Does a query of this dimension reach the index? */
    predicate Answers(vault: string, dim: nat) {
      && TableName(vault).Ok? && TableName(vault).value in tables
      && Expected(vault).Ok? && Expected(vault).value.GetOr(dim) == dim
    }

    /** A new process: the tables stay, the cache is gone. */
    function Restart(): Db {
      Db(tables, map[])
    }

    /** `get_document_chunks`: the document's rows by index. */
    function Chunks(vault: string, documentId: string): seq<Row> {
      SortBy(ByIndex, OfDocument(Table(vault), documentId))
    }
  }

  // ---- the store object ----

  class LanceDBStore {
    var tables: map<string, seq<Row>>
    var vaultDimensions: map<string, nat>

    constructor (tables: map<string, seq<Row>>)
      ensures View() == Db(tables, map[])
    {
      this.tables, vaultDimensions := tables, map[];
    }

    ghost function View(): Db
      reads this
    {
      Db(tables, vaultDimensions)
    }

    /** Only vaults with a table name are cached. */
    ghost predicate Valid()
      reads this
    {
      CacheNamed(View())
    }

    method GetExpectedDimensions(vault: string) returns (dims: Result<Option<nat>, ValueError>)
      requires Valid()
      modifies this
      ensures dims == old(View()).Expected(vault)
      ensures tables == old(tables)
      ensures vaultDimensions == if dims.Ok? && dims.value.Some? then old(vaultDimensions)[vault := dims.value.value] else old(vaultDimensions)
    {
      if vault in vaultDimensions {
        assert vaultDimensions == vaultDimensions[vault := vaultDimensions[vault]];
        return Ok(Some(vaultDimensions[vault]));
      }
      var name := TableName(vault);
      if name.Err? {
        return Err(ValueError);
      }
      if name.value !in tables {
        return Ok(None);
      }
      var table := tables[name.value];
      if table == [] {
        return Ok(None);
      }
      var dimensions := |table[0].vector|;
      if dimensions > 0 {
        vaultDimensions := vaultDimensions[vault := dimensions];
        return Ok(Some(dimensions));
      }
      dims := Ok(None);
    }

    method Upsert(vault: string, chunks: seq<Chunk>) returns (response: Result<UpsertResponse, ValueError>)
      requires Valid()
      modifies this
      ensures Valid()
      ensures (View(), response) == old(View()).Upsert(vault, chunks)
    {
      hide Accepted, Failed, Details, Replaced, StripUnderscores;
      if chunks == [] {
        return Ok(UpsertResponse(AllStored, 0, [], []));
      }
      var expected := GetExpectedDimensions(vault);
      if expected.Err? {
        return Err(ValueError);
      }
      var dim;
      if expected.value.Some? {
        dim := expected.value.value;
      } else {
        dim := |chunks[0].vector|;
        vaultDimensions := vaultDimensions[vault := dim];
      }
      var rows, failedIndices, errorDetails := Classify(chunks, dim);
      if rows != [] {
        StoreRows(TableName(vault).value, rows);
      }
      response := Ok(UpsertResponse(if failedIndices == [] then AllStored else Partial, |rows|, failedIndices, errorDetails));
    }

    /** The loop over the chunks. */
    static method Classify(chunks: seq<Chunk>, dim: nat) returns (rows: seq<Row>, failedIndices: seq<int>, errorDetails: seq<string>)
      ensures rows == Accepted(chunks, dim)
      ensures failedIndices == Failed(chunks, dim)
      ensures errorDetails == Details(chunks, dim)
    {
      hide Mismatch, ChunkId;
      rows, failedIndices, errorDetails := [], [], [];
      for index := 0 to |chunks|
        invariant rows == Accepted(chunks[..index], dim)
        invariant failedIndices == Failed(chunks[..index], dim)
        invariant errorDetails == Details(chunks[..index], dim)
      {
        PrefixStep(chunks, index);
        var chunk := chunks[index];
        if |chunk.vector| != dim {
          failedIndices := failedIndices + [index];
          errorDetails := errorDetails + [Mismatch(index, dim, |chunk.vector|)];
          continue;
        }
        rows := rows + [RowOf(chunk)];
      }
      assert chunks[..|chunks|] == chunks;
    }

    /** `_get_or_create_table`, then `_replace_rows`. */
    method StoreRows(name: string, rows: seq<Row>)
      modifies this
      ensures vaultDimensions == old(vaultDimensions)
      ensures tables == old(tables)[name := Replaced(if name in old(tables) then old(tables)[name] else [], rows)]
    {
      hide Kept;
      if name !in tables {
        tables := tables[name := rows];
        CreatedThenReplaced(rows);
      }
      tables := tables[name := Replaced(tables[name], rows)];
    }

    /** `search` up to the query: whether it is made, or no hits are returned. */
    method CheckSearch(vault: string, dim: nat) returns (made: Result<bool, ValueError>)
      requires Valid()
      modifies this
      ensures Valid()
      ensures View() == old(View()).Searched(vault)
      ensures made == if TableName(vault).Err? then Err(ValueError) else Ok(old(View()).Answers(vault, dim))
    {
      hide StripUnderscores;
      var name := TableName(vault);
      if name.Err? {
        return Err(ValueError);
      }
      if name.value !in tables {
        return Ok(false);
      }
      var expected := GetExpectedDimensions(vault);
      made := Ok(expected.value.None? || expected.value.value == dim);
    }

    method DeleteDocument(vault: string, documentId: string) returns (count: Result<int, ValueError>)
      requires Valid()
      modifies this
      ensures Valid()
      ensures (View(), count) == old(View()).DeleteDocument(vault, documentId)
    {
      var name := TableName(vault);
      if name.Err? {
        return Err(ValueError);
      }
      if name.value !in tables {
        return Ok(0);
      }
      var beforeCount := |tables[name.value]|;
      tables := tables[name.value := WithoutDocument(tables[name.value], documentId)];
      var afterCount := |tables[name.value]|;
      count := Ok(if beforeCount - afterCount > 0 then beforeCount - afterCount else 0);
      WithoutDocumentShorter(old(tables)[name.value], documentId);
    }

    method DeleteVault(vault: string) returns (count: Result<int, ValueError>)
      requires Valid()
      modifies this
      ensures Valid()
      ensures (View(), count) == old(View()).DeleteVault(vault)
    {
      var name := TableName(vault);
      if name.Err? {
        return Err(ValueError);
      }
      if name.value !in tables {
        return Ok(0);
      }
      count := Ok(|tables[name.value]|);
      tables := tables - {name.value};
      vaultDimensions := vaultDimensions - {vault};
    }
  }

  ghost predicate CacheNamed(db: Db) {
    forall v :: v in db.dims ==> TableName(v).Ok?
  }

  /** A table created with its rows and then replaced by them holds them once. */
  lemma {:induction false} CreatedThenReplaced(rows: seq<Row>)
    ensures Replaced(rows, rows) == Replaced([], rows)
  {
    KeptNone(rows, rows);
  }

  lemma {:induction false} KeptNone(table: seq<Row>, rows: seq<Row>)
    requires forall i :: 0 <= i < |table| ==> HasId(rows, table[i].chunkId)
    ensures Kept(table, rows) == []
  {
    if table != [] {
      KeptNone(table[..|table| - 1], rows);
    }
  }

  lemma {:induction false} WithoutDocumentShorter(table: seq<Row>, documentId: string)
    ensures |WithoutDocument(table, documentId)| <= |table|
  {
    if table != [] {
      WithoutDocumentShorter(table[..|table| - 1], documentId);
    }
  }
}
