/** What the vector store holds after a call and what it answers, member by member. */
module VectorStoreOutcomes {
  import opened Wrappers
  import opened Text
  import opened Seqs
  import opened Sorting
  import opened VectorStore
  import opened VectorStoreTheorems
  import opened StorageClient

  // ---- rows ----

  /** The row is the chunk's, under the id of its document and index. */
  ghost predicate Stores(r: Row, c: Chunk) {
    && r.documentId == c.documentId && r.chunkIndex == c.chunkIndex && r.text == c.text && r.vector == c.vector
    && r.metadata == c.metadata && r.chunkId == c.documentId + "_" + IntText(c.chunkIndex)
  }

  /** Chunk `i` is the last of dimension `d` for this document and index. */
  ghost predicate LastFor(chunks: seq<Chunk>, d: nat, k: Key, i: nat) {
    && i < |chunks| && |chunks[i].vector| == d && (chunks[i].documentId, chunks[i].chunkIndex) == k
    && forall j :: i < j < |chunks| && |chunks[j].vector| == d ==> (chunks[j].documentId, chunks[j].chunkIndex) != k
  }

  lemma LastForSnoc(chunks: seq<Chunk>, d: nat, k: Key)
    requires chunks != []
    ensures var n := |chunks| - 1;
      var hit := |chunks[n].vector| == d && (chunks[n].documentId, chunks[n].chunkIndex) == k;
      && (hit <==> LastFor(chunks, d, k, n))
      && forall i: nat :: i < n ==> (LastFor(chunks, d, k, i) <==> !hit && LastFor(chunks[..n], d, k, i))
  {
    var n := |chunks| - 1;
    assert forall i :: 0 <= i < n ==> chunks[..n][i] == chunks[i];
  }

  /** What is written is, for each document and index, the last chunk of the dimension. */
  lemma {:induction false} WrittenWhen(chunks: seq<Chunk>, d: nat, k: Key)
    ensures k in Written(chunks, d) <==> exists i: nat :: LastFor(chunks, d, k, i)
    ensures forall i: nat :: LastFor(chunks, d, k, i) ==> k in Written(chunks, d) && Stores(Written(chunks, d)[k], chunks[i])
  {
    if chunks != [] {
      hide LastFor, IntText;
      var n := |chunks| - 1;
      WrittenWhen(chunks[..n], d, k);
      LastForSnoc(chunks, d, k);
      LastForBelow(chunks, d, k);
      LastForBelow(chunks[..n], d, k);
    } else {
      LastForBelow(chunks, d, k);
    }
  }

  lemma LastForBelow(chunks: seq<Chunk>, d: nat, k: Key)
    ensures forall i: nat :: LastFor(chunks, d, k, i) ==> i < |chunks|
  {
  }

  /** After an upsert the last chunk of the dimension for each document and index is in the table, whole... */
  lemma UpsertStores(db: Db, v: string, chunks: seq<Chunk>, k: Key, i: nat)
    requires TableName(v).Ok? && Sound(db, v) && chunks != [] && LastFor(chunks, db.Dimension(v, chunks), k, i)
    ensures var rows := Contents(db.Upsert(v, chunks).0.Table(v));
      k in rows && Stores(rows[k], chunks[i])
  {
    hide TableName, Contents, Written, Db.Upsert, Db.Dimension, LastFor, Stores, Sound;
    UpsertRows(db, v, chunks);
    WrittenWhen(chunks, db.Dimension(v, chunks), k);
  }

  /** ... and what no chunk of the dimension names is as before. */
  lemma UpsertKeeps(db: Db, v: string, chunks: seq<Chunk>, k: Key)
    requires TableName(v).Ok? && Sound(db, v) && chunks != [] && forall i: nat :: !LastFor(chunks, db.Dimension(v, chunks), k, i)
    ensures var before, after := Contents(db.Table(v)), Contents(db.Upsert(v, chunks).0.Table(v));
      (k in after <==> k in before) && (k in before ==> after[k] == before[k])
  {
    hide TableName, Contents, Written, Db.Upsert, Db.Dimension, LastFor, Sound;
    UpsertRows(db, v, chunks);
    WrittenWhen(chunks, db.Dimension(v, chunks), k);
  }

  lemma RunSnoc(calls: seq<Call>, call: Call)
    ensures Run(calls + [call]) == Next(Run(calls), call)
  {
    assert (calls + [call])[..|calls|] == calls;
  }

  /** After any calls and an upsert, every chunk of the vault's dimension reads back as it was sent. */
  lemma UpsertReadsBack(vaults: set<string>, calls: seq<Call>, v: string, chunks: seq<Chunk>, i: nat)
    requires NamesInjective(vaults) && v in vaults
    requires forall j :: 0 <= j < |calls| ==> InUse(vaults, calls[j])
    requires forall j :: 0 <= j < |calls| && calls[j].UpsertCall? ==> DistinctPairs(calls[j].chunks)
    requires i < |chunks| && DistinctPairs(chunks) && |chunks[i].vector| == Run(calls).Dimension(v, chunks)
    ensures exists r :: r in Run(calls + [UpsertCall(v, chunks)]).Chunks(v, chunks[i].documentId) && Stores(r, chunks[i])
  {
    hide TableName, InUse, NamesInjective, RowsRun, Run, Next, ChunkId, Contents, SortBy, OfDocument, Db.Chunks, Db.Upsert, Db.Dimension, Stores, Sound;
    var call, db := UpsertCall(v, chunks), Run(calls);
    var all, c := calls + [call], chunks[i];
    var k := (c.documentId, c.chunkIndex);
    VaultNamed(vaults, v);
    CallInUse(vaults, v, call);
    RunRefines(vaults, calls, v);
    RunRefines(vaults, all, v);
    RunSnoc(calls, call);
    NextIsUpsert(db, v, chunks);
    UpsertStores(db, v, chunks, k, i);
    ChunksReadBack(vaults, all, v, c.documentId);
    ContentsKeyed(Run(all).Table(v), k);
    var r := Contents(Run(all).Table(v))[k];
    StoresKey(r, c);
    assert r in Run(all).Chunks(v, c.documentId);
  }

  lemma VaultNamed(vaults: set<string>, v: string)
    requires NamesInjective(vaults) && v in vaults
    ensures TableName(v).Ok?
  {
    hide TableName;
  }

  lemma CallInUse(vaults: set<string>, v: string, call: Call)
    requires v in vaults && call.UpsertCall? && call.vault == v
    ensures InUse(vaults, call)
  {
  }

  lemma NextIsUpsert(db: Db, v: string, chunks: seq<Chunk>)
    ensures Next(db, UpsertCall(v, chunks)) == db.Upsert(v, chunks).0
  {
    hide Db.Upsert;
  }

  lemma StoresKey(r: Row, c: Chunk)
    requires Stores(r, c)
    ensures r.documentId == c.documentId && r.chunkIndex == c.chunkIndex
  {
    hide IntText;
  }

  lemma ContentsKeyed(table: seq<Row>, k: Key)
    requires k in Contents(table)
    ensures (Contents(table)[k].documentId, Contents(table)[k].chunkIndex) == k
  {
    hide Contents;
    ContentsKeyedByRows(table, k);
  }

  lemma {:induction false} ContentsKeyedByRows(table: seq<Row>, k: Key)
    requires k in Contents(table)
    ensures (Contents(table)[k].documentId, Contents(table)[k].chunkIndex) == k
  {
    var n := |table| - 1;
    if (table[n].documentId, table[n].chunkIndex) != k {
      ContentsKeyedByRows(table[..n], k);
    }
  }

  // ---- answers ----

  lemma DetailIs(chunks: seq<Chunk>, dim: nat, i: nat)
    requires i < |chunks|
    ensures Mismatch(i, dim, |chunks[i].vector|) == DetailOf(chunks, dim, i)
  {
    hide IntText;
  }

  /** The answer to an upsert: the positions of the wrong dimension in order, each with its text, and the number of the others. */
  lemma UpsertAnswers(db: Db, v: string, chunks: seq<Chunk>)
    ensures db.Upsert(v, chunks).1.Err? <==> chunks != [] && TableName(v).Err?
    ensures db.Upsert(v, chunks).1.Ok? ==>
      var dim := if chunks == [] then 0 else db.Dimension(v, chunks);
      var answer := db.Upsert(v, chunks).1.value;
      && (forall i :: i in answer.failedIndices <==> 0 <= i < |chunks| && |chunks[i].vector| != dim)
      && (forall k, l :: 0 <= k < l < |answer.failedIndices| ==> answer.failedIndices[k] < answer.failedIndices[l])
      && answer.upsertedCount == |chunks| - |answer.failedIndices|
      && (answer.status == AllStored <==> answer.failedIndices == [])
      && |answer.errorDetails| == |answer.failedIndices|
      && forall k :: 0 <= k < |answer.failedIndices| ==> answer.errorDetails[k] == DetailOf(chunks, dim, answer.failedIndices[k])
  {
    hide TableName, Accepted, Failed, Details, Db.Dimension, Mismatch, DetailOf;
    if chunks != [] && TableName(v).Ok? {
      var dim := db.Dimension(v, chunks);
      FailedIsMismatched(chunks, dim);
      DetailsOfFailed(chunks, dim);
      AcceptedFacts(chunks, dim);
      forall k | 0 <= k < |Failed(chunks, dim)| ensures Details(chunks, dim)[k] == DetailOf(chunks, dim, Failed(chunks, dim)[k]) {
        DetailIs(chunks, dim, Failed(chunks, dim)[k]);
      }
    }
  }

  function DetailOf(chunks: seq<Chunk>, dim: nat, i: int): string {
    "Dimension mismatch at index " + IntText(i) + ": expected " + IntText(dim) + ", got " +
    IntText(if 0 <= i < |chunks| then |chunks[i].vector| else 0)
  }

  lemma {:induction false} DocumentSplit(table: seq<Row>, d: string)
    ensures WithoutDocument(table, d) == Filter((r: Row) => r.documentId != d, table)
    ensures OfDocument(table, d) == Filter((r: Row) => r.documentId == d, table)
    ensures |table| == |WithoutDocument(table, d)| + |OfDocument(table, d)|
  {
    if table != [] {
      DocumentSplit(table[..|table| - 1], d);
    }
  }

  /** Deleting a document answers how many rows it had, and leaves the rows of the others in order. */
  lemma DeleteDocumentAnswers(db: Db, v: string, d: string)
    ensures db.DeleteDocument(v, d).1.Err? <==> TableName(v).Err?
    ensures TableName(v).Ok? ==>
      && db.DeleteDocument(v, d).1 == Ok(|Filter((r: Row) => r.documentId == d, db.Table(v))|)
      && db.DeleteDocument(v, d).0.Table(v) == Filter((r: Row) => r.documentId != d, db.Table(v))
      && db.DeleteDocument(v, d).0.dims == db.dims
  {
    hide TableName, WithoutDocument, OfDocument;
    DocumentSplit(db.Table(v), d);
    NoRows(d);
  }

  lemma NoRows(d: string)
    ensures WithoutDocument([], d) == [] && OfDocument([], d) == []
  {
  }

  /** Deleting a vault answers how many rows its table had; table and cached dimension are gone. */
  lemma DeleteVaultAnswers(db: Db, v: string)
    ensures db.DeleteVault(v).1.Err? <==> TableName(v).Err?
    ensures TableName(v).Ok? ==>
      && db.DeleteVault(v).1 == Ok(|db.Table(v)|)
      && db.DeleteVault(v).0.Table(v) == [] && TableName(v).value !in db.DeleteVault(v).0.tables
      && (TableName(v).value in db.tables ==> v !in db.DeleteVault(v).0.dims)
      && (forall u :: u != v ==> (u in db.DeleteVault(v).0.dims <==> u in db.dims) && (u in db.dims ==> db.DeleteVault(v).0.dims[u] == db.dims[u]))
  {
    hide TableName;
  }

  /** A search of this dimension reaches the index exactly when the table exists and no other dimension is known. */
  lemma AnswersWhen(db: Db, v: string, dim: nat)
    ensures db.Answers(v, dim) <==>
      && TableName(v).Ok? && TableName(v).value in db.tables
      && (v in db.dims ==> db.dims[v] == dim)
      && (v !in db.dims && db.Table(v) != [] && db.Table(v)[0].vector != [] ==> |db.Table(v)[0].vector| == dim)
  {
    hide TableName;
  }

  /** An upsert is held to the cached dimension, else that of the first row, else that of its first chunk. */
  lemma DimensionWhen(db: Db, v: string, chunks: seq<Chunk>)
    requires chunks != [] && TableName(v).Ok?
    ensures db.Dimension(v, chunks) ==
      if v in db.dims then db.dims[v]
      else if db.Table(v) != [] && db.Table(v)[0].vector != [] then |db.Table(v)[0].vector|
      else |chunks[0].vector|
    ensures db.Upsert(v, chunks).0.dims == db.dims[v := db.Dimension(v, chunks)]
  {
    hide TableName, Accepted, Replaced;
  }

  // ---- table names ----

  ghost predicate LetterOrDigit(c: char) {
    'a' <= c <= 'z' || 'A' <= c <= 'Z' || '0' <= c <= '9'
  }

  /** Every character that is no letter or digit replaced by an underscore. */
  function Plain(v: string): (s: string)
    ensures |s| == |v|
  {
    seq(|v|, i requires 0 <= i < |v| => if 'a' <= v[i] <= 'z' || 'A' <= v[i] <= 'Z' || '0' <= v[i] <= '9' then v[i] else '_')
  }

  lemma {:induction false} SanitizedIs(v: string)
    ensures Sanitized(v) == Plain(v)
  {
    if v != [] {
      SanitizedIs(v[1..]);
    }
  }

  lemma {:induction false} StrippedIs(s: string)
    ensures exists i, j :: 0 <= i <= j <= |s| && IsCore(s, i, j) && StripUnderscores(s) == s[i..j]
    decreases |s|
  {
    if s == [] {
      assert IsCore(s, 0, 0);
    } else if s[0] == '_' {
      StrippedIs(s[1..]);
      var i, j :| 0 <= i <= j <= |s[1..]| && IsCore(s[1..], i, j) && StripUnderscores(s[1..]) == s[1..][i..j];
      assert s[1..][i..j] == s[i + 1..j + 1];
      assert IsCore(s, i + 1, j + 1);
    } else if s[|s| - 1] == '_' {
      StrippedIs(s[..|s| - 1]);
      var i, j :| 0 <= i <= j <= |s| - 1 && IsCore(s[..|s| - 1], i, j) && StripUnderscores(s[..|s| - 1]) == s[..|s| - 1][i..j];
      assert s[..|s| - 1][i..j] == s[i..j];
      assert IsCore(s, i, j);
    } else {
      assert s[0..|s|] == s;
      assert IsCore(s, 0, |s|);
    }
  }

  /** Outside `i..j` there are underscores only, and none at either end of it. */
  ghost predicate IsCore(s: string, i: int, j: int)
    requires 0 <= i <= j <= |s|
  {
    && (forall k :: 0 <= k < i ==> s[k] == '_') && (forall k :: j <= k < |s| ==> s[k] == '_')
    && (i < j ==> s[i] != '_' && s[j - 1] != '_')
  }

  /** A vault has a table exactly when its id holds a letter or a digit, named after what lies between the first and the last. */
  lemma TableNameWhen(v: string)
    ensures TableName(v).Ok? <==> exists i :: 0 <= i < |v| && LetterOrDigit(v[i])
    ensures TableName(v).Ok? ==>
      exists i, j :: 0 <= i < j <= |v| && LetterOrDigit(v[i]) && LetterOrDigit(v[j - 1])
        && (forall k :: 0 <= k < |v| && LetterOrDigit(v[k]) ==> i <= k < j)
        && TableName(v).value == "vault_" + Plain(v)[i..j]
  {
    SanitizedIs(v);
    StrippedIs(Plain(v));
    hide Sanitized, StripUnderscores;
    var i, j :| 0 <= i <= j <= |v| && IsCore(Plain(v), i, j) && StripUnderscores(Plain(v)) == Plain(v)[i..j];
    if i < j {
      assert Plain(v)[i] != '_' && Plain(v)[j - 1] != '_';
      assert LetterOrDigit(v[i]) && LetterOrDigit(v[j - 1]);
      forall k | 0 <= k < |v| && LetterOrDigit(v[k]) ensures i <= k < j {
        assert Plain(v)[k] == v[k] != '_';
      }
    } else {
      forall k | 0 <= k < |v| ensures !LetterOrDigit(v[k]) {
        assert Plain(v)[k] == '_';
      }
    }
  }
}
