/**
  The storage client's upsert: refused chunks are sent again, up to three times, and the positions
  a retry reports are mapped back to positions of the original request.
 */
module StorageClient {
  import opened Wrappers
  import opened Text
  import opened VectorStore
  import opened VectorStoreTheorems

  const MAX_RETRIES: nat := 3

  /** A reply that `raise_for_status` turns into an exception. */
  datatype HttpError = HttpError

  datatype ClientError = RequestFailed | IndexError

  /** What a server does with one request in one of its states. */
  type Server<!S> = (S, string, seq<Chunk>) -> (S, Result<UpsertResponse, HttpError>)

  /** `xs[i]`, where a negative index counts from the end. */
  function At<T>(xs: seq<T>, i: int): Option<T> {
    if 0 <= i < |xs| then Some(xs[i])
    else if -|xs| <= i < 0 then Some(xs[|xs| + i])
    else None
  }

  /** `[xs[i] for i in indices]` */
  function Pick<T>(xs: seq<T>, indices: seq<int>): Option<seq<T>> {
    if indices == [] then Some([])
    else
      var n := |indices| - 1;
      var before := Pick(xs, indices[..n]);
      if before.None? || At(xs, indices[n]).None? then None else Some(before.value + [At(xs, indices[n]).value])
  }

  // ---- the retry loop ----

  datatype Progress = Progress(pending: seq<int>, total: int, details: seq<string>, partial: bool)

  function Started(r: UpsertResponse): Progress {
    Progress(r.failedIndices, r.upsertedCount, r.errorDetails, r.status == Partial)
  }

  function Finished(p: Progress): UpsertResponse {
    UpsertResponse(if p.pending == [] then AllStored else Partial, p.total, p.pending, if p.pending == [] then [] else p.details)
  }

  /** The progress after a retry, or None when the reply names a position the retry did not have. */
  function Absorb(p: Progress, r: UpsertResponse): Option<Progress> {
    if r.status != Partial || r.failedIndices == [] then Some(Progress([], p.total + r.upsertedCount, [], p.partial))
    else
      var pending := Pick(p.pending, r.failedIndices);
      if pending.None? then None
      else Some(Progress(pending.value, p.total + r.upsertedCount, r.errorDetails, true))
  }

  /** The server's last state, the answer, and the number of requests from here on. */
  function Retry<S>(server: Server<S>, vault: string, chunks: seq<Chunk>, s: S, p: Progress, attempt: nat)
    : (S, Result<UpsertResponse, ClientError>, nat)
    requires attempt <= MAX_RETRIES
    decreases MAX_RETRIES - attempt
  {
    if attempt == MAX_RETRIES || !p.partial || p.pending == [] then (s, Ok(Finished(p)), 0)
    else if Pick(chunks, p.pending).None? then (s, Err(IndexError), 0)
    else
      var (s', reply) := server(s, vault, Pick(chunks, p.pending).value);
      if reply.Err? then (s', Err(RequestFailed), 1)
      else if Absorb(p, reply.value).None? then (s', Err(IndexError), 1)
      else
        var (last, result, calls) := Retry(server, vault, chunks, s', Absorb(p, reply.value).value, attempt + 1);
        (last, result, calls + 1)
  }

  function Upserted<S>(server: Server<S>, vault: string, chunks: seq<Chunk>, s: S): (S, Result<UpsertResponse, ClientError>, nat) {
    var (s', reply) := server(s, vault, chunks);
    if reply.Err? then (s', Err(RequestFailed), 1)
    else
      var (last, result, calls) := Retry(server, vault, chunks, s', Started(reply.value), 0);
      (last, result, calls + 1)
  }

  /** `upsert_with_retry`, with the server's state and the number of requests made visible. */
  method UpsertWithRetry<S>(server: Server<S>, vault: string, chunks: seq<Chunk>, start: S)
    returns (state: S, result: Result<UpsertResponse, ClientError>, calls: nat)
    ensures (state, result, calls) == Upserted(server, vault, chunks, start)
  {
    hide Absorb, Finished, Pick;
    var (s0, first) := server(start, vault, chunks);
    state, calls := s0, 1;
    if first.Err? {
      return state, Err(RequestFailed), calls;
    }
    var progress := Started(first.value);
    var attempt := 0;
    while attempt < MAX_RETRIES && progress.partial && progress.pending != []
      invariant attempt <= MAX_RETRIES
      invariant var (last, r, n) := Retry(server, vault, chunks, state, progress, attempt);
        Upserted(server, vault, chunks, start) == (last, r, calls + n)
    {
      var again := Pick(chunks, progress.pending);
      if again.None? {
        return state, Err(IndexError), calls;
      }
      var (s', reply) := server(state, vault, again.value);
      state, calls := s', calls + 1;
      if reply.Err? {
        return state, Err(RequestFailed), calls;
      }
      var next := Absorb(progress, reply.value);
      if next.None? {
        return state, Err(IndexError), calls;
      }
      progress, attempt := next.value, attempt + 1;
    }
    result := Ok(Finished(progress));
  }

  // ---- any server that accounts for every chunk ----

  ghost predicate Positions(indices: seq<int>, n: nat) {
    && (forall i :: 0 <= i < |indices| ==> 0 <= indices[i] < n)
    && (forall i, j :: 0 <= i < j < |indices| ==> indices[i] < indices[j])
  }

  ghost predicate Accounts(n: nat, r: UpsertResponse) {
    Positions(r.failedIndices, n) && r.upsertedCount + |r.failedIndices| == n && (r.status == Partial <==> r.failedIndices != [])
  }

  ghost predicate Accountable<S(!new)>(server: Server<S>) {
    forall s, vault, chunks :: server(s, vault, chunks).1.Ok? ==> Accounts(|chunks|, server(s, vault, chunks).1.value)
  }

  lemma {:induction false} PickPositions<T>(xs: seq<T>, indices: seq<int>)
    requires Positions(indices, |xs|)
    ensures Pick(xs, indices).Some? && |Pick(xs, indices).value| == |indices|
    ensures forall i :: 0 <= i < |indices| ==> Pick(xs, indices).value[i] == xs[indices[i]]
  {
    if indices != [] {
      PickPositions(xs, indices[..|indices| - 1]);
    }
  }

  /** A retry keeps the account: what is still pending is among the original positions, in order. */
  lemma AbsorbAccounts(p: Progress, r: UpsertResponse, n: nat)
    requires Positions(p.pending, n) && p.total + |p.pending| == n && Accounts(|p.pending|, r)
    ensures Absorb(p, r).Some?
    ensures var p' := Absorb(p, r).value; Positions(p'.pending, n) && p'.total + |p'.pending| == n
    ensures forall x :: x in Absorb(p, r).value.pending ==> x in p.pending
  {
    if r.status == Partial && r.failedIndices != [] {
      PickPositions(p.pending, r.failedIndices);
    }
  }

  lemma {:induction false} RetryAccounts<S(!new)>(server: Server<S>, vault: string, chunks: seq<Chunk>, s: S, p: Progress, attempt: nat)
    requires attempt <= MAX_RETRIES && Accountable(server)
    requires Positions(p.pending, |chunks|) && p.total + |p.pending| == |chunks|
    ensures var (_, result, calls) := Retry(server, vault, chunks, s, p, attempt);
      && (result.Ok? ==> Accounts(|chunks|, result.value) && forall x :: x in result.value.failedIndices ==> x in p.pending)
      && result != Err(IndexError)
      && calls <= MAX_RETRIES - attempt
    decreases MAX_RETRIES - attempt
  {
    hide Absorb, Pick, Accountable;
    if attempt != MAX_RETRIES && p.partial && p.pending != [] {
      PickPositions(chunks, p.pending);
      var again := Pick(chunks, p.pending).value;
      var (s', reply) := server(s, vault, again);
      if reply.Ok? {
        AccountableAt(server, s, vault, again);
        AbsorbAccounts(p, reply.value, |chunks|);
        RetryAccounts(server, vault, chunks, s', Absorb(p, reply.value).value, attempt + 1);
      }
    }
  }

  lemma AccountableAt<S(!new)>(server: Server<S>, s: S, vault: string, chunks: seq<Chunk>)
    requires Accountable(server) && server(s, vault, chunks).1.Ok?
    ensures Accounts(|chunks|, server(s, vault, chunks).1.value)
  {
  }

  /**
    Whatever an accountable server refuses or stores at each request, the final answer accounts for
    every chunk of the original request: strictly increasing positions, the rest counted, at most
    four requests, and no index out of range.
   */
  lemma AnswerAccounts<S(!new)>(server: Server<S>, vault: string, chunks: seq<Chunk>, s: S)
    requires Accountable(server)
    ensures var (_, result, calls) := Upserted(server, vault, chunks, s);
      && (result.Ok? ==> Accounts(|chunks|, result.value))
      && result != Err(IndexError)
      && 1 <= calls <= MAX_RETRIES + 1
  {
    var (s', reply) := server(s, vault, chunks);
    if reply.Ok? {
      AccountableAt(server, s, vault, chunks);
      RetryAccounts(server, vault, chunks, s', Started(reply.value), 0);
    }
  }

  // ---- the vector store as the server ----

  function StoreServer(db: Db, vault: string, chunks: seq<Chunk>): (Db, Result<UpsertResponse, HttpError>) {
    var (db', r) := db.Upsert(vault, chunks);
    (db', if r.Ok? then Ok(r.value) else Err(HttpError))
  }

  lemma {:induction false} FailedIsMismatched(chunks: seq<Chunk>, dim: nat)
    ensures Positions(Failed(chunks, dim), |chunks|)
    ensures forall i :: i in Failed(chunks, dim) <==> 0 <= i < |chunks| && |chunks[i].vector| != dim
  {
    if chunks != [] {
      var n := |chunks| - 1;
      var before := Failed(chunks[..n], dim);
      FailedIsMismatched(chunks[..n], dim);
      assert forall i :: 0 <= i < |before| ==> before[i] in before;
    }
  }

  lemma {:induction false} DetailsOfFailed(chunks: seq<Chunk>, dim: nat)
    ensures |Details(chunks, dim)| == |Failed(chunks, dim)|
    ensures forall i :: 0 <= i < |Failed(chunks, dim)| ==>
      0 <= Failed(chunks, dim)[i] < |chunks| &&
      Details(chunks, dim)[i] == Mismatch(Failed(chunks, dim)[i], dim, |chunks[Failed(chunks, dim)[i]].vector|)
  {
    if chunks != [] {
      hide Mismatch;
      DetailsOfFailed(chunks[..|chunks| - 1], dim);
    }
  }

  lemma StoreIsAccountable()
    ensures Accountable(StoreServer)
  {
    forall db: Db, vault: string, chunks: seq<Chunk> | StoreServer(db, vault, chunks).1.Ok?
      ensures Accounts(|chunks|, StoreServer(db, vault, chunks).1.value)
    {
      hide TableName, Accepted, Failed, Details;
      if chunks != [] {
        AcceptedFacts(chunks, db.Dimension(vault, chunks));
        FailedIsMismatched(chunks, db.Dimension(vault, chunks));
      }
    }
  }

  /** Numbers `0..m`. */
  function Upto(m: nat): seq<int> {
    seq(m, i => i)
  }

  lemma {:induction false} AllMismatched(chunks: seq<Chunk>, dim: nat)
    requires forall i :: 0 <= i < |chunks| ==> |chunks[i].vector| != dim
    ensures Failed(chunks, dim) == Upto(|chunks|) && Accepted(chunks, dim) == []
  {
    if chunks != [] {
      AllMismatched(chunks[..|chunks| - 1], dim);
    }
  }

  /** Once the vault's dimension is cached, refused chunks are refused again and nothing changes. */
  lemma StoreRefusesAgain(db: Db, vault: string, again: seq<Chunk>)
    requires TableName(vault).Ok? && vault in db.dims && again != []
    requires forall i :: 0 <= i < |again| ==> |again[i].vector| != db.dims[vault]
    ensures StoreServer(db, vault, again) ==
      (db, Ok(UpsertResponse(Partial, 0, Upto(|again|), Details(again, db.dims[vault]))))
  {
    hide TableName, Details;
    AllMismatched(again, db.dims[vault]);
    assert Upto(|again|) != [];
    assert db.dims[vault := db.dims[vault]] == db.dims;
  }

  lemma PickAll<T>(xs: seq<T>)
    ensures Pick(xs, Upto(|xs|)) == Some(xs)
  {
    hide Pick;
    var all := Upto(|xs|);
    PickPositions(xs, all);
    assert forall i :: 0 <= i < |all| ==> all[i] == i;
    assert Pick(xs, all).value == xs;
  }

  /** Every retry is spent, to the same effect. */
  lemma {:induction false} RetriesAreSpent(db: Db, vault: string, chunks: seq<Chunk>, p: Progress, attempt: nat)
    requires attempt <= MAX_RETRIES && TableName(vault).Ok? && vault in db.dims
    requires p.partial && p.pending == Failed(chunks, db.dims[vault]) != []
    ensures var again := Pick(chunks, p.pending);
      && again.Some?
      && Retry(StoreServer, vault, chunks, db, p, attempt) ==
         (db,
          Ok(UpsertResponse(Partial, p.total, p.pending, if attempt == MAX_RETRIES then p.details else Details(again.value, db.dims[vault]))),
          MAX_RETRIES - attempt)
    decreases MAX_RETRIES - attempt
  {
    hide TableName, Details, Failed, Pick;
    var dim := db.dims[vault];
    FailedIsMismatched(chunks, dim);
    PickPositions(chunks, p.pending);
    if attempt != MAX_RETRIES {
      var again := Pick(chunks, p.pending).value;
      assert forall i :: 0 <= i < |again| ==> p.pending[i] in Failed(chunks, dim);
      StoreRefusesAgain(db, vault, again);
      PickAll(p.pending);
      var p' := Progress(p.pending, p.total, Details(again, dim), true);
      assert Upto(|again|) != [];
      assert Absorb(p, StoreServer(db, vault, again).1.value) == Some(p');
      RetriesAreSpent(db, vault, chunks, p', attempt + 1);
    }
  }

  /**
    Upserting through the client: the failed positions are exactly those whose vector has not the
    vault's dimension, the others are stored, by one upsert in effect, in one request or in four.
   */
  lemma ClientMeetsStore(db: Db, vault: string, chunks: seq<Chunk>)
    requires TableName(vault).Ok? && chunks != []
    ensures var dim := db.Dimension(vault, chunks);
      var (db', result, calls) := Upserted(StoreServer, vault, chunks, db);
      && result.Ok? && Accounts(|chunks|, result.value)
      && (forall i :: i in result.value.failedIndices <==> 0 <= i < |chunks| && |chunks[i].vector| != dim)
      && db' == db.Upsert(vault, chunks).0
      && calls == (if result.value.failedIndices == [] then 1 else MAX_RETRIES + 1)
  {
    hide TableName, Details, Failed, Accepted, Pick, Absorb;
    var dim := db.Dimension(vault, chunks);
    FailedIsMismatched(chunks, dim);
    StoreIsAccountable();
    AnswerAccounts(StoreServer, vault, chunks, db);
    var (db', reply) := StoreServer(db, vault, chunks);
    if Failed(chunks, dim) != [] {
      RetriesAreSpent(db', vault, chunks, Started(reply.value), 0);
    }
  }

  lemma NumeralBeforeColon(u: string, v: string, s: string, t: string)
    requires forall k :: 0 <= k < |u| ==> IsDigit(u[k])
    requires forall k :: 0 <= k < |v| ==> IsDigit(v[k])
    requires u + [':'] + s == v + [':'] + t
    ensures u == v
  {
    var x, y := u + [':'] + s, v + [':'] + t;
    assert x[..|u|] == u && x[|u|] == ':';
    assert y[..|v|] == v && y[|v|] == ':';
    assert forall k :: 0 <= k < |u| ==> x[k] == u[k];
    assert forall k :: 0 <= k < |v| ==> y[k] == v[k];
  }

  lemma MismatchParts(i: nat, dim: nat, a: nat)
    ensures exists rest :: Mismatch(i, dim, a) == "Dimension mismatch at index " + (IntText(i) + [':'] + rest)
  {
    hide IntText;
    var rest := " expected " + IntText(dim) + ", got " + IntText(a);
    assert ": expected " == [':'] + " expected ";
    assert Mismatch(i, dim, a) == "Dimension mismatch at index " + (IntText(i) + [':'] + rest);
  }

  lemma MismatchTellsIndex(i: nat, j: nat, dim: nat, a: nat, b: nat)
    requires Mismatch(i, dim, a) == Mismatch(j, dim, b)
    ensures i == j
  {
    hide Mismatch;
    var lead := "Dimension mismatch at index ";
    MismatchParts(i, dim, a);
    MismatchParts(j, dim, b);
    var s :| Mismatch(i, dim, a) == lead + (IntText(i) + [':'] + s);
    var t :| Mismatch(j, dim, b) == lead + (IntText(j) + [':'] + t);
    assert Mismatch(i, dim, a)[|lead|..] == IntText(i) + [':'] + s;
    assert Mismatch(j, dim, b)[|lead|..] == IntText(j) + [':'] + t;
    NumeralBeforeColon(IntText(i), IntText(j), s, t);
    IntTextInjective(i, j);
  }

  /**
    The error details of the answer come from the last retry, so they name positions within it; they
    are the details of the original request exactly when the refused chunks are its first ones.
   */
  lemma DetailsNameOriginalPositionsWhen(db: Db, vault: string, chunks: seq<Chunk>)
    requires TableName(vault).Ok? && chunks != []
    ensures var dim := db.Dimension(vault, chunks);
      var (_, result, _) := Upserted(StoreServer, vault, chunks, db);
      && result.Ok?
      && (result.value.errorDetails == Details(chunks, dim) <==> Failed(chunks, dim) == Upto(|Failed(chunks, dim)|))
  {
    hide TableName, Details, Failed, Accepted, Pick, Absorb, Mismatch;
    var dim := db.Dimension(vault, chunks);
    var failed := Failed(chunks, dim);
    FailedIsMismatched(chunks, dim);
    var (db', reply) := StoreServer(db, vault, chunks);
    DetailsOfFailed(chunks, dim);
    if failed == [] {
      assert Upto(0) == [];
    } else {
      RetriesAreSpent(db', vault, chunks, Started(reply.value), 0);
      PickPositions(chunks, failed);
      var again := Pick(chunks, failed).value;
      forall i | 0 <= i < |again| ensures |again[i].vector| != dim {
        assert failed[i] in failed;
      }
      AllMismatched(again, dim);
      DetailsOfFailed(again, dim);
      forall i | 0 <= i < |failed| ensures Details(again, dim)[i] == Details(chunks, dim)[i] <==> failed[i] == i {
        assert Failed(again, dim)[i] == i;
        if Details(again, dim)[i] == Details(chunks, dim)[i] {
          MismatchTellsIndex(i, failed[i], dim, |again[i].vector|, |chunks[failed[i]].vector|);
        }
      }
    }
  }

  const FITTING := Chunk("d", 0, "", [0.0], "")
  const REFUSED := Chunk("d", 1, "", [0.0, 0.0], "")

  /** The second of two chunks is refused, and the details do not name it. */
  lemma DetailsMayNameOthers(vault: string)
    requires TableName(vault).Ok?
    ensures var result := Upserted(StoreServer, vault, [FITTING, REFUSED], Db(map[], map[])).1;
      && result.Ok?
      && Failed([FITTING, REFUSED], 1) == [1]
      && result.value.errorDetails != Details([FITTING, REFUSED], 1)
  {
    hide *;
    EmptyVaultLearns(vault);
    SecondFails();
    DetailsNameOriginalPositionsWhen(Db(map[], map[]), vault, [FITTING, REFUSED]);
  }

  lemma EmptyVaultLearns(vault: string)
    ensures Db(map[], map[]).Dimension(vault, [FITTING, REFUSED]) == 1
  {
    hide TableName;
    assert |FITTING.vector| == 1;
  }

  lemma SecondFails()
    ensures Failed([FITTING, REFUSED], 1) == [1] != Upto(1)
  {
    assert |FITTING.vector| == 1 && |REFUSED.vector| == 2;
    assert [FITTING, REFUSED][..1] == [FITTING] && [FITTING][..0] == [];
    assert Failed([FITTING], 1) == [];
    assert Upto(1)[0] == 0;
  }
}
