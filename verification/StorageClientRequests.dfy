/** Which chunks the client sends in each request, and what becomes of the replies, for any server that accounts for its chunks. */
module StorageClientRequests {
  import opened Wrappers
  import opened VectorStore
  import opened StorageClient

  /** A request's chunks and its reply. */
  type Exchange = (seq<Chunk>, Result<UpsertResponse, HttpError>)

  /** The server, with a log of what it is asked and answers. */
  function Logged<S(!new)>(server: Server<S>): Server<(S, seq<Exchange>)> {
    (state: (S, seq<Exchange>), vault: string, chunks: seq<Chunk>) =>
      var (s, reply) := server(state.0, vault, chunks);
      ((s, state.1 + [(chunks, reply)]), reply)
  }

  /** The second request sends, in order, exactly the chunks that the first refused. */
  ghost predicate Follows(a: Exchange, b: Exchange) {
    && a.1.Ok? && a.1.value.failedIndices != [] && |b.0| == |a.1.value.failedIndices|
    && forall i :: 0 <= i < |b.0| ==> 0 <= a.1.value.failedIndices[i] < |a.0| && b.0[i] == a.0[a.1.value.failedIndices[i]]
  }

  ghost predicate Chain(log: seq<Exchange>) {
    forall k :: 0 < k < |log| ==> Follows(log[k - 1], log[k])
  }

  /** The chunks that the replies say are stored. */
  function Stored(log: seq<Exchange>): int {
    if log == [] then 0
    else
      var reply := log[|log| - 1].1;
      Stored(log[..|log| - 1]) + if reply.Ok? then reply.value.upsertedCount else 0
  }

  function Last(log: seq<Exchange>): Exchange
    requires log != []
  {
    log[|log| - 1]
  }

  /** The progress is that of the log: what is pending is what the last reply refused, under its original positions. */
  ghost predicate Matches(chunks: seq<Chunk>, log: seq<Exchange>, p: Progress) {
    && log != [] && Chain(log) && Last(log).1.Ok?
    && var reply := Last(log).1.value;
    && Accounts(|Last(log).0|, reply)
    && Positions(p.pending, |chunks|) && |p.pending| == |reply.failedIndices|
    && (forall i :: 0 <= i < |p.pending| ==> chunks[p.pending[i]] == Last(log).0[reply.failedIndices[i]])
    && p.total == Stored(log)
    && (p.pending != [] ==> p.partial && p.details == reply.errorDetails)
  }

  /** What the client has done and answers when it is done. */
  ghost predicate Answers(chunks: seq<Chunk>, log: seq<Exchange>, answer: UpsertResponse, calls: nat) {
    && log != [] && Chain(log) && |log| == calls && Last(log).1.Ok?
    && var reply := Last(log).1.value;
    && Accounts(|Last(log).0|, reply)
    && answer.upsertedCount == Stored(log)
    && |answer.failedIndices| == |reply.failedIndices|
    && (forall i :: 0 <= i < |answer.failedIndices| ==>
          0 <= answer.failedIndices[i] < |chunks| && chunks[answer.failedIndices[i]] == Last(log).0[reply.failedIndices[i]])
    && (answer.status == AllStored <==> answer.failedIndices == [])
    && answer.errorDetails == (if answer.failedIndices == [] then [] else reply.errorDetails)
  }

  lemma LoggedAccounts<S(!new)>(server: Server<S>)
    requires Accountable(server)
    ensures Accountable(Logged(server))
  {
    forall state: (S, seq<Exchange>), vault: string, chunks: seq<Chunk> | Logged(server)(state, vault, chunks).1.Ok?
      ensures Accounts(|chunks|, Logged(server)(state, vault, chunks).1.value) {
      AccountableAt(server, state.0, vault, chunks);
    }
  }

  lemma StoredSnoc(log: seq<Exchange>, e: Exchange)
    ensures Stored(log + [e]) == Stored(log) + if e.1.Ok? then e.1.value.upsertedCount else 0
  {
    assert (log + [e])[..|log|] == log;
  }

  lemma ChainSnoc(log: seq<Exchange>, e: Exchange)
    requires Chain(log) && (log != [] ==> Follows(Last(log), e))
    ensures Chain(log + [e])
  {
    hide Follows;
    var all := log + [e];
    forall k | 0 < k < |all| ensures Follows(all[k - 1], all[k]) {
      assert k < |log| ==> Follows(log[k - 1], log[k]);
    }
  }

  /** One retry: the refused chunks are sent, and the progress is that of the longer log. */
  lemma RetryStep(chunks: seq<Chunk>, log: seq<Exchange>, p: Progress, reply: UpsertResponse)
    requires Matches(chunks, log, p) && p.pending != [] && Accounts(|p.pending|, reply)
    ensures Pick(chunks, p.pending).Some? && Absorb(p, reply).Some?
    ensures Matches(chunks, log + [(Pick(chunks, p.pending).value, Ok(reply))], Absorb(p, reply).value)
  {
    hide Stored, Chain;
    PickPositions(chunks, p.pending);
    var again := Pick(chunks, p.pending).value;
    var e: Exchange := (again, Ok(reply));
    assert Follows(Last(log), e);
    ChainSnoc(log, e);
    StoredSnoc(log, e);
    AbsorbPending(p, reply, |chunks|);
  }

  lemma AbsorbPending(p: Progress, reply: UpsertResponse, n: nat)
    requires Positions(p.pending, n) && Accounts(|p.pending|, reply)
    ensures Absorb(p, reply).Some?
    ensures var q := Absorb(p, reply).value;
      && Positions(q.pending, n) && |q.pending| == |reply.failedIndices| && q.total == p.total + reply.upsertedCount
      && (forall i :: 0 <= i < |q.pending| ==> q.pending[i] == p.pending[reply.failedIndices[i]])
      && (q.pending != [] ==> q.partial && q.details == reply.errorDetails)
  {
    if reply.status == Partial && reply.failedIndices != [] {
      PickPositions(p.pending, reply.failedIndices);
    }
  }

  lemma {:induction false} RetryAnswers<S(!new)>(server: Server<S>, vault: string, chunks: seq<Chunk>, s: S, log: seq<Exchange>, p: Progress, attempt: nat)
    requires attempt <= MAX_RETRIES && Accountable(server) && Matches(chunks, log, p)
    ensures var (state, result, calls) := Retry(Logged(server), vault, chunks, (s, log), p, attempt);
      && (result.Ok? ==> Answers(chunks, state.1, result.value, |log| + calls))
      && (result.Ok? && result.value.failedIndices != [] ==> calls == MAX_RETRIES - attempt)
      && (result.Err? ==> Chain(state.1) && |state.1| == |log| + calls && result == Err(RequestFailed) && Last(state.1).1.Err?)
    decreases MAX_RETRIES - attempt
  {
    hide Absorb, Pick, Accountable, Matches, Answers, Follows;
    if attempt == MAX_RETRIES || !p.partial || p.pending == [] {
      DoneAnswers(chunks, log, p);
    } else {
      MatchesParts(chunks, log, p);
      PickPositions(chunks, p.pending);
      var again := Pick(chunks, p.pending).value;
      var (s', reply) := server(s, vault, again);
      if reply.Ok? {
        AccountableAt(server, s, vault, again);
        RetryStep(chunks, log, p, reply.value);
        RetryAnswers(server, vault, chunks, s', log + [(again, reply)], Absorb(p, reply.value).value, attempt + 1);
      } else {
        FailedFollows(chunks, log, p);
        ChainSnoc(log, (again, reply));
      }
    }
  }

  lemma MatchesParts(chunks: seq<Chunk>, log: seq<Exchange>, p: Progress)
    requires Matches(chunks, log, p)
    ensures log != [] && Chain(log) && Positions(p.pending, |chunks|)
  {
    hide Chain;
  }

  lemma FailedFollows(chunks: seq<Chunk>, log: seq<Exchange>, p: Progress)
    requires Matches(chunks, log, p) && p.pending != [] && Pick(chunks, p.pending).Some?
    ensures forall reply :: Follows(Last(log), (Pick(chunks, p.pending).value, reply))
  {
    hide Chain, Stored;
    PickPositions(chunks, p.pending);
  }

  lemma DoneAnswers(chunks: seq<Chunk>, log: seq<Exchange>, p: Progress)
    requires Matches(chunks, log, p)
    ensures Answers(chunks, log, Finished(p), |log|)
    ensures p.pending == [] || p.partial
  {
    hide Chain, Stored;
  }

  /**
    The first request sends all chunks, every further one exactly those that the one before refused,
    until none is or four are made; the answer sums up what is stored and names the original
    positions of what the last reply refused, with its details.  A failing request ends it.
   */
  lemma RequestsFollow<S(!new)>(server: Server<S>, vault: string, chunks: seq<Chunk>, s: S)
    requires Accountable(server)
    ensures var (state, result, calls) := Upserted(Logged(server), vault, chunks, (s, []));
      var log := state.1;
      && log != [] && log[0].0 == chunks && Chain(log) && |log| == calls
      && (result.Ok? ==> Answers(chunks, log, result.value, calls))
      && (result.Ok? && result.value.failedIndices != [] ==> calls == 4)
      && (result.Err? ==> result == Err(RequestFailed) && Last(log).1.Err?)
  {
    hide Accountable, Answers;
    var (s', reply) := server(s, vault, chunks);
    var log: seq<Exchange> := [] + [(chunks, reply)];
    if reply.Ok? {
      AccountableAt(server, s, vault, chunks);
      StoredSnoc([], (chunks, reply));
      StartMatches(chunks, log, reply.value);
      RetryAnswers(server, vault, chunks, s', log, Started(reply.value), 0);
      LogGrows(server, vault, chunks, s', log, Started(reply.value), 0);
      var state := Upserted(Logged(server), vault, chunks, (s, [])).0;
      AnswersParts(chunks, state.1);
    }
  }

  lemma AnswersParts(chunks: seq<Chunk>, log: seq<Exchange>)
    ensures forall answer, calls: nat :: Answers(chunks, log, answer, calls) ==> log != [] && Chain(log) && |log| == calls
  {
    hide Chain, Stored;
  }

  lemma StartMatches(chunks: seq<Chunk>, log: seq<Exchange>, reply: UpsertResponse)
    requires log == [(chunks, Ok(reply))] && Accounts(|chunks|, reply)
    ensures Matches(chunks, log, Started(reply))
  {
    assert log[..0] == [];
  }

  lemma {:induction false} LogGrows<S(!new)>(server: Server<S>, vault: string, chunks: seq<Chunk>, s: S, log: seq<Exchange>, p: Progress, attempt: nat)
    requires attempt <= MAX_RETRIES
    ensures log <= Retry(Logged(server), vault, chunks, (s, log), p, attempt).0.1
    decreases MAX_RETRIES - attempt
  {
    hide Absorb, Pick;
    if attempt != MAX_RETRIES && p.partial && p.pending != [] && Pick(chunks, p.pending).Some? {
      var again := Pick(chunks, p.pending).value;
      var (s', reply) := server(s, vault, again);
      if reply.Ok? && Absorb(p, reply.value).Some? {
        LogGrows(server, vault, chunks, s', log + [(again, reply)], Absorb(p, reply.value).value, attempt + 1);
      }
    }
  }
}
