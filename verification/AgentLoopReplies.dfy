/** The history of every run, with what each reply and each audit entry says. */
module AgentLoopReplies {
  import opened Wrappers
  import opened Text
  import opened AgentLoop
  import opened AgentLoopTheorems

  // ---- what the calls done so far mean for the next ----

  /** An earlier search asked for the query, up to case and surrounding white space. */
  ghost predicate AskedBefore(h: Host, done: seq<ToolCall>, i: nat, query: string)
    requires i <= |done|
  {
    exists j, q :: 0 <= j < i && done[j].name == "search_knowledge" && q in h.queries(done[j].arguments) &&
      h.lower(Strip(q)) == h.lower(Strip(query))
  }

  /** Call `i` is a search that only repeats queries. */
  ghost predicate Repeats(h: Host, done: seq<ToolCall>, i: nat)
    requires i < |done|
  {
    && done[i].name == "search_knowledge" && h.queries(done[i].arguments) != []
    && forall q :: q in h.queries(done[i].arguments) ==> AskedBefore(h, done, i, q)
  }

  /** The queries of the retrievals among the first `n` calls. */
  ghost function Retrieved(h: Host, done: seq<ToolCall>, n: nat): seq<seq<string>>
    requires n <= |done|
  {
    if n == 0 then []
    else
      var before := Retrieved(h, done, n - 1);
      if done[n - 1].name == "search_knowledge" && !Repeats(h, done, n - 1) then before + [h.queries(done[n - 1].arguments)] else before
  }

  const REPEATED_TEXT := "(no evidence found)\n\n<!-- meta: {\"queries_used\": [], \"scope\": \"empty\", \"hits_count\": 0, " +
    "\"evidence_tokens\": 0, \"note\": \"" +
    "duplicate_query: the same query was already executed earlier in this turn. Formulate a different query to find missing evidence." +
    "\"} -->"

  /** What call `i` of the calls done, counted over the whole run, is answered. */
  ghost function ReplyTo(h: Host, done: seq<ToolCall>, i: nat): string
    requires i < |done|
  {
    var call := done[i];
    if call.name == "search_knowledge" then
      if Repeats(h, done, i) then REPEATED_TEXT
      else h.search(|Retrieved(h, done, i)|, h.queries(call.arguments)).text
    else if call.name == "update_scene_state" then h.sceneState(i, call.arguments).0
    else h.propose(i, call.arguments).0
  }

  /** What is recorded of it. */
  ghost function RecordOf(h: Host, done: seq<ToolCall>, i: nat, round: nat): RoundMeta
    requires i < |done|
  {
    var call := done[i];
    if call.name == "search_knowledge" then
      if Repeats(h, done, i) then RoundMeta(round, h.queries(call.arguments), Some(call.name), Some("duplicate_query"))
      else
        var result := h.search(|Retrieved(h, done, i)|, h.queries(call.arguments));
        RoundMeta(round, result.queriesUsed, Some(call.name), result.skipped)
    else if call.name == "update_scene_state" then RoundMeta(round, [], Some(call.name), h.sceneState(i, call.arguments).1)
    else RoundMeta(round, [], Some(call.name), h.propose(i, call.arguments).1)
  }

  lemma AskedInPrefix(h: Host, done: seq<ToolCall>, more: seq<ToolCall>, i: nat, query: string)
    requires i <= |done|
    ensures AskedBefore(h, done + more, i, query) <==> AskedBefore(h, done, i, query)
  {
    assert forall j :: 0 <= j < i ==> (done + more)[j] == done[j];
  }

  lemma RepeatsInPrefix(h: Host, done: seq<ToolCall>, more: seq<ToolCall>, i: nat)
    requires i < |done|
    ensures Repeats(h, done + more, i) <==> Repeats(h, done, i)
  {
    hide AskedBefore;
    assert (done + more)[i] == done[i];
    forall q: string ensures AskedBefore(h, done + more, i, q) <==> AskedBefore(h, done, i, q) {
      AskedInPrefix(h, done, more, i, q);
    }
  }

  lemma {:induction false} RetrievedInPrefix(h: Host, done: seq<ToolCall>, more: seq<ToolCall>, n: nat)
    requires n <= |done|
    ensures Retrieved(h, done + more, n) == Retrieved(h, done, n)
  {
    hide Repeats;
    if n > 0 {
      RetrievedInPrefix(h, done, more, n - 1);
      RepeatsInPrefix(h, done, more, n - 1);
    }
  }

  lemma ReplyInPrefix(h: Host, done: seq<ToolCall>, more: seq<ToolCall>, i: nat, round: nat)
    requires i < |done|
    ensures ReplyTo(h, done + more, i) == ReplyTo(h, done, i)
    ensures RecordOf(h, done + more, i, round) == RecordOf(h, done, i, round)
  {
    hide Repeats, Retrieved;
    RepeatsInPrefix(h, done, more, i);
    RetrievedInPrefix(h, done, more, i);
  }

  // ---- the loop keeps track of them ----

  /** The loop's counters and sets are those of the calls done. */
  ghost predicate Tracks(h: Host, s: Loop, done: seq<ToolCall>) {
    && s.made == |done|
    && s.searched == Retrieved(h, done, |done|)
    && SeenIs(h, s.seen, done)
  }

  /** The queries seen are those of all searches done, skipped ones included. */
  ghost predicate SeenIs(h: Host, seen: set<string>, done: seq<ToolCall>) {
    forall query :: h.lower(Strip(query)) in seen <==> AskedBefore(h, done, |done|, query)
  }

  lemma NormSetHas(h: Host, queries: seq<string>, query: string)
    ensures Norm(h, query) in NormSet(h, queries) <==> exists q :: q in queries && h.lower(Strip(q)) == h.lower(Strip(query))
  {
  }

  lemma RepeatsWhen(h: Host, s: Loop, done: seq<ToolCall>, call: ToolCall)
    requires SeenIs(h, s.seen, done) && call.name == "search_knowledge"
    ensures Repeats(h, done + [call], |done|) <==> Duplicate(s.seen, NormSet(h, h.queries(call.arguments)))
  {
    var queries := h.queries(call.arguments);
    var norms := NormSet(h, queries);
    NormSetEmpty(h, queries);
    hide NormSet;
    forall q: string ensures AskedBefore(h, done + [call], |done|, q) <==> Norm(h, q) in s.seen {
      AskedInPrefix(h, done, [call], |done|, q);
    }
    hide AskedBefore;
    DuplicateWhen(s.seen, norms);
    NormsWithin(h, queries, s.seen);
  }

  lemma DuplicateWhen(seen: set<string>, norms: set<string>)
    ensures Duplicate(seen, norms) <==> norms != {} && norms <= seen
  {
    if norms <= seen {
      assert norms * seen == norms;
    } else {
      var n :| n in norms && n !in seen;
      assert n in norms - norms * seen;
    }
  }

  lemma NormsWithin(h: Host, queries: seq<string>, seen: set<string>)
    ensures NormSet(h, queries) <= seen <==> forall q :: q in queries ==> Norm(h, q) in seen
  {
    if NormSet(h, queries) <= seen {
      forall q | q in queries ensures Norm(h, q) in seen {
        assert Norm(h, q) in NormSet(h, queries);
      }
    }
  }

  lemma AskedSnoc(h: Host, done: seq<ToolCall>, call: ToolCall, query: string)
    ensures AskedBefore(h, done + [call], |done| + 1, query) <==>
      || AskedBefore(h, done, |done|, query)
      || (call.name == "search_knowledge" && exists q :: q in h.queries(call.arguments) && h.lower(Strip(q)) == h.lower(Strip(query)))
  {
    var all := done + [call];
    assert all[|done|] == call && forall j :: 0 <= j < |done| ==> all[j] == done[j];
    AskedInPrefix(h, done, [call], |done|, query);
    if call.name == "search_knowledge" {
      if q :| q in h.queries(call.arguments) && h.lower(Strip(q)) == h.lower(Strip(query)) {
        assert all[|done|].name == "search_knowledge" && q in h.queries(all[|done|].arguments);
      }
    }
  }

  lemma SeenStep(h: Host, seen: set<string>, done: seq<ToolCall>, call: ToolCall)
    requires SeenIs(h, seen, done)
    ensures SeenIs(h, if call.name == "search_knowledge" then seen + NormSet(h, h.queries(call.arguments)) else seen, done + [call])
  {
    hide AskedBefore, NormSet;
    var seen' := if call.name == "search_knowledge" then seen + NormSet(h, h.queries(call.arguments)) else seen;
    forall query: string ensures h.lower(Strip(query)) in seen' <==> AskedBefore(h, done + [call], |done + [call]|, query) {
      AskedSnoc(h, done, call, query);
      NormSetHas(h, h.queries(call.arguments), query);
    }
  }

  lemma RetrievedSnoc(h: Host, done: seq<ToolCall>, call: ToolCall)
    ensures Retrieved(h, done + [call], |done|) == Retrieved(h, done, |done|)
    ensures Retrieved(h, done + [call], |done| + 1) ==
      if call.name == "search_knowledge" && !Repeats(h, done + [call], |done|)
      then Retrieved(h, done, |done|) + [h.queries(call.arguments)] else Retrieved(h, done, |done|)
  {
    hide Repeats;
    RetrievedInPrefix(h, done, [call], |done|);
    assert (done + [call])[|done|] == call;
  }

  /** One call done: the loop still keeps track, and has replied and recorded what it should. */
  lemma CallStep(h: Host, round: nat, s: Loop, done: seq<ToolCall>, call: ToolCall)
    requires Known(call.name) && Tracks(h, s, done)
    ensures var t, all := Executed(h, round, s, call), done + [call];
      && Tracks(h, t, all)
      && t.messages == s.messages + [ToolReply(call.id, ReplyTo(h, all, |done|))]
      && t.metas == s.metas + [RecordOf(h, all, |done|, round)]
  {
    hide SeenIs, Repeats, Retrieved, NormSet, Duplicate;
    var all := done + [call];
    assert all[|done|] == call;
    SeenStep(h, s.seen, done, call);
    RetrievedSnoc(h, done, call);
    if call.name == "search_knowledge" {
      RepeatsWhen(h, s, done, call);
      DuplicateText();
    }
  }

  lemma DuplicateText()
    ensures EmptyResultText(DUPLICATE_NOTE) == REPEATED_TEXT
  {
  }

  // ---- the calls of a round ----

  /** What is recorded of a round's calls: of those done, and of the first unknown tool. */
  ghost function RecordsOf(h: Host, done: seq<ToolCall>, calls: seq<ToolCall>, round: nat): seq<RoundMeta> {
    var n := KnownPrefix(calls);
    var all := done + calls[..n];
    seq(n, i requires 0 <= i < n => RecordOf(h, all, |done| + i, round)) +
      if n < |calls| then [RoundMeta(round, [], Some(calls[n].name), Some("unknown_tool"))] else []
  }

  /** The replies to a round's calls. */
  ghost function RepliesOf(h: Host, done: seq<ToolCall>, calls: seq<ToolCall>): seq<string> {
    var n := KnownPrefix(calls);
    var all := done + calls[..n];
    seq(n, i requires 0 <= i < n => ReplyTo(h, all, |done| + i))
  }

  lemma FirstKnown(done: seq<ToolCall>, calls: seq<ToolCall>) returns (all: seq<ToolCall>)
    requires calls != [] && Known(calls[0].name)
    ensures KnownPrefix(calls) == KnownPrefix(calls[1..]) + 1
    ensures all == done + calls[..KnownPrefix(calls)] == done + [calls[0]] + calls[1..][..KnownPrefix(calls[1..])]
  {
    hide Known;
    all := done + calls[..KnownPrefix(calls)];
    assert calls[..KnownPrefix(calls)] == [calls[0]] + calls[1..][..KnownPrefix(calls[1..])];
  }

  lemma FirstReply(h: Host, done: seq<ToolCall>, calls: seq<ToolCall>)
    requires calls != [] && Known(calls[0].name)
    ensures RepliesOf(h, done, calls) == [ReplyTo(h, done + [calls[0]], |done|)] + RepliesOf(h, done + [calls[0]], calls[1..])
  {
    hide ReplyTo, Known, KnownPrefix;
    var all := FirstKnown(done, calls);
    ReplyInPrefix(h, done + [calls[0]], calls[1..][..KnownPrefix(calls[1..])], |done|, 0);
  }

  lemma FirstRecord(h: Host, done: seq<ToolCall>, calls: seq<ToolCall>, round: nat)
    requires calls != [] && Known(calls[0].name)
    ensures RecordsOf(h, done, calls, round) == [RecordOf(h, done + [calls[0]], |done|, round)] + RecordsOf(h, done + [calls[0]], calls[1..], round)
  {
    hide RecordOf, Known, KnownPrefix;
    var all := FirstKnown(done, calls);
    ReplyInPrefix(h, done + [calls[0]], calls[1..][..KnownPrefix(calls[1..])], |done|, round);
  }

  lemma {:induction false} CallsStep(h: Host, round: nat, s: Loop, done: seq<ToolCall>, calls: seq<ToolCall>)
    requires Tracks(h, s, done)
    ensures var t := ExecutedAll(h, round, s, calls);
      && Tracks(h, t, done + calls[..KnownPrefix(calls)])
      && Texts(h, round, s, calls) == RepliesOf(h, done, calls)
      && t.metas == s.metas + RecordsOf(h, done, calls, round)
    decreases |calls|
  {
    hide Tracks, Executed, Known, ReplyTo, RecordOf, RepliesOf, RecordsOf;
    if calls != [] && Known(calls[0].name) {
      var t, reply := Executed(h, round, s, calls[0]), ReplyTo(h, done + [calls[0]], |done|);
      CallStep(h, round, s, done, calls[0]);
      assert t.messages[|s.messages|] == ToolReply(calls[0].id, reply);
      CallsStep(h, round, t, done + [calls[0]], calls[1..]);
      FirstReply(h, done, calls);
      FirstRecord(h, done, calls, round);
      var all := FirstKnown(done, calls);
      ExecutedShape(h, round, s, calls[0]);
    } else {
      NoCallDone(h, done, calls, round);
      assert done + calls[..0] == done;
      RefusedTracks(h, round, s, done, calls);
    }
  }

  lemma NoCallDone(h: Host, done: seq<ToolCall>, calls: seq<ToolCall>, round: nat)
    requires calls == [] || !Known(calls[0].name)
    ensures KnownPrefix(calls) == 0 && RepliesOf(h, done, calls) == []
    ensures RecordsOf(h, done, calls, round) == if calls == [] then [] else [RoundMeta(round, [], Some(calls[0].name), Some("unknown_tool"))]
  {
  }

  lemma RefusedTracks(h: Host, round: nat, s: Loop, done: seq<ToolCall>, calls: seq<ToolCall>)
    requires Tracks(h, s, done) && (calls == [] || !Known(calls[0].name))
    ensures Tracks(h, ExecutedAll(h, round, s, calls), done)
  {
    hide Known, SeenIs, Retrieved;
  }

  // ---- the history ----

  /** The calls done in these rounds. */
  ghost function DoneIn(blocks: seq<Block>): seq<ToolCall> {
    if blocks == [] then []
    else
      var b := blocks[|blocks| - 1];
      DoneIn(blocks[..|blocks| - 1]) + b.calls[..KnownPrefix(b.calls)]
  }

  ghost function RecordsIn(h: Host, blocks: seq<Block>): seq<RoundMeta> {
    if blocks == [] then []
    else
      var n := |blocks| - 1;
      RecordsIn(h, blocks[..n]) + RecordsOf(h, DoneIn(blocks[..n]), blocks[n].calls, n)
  }

  /** Each block replies to its calls as the host answers them after all calls of before. */
  ghost predicate RepliesFit(h: Host, blocks: seq<Block>) {
    forall k :: 0 <= k < |blocks| ==> blocks[k].replies == RepliesOf(h, DoneIn(blocks[..k]), blocks[k].calls)
  }

  ghost predicate Faithful(h: Host, s: Loop, blocks: seq<Block>) {
    Tracks(h, s, DoneIn(blocks)) && RepliesFit(h, blocks) && s.metas == RecordsIn(h, blocks)
  }

  lemma BlocksSnoc(h: Host, blocks: seq<Block>, b: Block)
    requires RepliesFit(h, blocks) && b.replies == RepliesOf(h, DoneIn(blocks), b.calls)
    ensures DoneIn(blocks + [b]) == DoneIn(blocks) + b.calls[..KnownPrefix(b.calls)]
    ensures RecordsIn(h, blocks + [b]) == RecordsIn(h, blocks) + RecordsOf(h, DoneIn(blocks), b.calls, |blocks|)
    ensures RepliesFit(h, blocks + [b])
  {
    hide RepliesOf, RecordsOf, KnownPrefix;
    var all := blocks + [b];
    assert all[..|blocks|] == blocks;
    forall k | 0 <= k < |all| ensures all[k].replies == RepliesOf(h, DoneIn(all[..k]), all[k].calls) {
      if k < |blocks| {
        assert all[..k] == blocks[..k];
      }
    }
  }

  lemma RoundStep(p: Provider, h: Host, c: Request, s: Loop, round: nat, blocks: seq<Block>, turn: Turn) returns (b: Block)
    requires |blocks| == round && Faithful(h, s, blocks)
    ensures b == Block(Content(turn.chunks), TurnCalls(turn), Texts(h, round, Opened(c, s, round, turn), TurnCalls(turn)))
    ensures Faithful(h, Acted(h, round, Heard(c, s, round, turn), b.content, b.calls), blocks + [b])
  {
    hide TurnCalls, Content, Choice, PhaseOf, Tokens, ExecutedAll, Retrieved, SeenIs, RepliesOf, RecordsOf, RepliesFit, RecordsIn, DoneIn;
    var calls, open := TurnCalls(turn), Opened(c, s, round, turn);
    b := Block(Content(turn.chunks), calls, Texts(h, round, open, calls));
    CallsStep(h, round, open, DoneIn(blocks), calls);
    BlocksSnoc(h, blocks, b);
  }

  /** Did the run end with a round that only wrote text? */
  ghost predicate EndsInText(p: Provider, s: Loop, n: nat) {
    n < |s.asked| && !TurnAt(p, s, n).failed
  }

  /** The whole history of a run: its messages, its replies, its audit. */
  ghost predicate IsHistory(p: Provider, h: Host, c: Request, s: Loop, blocks: seq<Block>) {
    && Disciplined(p, c, s, blocks)
    && RepliesFit(h, blocks)
    && s.made == |DoneIn(blocks)| && s.searched == Retrieved(h, DoneIn(blocks), |DoneIn(blocks)|)
    && s.metas == RecordsIn(h, blocks) + if EndsInText(p, s, |blocks|) then [RoundMeta(|blocks|, [], None, None)] else []
  }

  lemma LastRound(p: Provider, h: Host, c: Request, s: Loop, round: nat, blocks: seq<Block>)
    requires |blocks| == |s.asked| == round < Rounds(c) && Disciplined(p, c, s, blocks) && Faithful(h, s, blocks)
    requires var turn := p(round, s.messages, Choice(c, round)); turn.failed || TurnCalls(turn) == []
    ensures IsHistory(p, h, c, RunFrom(p, h, c, s, round), blocks)
  {
    hide TurnCalls, Content, Choice, Disciplined, PhaseOf, Tokens, DoneIn, RecordsIn, RepliesFit, Retrieved, SeenIs;
    var t := RunFrom(p, h, c, s, round);
    LastRoundDisciplined(p, c, s, t, round, blocks);
    assert TurnAt(p, t, round) == p(round, s.messages, Choice(c, round));
  }

  lemma {:induction false} RunFromHistory(p: Provider, h: Host, c: Request, s: Loop, round: nat, blocks: seq<Block>) returns (all: seq<Block>)
    requires |blocks| == |s.asked| == round <= Rounds(c) && Disciplined(p, c, s, blocks) && Faithful(h, s, blocks)
    ensures IsHistory(p, h, c, RunFrom(p, h, c, s, round), all)
    decreases Rounds(c) - round
  {
    hide TurnCalls, Content, Choice, Disciplined, Acted, PhaseOf, Tokens, Texts, Faithful, IsHistory;
    all := blocks;
    if round == Rounds(c) {
      SpentHistory(p, h, c, s, blocks);
    } else {
      var turn := p(round, s.messages, Choice(c, round));
      var calls := TurnCalls(turn);
      if turn.failed || calls == [] {
        LastRound(p, h, c, s, round, blocks);
      } else {
        var b := RoundStep(p, h, c, s, round, blocks, turn);
        BlockStep(p, h, c, s, round, blocks, b);
        all := RunFromHistory(p, h, c, Acted(h, round, Heard(c, s, round, turn), b.content, calls), round + 1, blocks + [b]);
      }
    }
  }

  lemma SpentHistory(p: Provider, h: Host, c: Request, s: Loop, blocks: seq<Block>)
    requires |blocks| == |s.asked| && Disciplined(p, c, s, blocks) && Faithful(h, s, blocks)
    ensures IsHistory(p, h, c, Finished(s), blocks)
  {
    hide Disciplined, DoneIn, RecordsIn, RepliesFit, Retrieved, SeenIs;
    FinishedDisciplined(p, c, s, blocks);
  }

  /**
    In every run each assistant message with tool calls is followed by replies to its calls in
    order, all of them when it names no unknown tool, else those before the first; every request saw
    exactly the messages of the rounds before it; and each reply and audit entry says what the host
    answers after all the calls done before in the run.
   */
  lemma RunIsDisciplined(p: Provider, h: Host, c: Request)
    ensures exists blocks :: IsHistory(p, h, c, Run(p, h, c), blocks)
  {
    hide Disciplined, IsHistory, Faithful;
    StartDisciplined(p, c);
    NothingDone(h, c);
    var blocks := RunFromHistory(p, h, c, Start(c), 0, []);
    assert IsHistory(p, h, c, Run(p, h, c), blocks);
  }

  lemma NothingDone(h: Host, c: Request)
    ensures Faithful(h, Start(c), [])
  {
  }

  // ---- what is asked ----

  /** The opening messages: the system prompt unless it is empty, the history in order, the user's message last. */
  lemma OpeningMessages(c: Request)
    ensures var first := if c.systemPrompt == "" then 0 else 1;
      && |Base(c)| == first + |c.history| + 1
      && (first == 1 ==> Base(c)[0] == System(c.systemPrompt))
      && (forall i :: 0 <= i < |c.history| ==> Base(c)[first + i] == Past(c.history[i].0, c.history[i].1))
      && Base(c)[|Base(c)| - 1] == User(c.userMessage)
  {
  }

  /** Tools are withheld in the last round, demanded in the first of a grounded request, else offered. */
  lemma ToolChoices(p: Provider, h: Host, c: Request, k: nat)
    requires k < |Run(p, h, c).asked|
    ensures var choice := Run(p, h, c).asked[k].1;
      var last := k == (if c.maxRounds <= 0 then 1 else c.maxRounds) - 1;
      var grounded := if c.groundedOverride.Some? then c.groundedOverride.value else c.groundedPolicy;
      && (choice == NoTools <==> last)
      && (choice == Required <==> !last && k == 0 && grounded)
  {
    hide Run, TurnCalls, Paired, Content;
    RunEndsWell(p, h, c);
  }
}
