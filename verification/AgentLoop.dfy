/**
  The agent loop: a bounded exchange between a language model and the host's tools.  The provider and
  the tools answer arbitrarily; retrieval never raises.
 */
module AgentLoop {
  import opened Wrappers
  import opened Text
  import opened Seqs

  // ---- what the provider streams ----

  datatype ToolCallDelta = ToolCallDelta(index: int, id: Option<string>, name: Option<string>, arguments: Option<string>)

  /** An empty `content` is a chunk without a content delta. */
  datatype StreamChunk = StreamChunk(content: string, delta: Option<ToolCallDelta>)

  /** The chunks of one answer, and whether the stream then raises. */
  datatype Turn = Turn(chunks: seq<StreamChunk>, failed: bool)

  datatype ToolCall = ToolCall(id: string, index: int, name: string, arguments: string)

  // ---- reassembling tool calls ----

  datatype Slot = Slot(id: Option<string>, name: Option<string>, arguments: seq<string>)

  function Either(new': Option<string>, old': Option<string>): Option<string> {
    if new'.Some? then new' else old'
  }

  predicate Truthy(s: Option<string>) {
    s.Some? && s.value != ""
  }

  function AbsorbDelta(slots: map<int, Slot>, d: ToolCallDelta): map<int, Slot> {
    var slot := if d.index in slots then slots[d.index] else Slot(d.id, None, []);
    slots[d.index := Slot(Either(d.id, slot.id), Either(d.name, slot.name),
                          slot.arguments + if Truthy(d.arguments) then [d.arguments.value] else [])]
  }

  function Slots(deltas: seq<ToolCallDelta>): map<int, Slot> {
    if deltas == [] then map[] else AbsorbDelta(Slots(deltas[..|deltas| - 1]), deltas[|deltas| - 1])
  }

  function Deltas(chunks: seq<StreamChunk>): seq<ToolCallDelta> {
    if chunks == [] then []
    else
      var last := chunks[|chunks| - 1];
      Deltas(chunks[..|chunks| - 1]) + if last.delta.Some? then [last.delta.value] else []
  }

  function Content(chunks: seq<StreamChunk>): string {
    if chunks == [] then "" else Content(chunks[..|chunks| - 1]) + chunks[|chunks| - 1].content
  }

  lemma AnElement<T>(s: set<T>) returns (x: T)
    requires s != {}
    ensures x in s
  {
    x :| x in s;
  }

  predicate Least(m: int, s: set<int>) {
    m in s && forall k :: k in s ==> m <= k
  }

  lemma {:induction false} LeastExists(s: set<int>) returns (m: int)
    requires s != {}
    ensures Least(m, s)
    decreases |s|
  {
    var x := AnElement(s);
    var rest := s - {x};
    m := x;
    if rest != {} {
      var y := LeastExists(rest);
      m := if x <= y then x else y;
    }
    forall k | k in s ensures m <= k {
      assert k == x || k in rest;
    }
  }

  /** `sorted(keys)` */
  function SortedKeys(s: set<int>): (r: seq<int>)
    ensures forall k :: k in r <==> k in s
    ensures forall i, j :: 0 <= i < j < |r| ==> r[i] < r[j]
  {
    if s == {} then []
    else
      assert exists m :: Least(m, s) by {
        var least := LeastExists(s);
      }
      var m :| Least(m, s);
      var rest := SortedKeys(s - {m});
      assert forall i :: 0 <= i < |rest| ==> rest[i] in rest;
      [m] + rest
  }

  predicate Complete(slot: Slot) {
    Truthy(slot.id) && Truthy(slot.name)
  }

  function CallAt(index: int, slot: Slot): ToolCall
    requires Complete(slot)
  {
    ToolCall(slot.id.value, index, slot.name.value, Concat(slot.arguments))
  }

  function Collect(slots: map<int, Slot>, indices: seq<int>): seq<ToolCall>
    requires forall i :: 0 <= i < |indices| ==> indices[i] in slots
  {
    if indices == [] then []
    else
      var n := |indices| - 1;
      Collect(slots, indices[..n]) + if Complete(slots[indices[n]]) then [CallAt(indices[n], slots[indices[n]])] else []
  }

  function CallsOf(slots: map<int, Slot>): seq<ToolCall> {
    assert forall i :: 0 <= i < |SortedKeys(slots.Keys)| ==> SortedKeys(slots.Keys)[i] in SortedKeys(slots.Keys);
    Collect(slots, SortedKeys(slots.Keys))
  }

  function TurnCalls(turn: Turn): seq<ToolCall> {
    CallsOf(Slots(Deltas(turn.chunks)))
  }

  // ---- messages, events and the host ----

  datatype Message =
    | System(content: string)
    | Past(role: string, content: string)
    | User(content: string)
    | Assistant(content: string, calls: seq<ToolCall>)
    | ToolReply(callId: string, content: string)

  datatype ToolChoice = Required | Auto | NoTools

  datatype Phase = Initial | Followup | FinalRound

  datatype Failure = ProviderError | UnknownTool(name: string)

  datatype Finish = Stop(contentChars: nat) | AfterTools(calls: nat)

  datatype Event =
    | RoundStart(round: nat, phase: Phase, choice: ToolChoice)
    | Token(round: nat, content: string)
    | ToolCalled(round: nat, tool: string)
    | ToolResult(round: nat, tool: string)
    | RoundEnd(round: nat, finish: Finish)
    | Error(round: nat, failure: Failure)
    | Final(contentChars: nat, rounds: seq<RoundMeta>, toolCallsMade: nat)

  datatype RoundMeta = RoundMeta(round: nat, queries: seq<string>, tool: Option<string>, skipped: Option<string>)

  datatype SearchResult = SearchResult(queriesUsed: seq<string>, text: string, skipped: Option<string>)

  /**
    The host's side: parsing of arguments, lower-casing, and the tools, whose answers may depend on
    everything done before through the number of earlier retrievals or tool calls.
   */
  datatype Host = Host(
    queries: string -> seq<string>,
    lower: string -> string,
    search: (nat, seq<string>) -> SearchResult,
    sceneState: (nat, string) -> (string, Option<string>),
    propose: (nat, string) -> (string, Option<string>))

  /** The provider's answer to the messages of a round. */
  type Provider = (nat, seq<Message>, ToolChoice) -> Turn

  datatype Request = Request(systemPrompt: string, history: seq<(string, string)>, userMessage: string,
    maxRounds: int, groundedOverride: Option<bool>, groundedPolicy: bool)

  const SEARCH_KNOWLEDGE := "search_knowledge"
  const UPDATE_SCENE_STATE := "update_scene_state"
  const PROPOSE_CONTEXT_UPDATE := "propose_context_update"
  const DUPLICATE_NOTE := "duplicate_query: the same query was already executed earlier in this turn. Formulate a different query to find missing evidence."

  /** `_format_tool_result_text` of a result without hits, of no queries, with a note free of quotes. */
  function EmptyResultText(note: string): string {
    "(no evidence found)\n\n<!-- meta: {\"queries_used\": [], \"scope\": \"empty\", \"hits_count\": 0, " +
    "\"evidence_tokens\": 0, \"note\": \"" + note + "\"} -->"
  }

  predicate Known(name: string) {
    name == SEARCH_KNOWLEDGE || name == UPDATE_SCENE_STATE || name == PROPOSE_CONTEXT_UPDATE
  }

  // ---- the loop's state ----

  /** Besides the source's local variables: what was asked of the provider and of retrieval. */
  datatype Loop = Loop(messages: seq<Message>, seen: set<string>, metas: seq<RoundMeta>, made: nat, content: string,
    events: seq<Event>, asked: seq<(seq<Message>, ToolChoice)>, searched: seq<seq<string>>)

  function Rounds(c: Request): nat {
    if c.maxRounds <= 0 then 1 else c.maxRounds
  }

  function Forced(c: Request): bool {
    c.groundedOverride.GetOr(c.groundedPolicy)
  }

  function Choice(c: Request, round: nat): ToolChoice {
    if round == Rounds(c) - 1 then NoTools else if round == 0 && Forced(c) then Required else Auto
  }

  function PhaseOf(c: Request, round: nat): Phase {
    if round == Rounds(c) - 1 then FinalRound else if round == 0 && Choice(c, round) == Required then Initial else Followup
  }

  function Past'(entry: (string, string)): Message {
    Past(entry.0, entry.1)
  }

  function Base(c: Request): seq<Message> {
    (if c.systemPrompt != "" then [System(c.systemPrompt)] else []) + Map(Past', c.history) + [User(c.userMessage)]
  }

  function Start(c: Request): Loop {
    Loop(Base(c), {}, [], 0, "", [], [], [])
  }

  function Tokens(round: nat, chunks: seq<StreamChunk>): seq<Event> {
    if chunks == [] then []
    else
      var last := chunks[|chunks| - 1];
      Tokens(round, chunks[..|chunks| - 1]) + if last.content != "" then [Token(round, last.content)] else []
  }

  /** After the stream of a round. */
  function Heard(c: Request, s: Loop, round: nat, turn: Turn): Loop {
    s.(events := s.events + [RoundStart(round, PhaseOf(c, round), Choice(c, round))] + Tokens(round, turn.chunks),
       asked := s.asked + [(s.messages, Choice(c, round))])
  }

  function Norm(h: Host, q: string): string {
    h.lower(Strip(q))
  }

  function NormSet(h: Host, queries: seq<string>): set<string> {
    set q | q in queries :: Norm(h, q)
  }

  /** A tool call done: its two events, its reply, its entry in the audit. */
  function Answered(s: Loop, round: nat, call: ToolCall, text: string, meta: RoundMeta): Loop {
    s.(events := s.events + [ToolCalled(round, call.name), ToolResult(round, call.name)],
       messages := s.messages + [ToolReply(call.id, text)],
       metas := s.metas + [meta],
       made := s.made + 1)
  }

  predicate Duplicate(seen: set<string>, norms: set<string>) {
    var duplicate := norms * seen;
    duplicate != {} && norms - duplicate == {}
  }

  function Searched(h: Host, round: nat, s: Loop, call: ToolCall): Loop {
    var queries := h.queries(call.arguments);
    var norms := NormSet(h, queries);
    var t := s.(seen := s.seen + norms);
    if Duplicate(s.seen, norms) then
      Answered(t, round, call, EmptyResultText(DUPLICATE_NOTE), RoundMeta(round, queries, Some(call.name), Some("duplicate_query")))
    else
      var result := h.search(|s.searched|, queries);
      Answered(t.(searched := s.searched + [queries]), round, call, result.text,
               RoundMeta(round, result.queriesUsed, Some(call.name), result.skipped))
  }

  function Executed(h: Host, round: nat, s: Loop, call: ToolCall): Loop
    requires Known(call.name)
  {
    if call.name == SEARCH_KNOWLEDGE then Searched(h, round, s, call)
    else
      var result := if call.name == UPDATE_SCENE_STATE then h.sceneState(s.made, call.arguments) else h.propose(s.made, call.arguments);
      Answered(s, round, call, result.0, RoundMeta(round, [], Some(call.name), result.1))
  }

  function Refused(round: nat, s: Loop, call: ToolCall): Loop {
    s.(events := s.events + [Error(round, UnknownTool(call.name))],
       metas := s.metas + [RoundMeta(round, [], Some(call.name), Some("unknown_tool"))])
  }

  /** The calls of a round in order, up to the first unknown tool. */
  function ExecutedAll(h: Host, round: nat, s: Loop, calls: seq<ToolCall>): Loop
    decreases |calls|
  {
    if calls == [] then s
    else if Known(calls[0].name) then ExecutedAll(h, round, Executed(h, round, s, calls[0]), calls[1..])
    else Refused(round, s, calls[0])
  }

  /** A round that called tools. */
  function Acted(h: Host, round: nat, s: Loop, content: string, calls: seq<ToolCall>): Loop {
    var t := ExecutedAll(h, round, s.(messages := s.messages + [Assistant(content, calls)]), calls);
    t.(events := t.events + [RoundEnd(round, AfterTools(|calls|))])
  }

  /** A round that only wrote text. */
  function Wrote(round: nat, s: Loop, content: string): Loop {
    s.(content := content,
       metas := s.metas + [RoundMeta(round, [], None, None)],
       events := s.events + [RoundEnd(round, Stop(|content|))])
  }

  function Finished(s: Loop): Loop {
    s.(events := s.events + [Final(|s.content|, s.metas, s.made)])
  }

  /** The rounds from `round` on. */
  function RunFrom(p: Provider, h: Host, c: Request, s: Loop, round: nat): Loop
    requires round <= Rounds(c)
    decreases Rounds(c) - round
  {
    if round == Rounds(c) then Finished(s)
    else
      var turn := p(round, s.messages, Choice(c, round));
      var t, calls := Heard(c, s, round, turn), TurnCalls(turn);
      if turn.failed then t.(events := t.events + [Error(round, ProviderError)])
      else if calls == [] then Finished(Wrote(round, t, Content(turn.chunks)))
      else RunFrom(p, h, c, Acted(h, round, t, Content(turn.chunks), calls), round + 1)
  }

  function Run(p: Provider, h: Host, c: Request): Loop {
    RunFrom(p, h, c, Start(c), 0)
  }

  // ---- the loops of the source ----

  lemma NothingHeard(round: nat)
    ensures Content([]) == "" && Slots(Deltas([])) == map[] && Tokens(round, []) == []
  {
  }

  lemma DeltasStep(chunks: seq<StreamChunk>, i: nat)
    requires i < |chunks|
    ensures Slots(Deltas(chunks[..i + 1])) ==
      if chunks[i].delta.Some? then AbsorbDelta(Slots(Deltas(chunks[..i])), chunks[i].delta.value) else Slots(Deltas(chunks[..i]))
  {
    hide AbsorbDelta;
    PrefixStep(chunks, i);
    var before := Deltas(chunks[..i]);
    if chunks[i].delta.Some? {
      assert (before + [chunks[i].delta.value])[..|before|] == before;
    } else {
      assert before + [] == before;
    }
  }

  /** `async for chunk in provider.generate_stream_with_tools(...)` */
  method ReadStream(round: nat, chunks: seq<StreamChunk>) returns (content: string, slots: map<int, Slot>, tokens: seq<Event>)
    ensures content == Content(chunks)
    ensures slots == Slots(Deltas(chunks))
    ensures tokens == Tokens(round, chunks)
  {
    hide AbsorbDelta, Slots, Deltas;
    content, slots, tokens := "", map[], [];
    NothingHeard(round);
    for i := 0 to |chunks|
      invariant content == Content(chunks[..i])
      invariant slots == Slots(Deltas(chunks[..i]))
      invariant tokens == Tokens(round, chunks[..i])
    {
      PrefixStep(chunks, i);
      DeltasStep(chunks, i);
      var chunk := chunks[i];
      content := content + chunk.content;
      if chunk.content != "" {
        tokens := tokens + [Token(round, chunk.content)];
      }
      if chunk.delta.Some? {
        slots := AbsorbDelta(slots, chunk.delta.value);
      }
    }
    assert chunks[..|chunks|] == chunks;
  }

  method Materialise(slots: map<int, Slot>) returns (calls: seq<ToolCall>)
    ensures calls == CallsOf(slots)
  {
    var indices := SortedKeys(slots.Keys);
    calls := [];
    for i := 0 to |indices|
      invariant calls == Collect(slots, indices[..i])
    {
      PrefixStep(indices, i);
      assert indices[i] in indices;
      var slot := slots[indices[i]];
      if !Complete(slot) {
        continue;
      }
      calls := calls + [CallAt(indices[i], slot)];
    }
    assert indices[..|indices|] == indices;
  }

  /** `for call in full_calls`, which an unknown tool breaks. */
  method ExecuteCalls(h: Host, round: nat, start: Loop, calls: seq<ToolCall>) returns (s: Loop)
    ensures s == ExecutedAll(h, round, start, calls)
  {
    hide Executed, Refused, Known;
    s := start;
    var i := 0;
    while i < |calls|
      invariant i <= |calls|
      invariant ExecutedAll(h, round, s, calls[i..]) == ExecutedAll(h, round, start, calls)
    {
      assert calls[i..][1..] == calls[i + 1..];
      if !Known(calls[i].name) {
        s := Refused(round, s, calls[i]);
        return;
      }
      s := Executed(h, round, s, calls[i]);
      i := i + 1;
    }
  }

  method RunStream(p: Provider, h: Host, c: Request) returns (s: Loop)
    ensures s == Run(p, h, c)
  {
    hide PhaseOf, Tokens, Content, Slots, Deltas, CallsOf, ExecutedAll;
    s := Start(c);
    var round := 0;
    while round < Rounds(c)
      invariant round <= Rounds(c)
      invariant RunFrom(p, h, c, s, round) == Run(p, h, c)
    {
      var turn := p(round, s.messages, Choice(c, round));
      var content, slots, tokens := ReadStream(round, turn.chunks);
      s := s.(events := s.events + [RoundStart(round, PhaseOf(c, round), Choice(c, round))] + tokens,
              asked := s.asked + [(s.messages, Choice(c, round))]);
      if turn.failed {
        s := s.(events := s.events + [Error(round, ProviderError)]);
        return;
      }
      var calls := Materialise(slots);
      if calls == [] {
        s := Wrote(round, s, content);
        break;
      }
      s := ExecuteCalls(h, round, s.(messages := s.messages + [Assistant(content, calls)]), calls);
      s := s.(events := s.events + [RoundEnd(round, AfterTools(|calls|))]);
      round := round + 1;
    }
    s := Finished(s);
  }
}
