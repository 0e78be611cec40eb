/** What holds of the agent loop against every provider and every host. */
module AgentLoopTheorems {
  import opened Wrappers
  import opened Text
  import opened Seqs
  import opened AgentLoop

  // ---- reassembly ----

  /** The deltas of one index, in order. */
  function StreamOf(index: int, deltas: seq<ToolCallDelta>): seq<ToolCallDelta> {
    if deltas == [] then []
    else
      var last := deltas[|deltas| - 1];
      StreamOf(index, deltas[..|deltas| - 1]) + if last.index == index then [last] else []
  }

  function LastId(stream: seq<ToolCallDelta>): Option<string> {
    if stream == [] then None
    else
      var last := stream[|stream| - 1];
      if last.id.Some? then last.id else LastId(stream[..|stream| - 1])
  }

  function LastName(stream: seq<ToolCallDelta>): Option<string> {
    if stream == [] then None
    else
      var last := stream[|stream| - 1];
      if last.name.Some? then last.name else LastName(stream[..|stream| - 1])
  }

  function AllArguments(stream: seq<ToolCallDelta>): string {
    if stream == [] then ""
    else AllArguments(stream[..|stream| - 1]) + stream[|stream| - 1].arguments.GetOr("")
  }

  lemma ConcatNone()
    ensures Concat([]) == ""
  {
  }

  /** A slot holds the last id and name given, and all the arguments, of its own stream. */
  lemma {:induction false} SlotMeaning(deltas: seq<ToolCallDelta>, index: int)
    ensures var stream := StreamOf(index, deltas);
      && (index in Slots(deltas) <==> stream != [])
      && (index in Slots(deltas) ==>
        Slots(deltas)[index].id == LastId(stream) && Slots(deltas)[index].name == LastName(stream) &&
        Concat(Slots(deltas)[index].arguments) == AllArguments(stream))
  {
    hide Concat;
    if deltas != [] {
      var n := |deltas| - 1;
      var init, d := deltas[..n], deltas[n];
      SlotMeaning(init, index);
      if d.index == index {
        var before := StreamOf(index, init);
        assert (before + [d])[..|before|] == before;
        var parts := if index in Slots(init) then Slots(init)[index].arguments else [];
        if Truthy(d.arguments) {
          ConcatAppend(parts, [d.arguments.value]);
          ConcatOne(d.arguments.value);
        } else {
          assert parts + [] == parts;
          assert d.arguments.GetOr("") == "";
        }
        ConcatNone();
      } else {
        assert StreamOf(index, init) + [] == StreamOf(index, init);
      }
    }
  }

  lemma {:induction false} CollectMember(slots: map<int, Slot>, indices: seq<int>, c: ToolCall)
    requires forall i :: 0 <= i < |indices| ==> indices[i] in slots
    ensures c in Collect(slots, indices) <==>
      exists i :: 0 <= i < |indices| && Complete(slots[indices[i]]) && c == CallAt(indices[i], slots[indices[i]])
  {
    hide Complete;
    if indices != [] {
      var n := |indices| - 1;
      CollectMember(slots, indices[..n], c);
      assert forall i :: 0 <= i < n ==> indices[..n][i] == indices[i];
    }
  }

  lemma {:induction false} CollectBelow(slots: map<int, Slot>, indices: seq<int>, bound: int)
    requires forall i :: 0 <= i < |indices| ==> indices[i] in slots
    requires forall i :: 0 <= i < |indices| ==> indices[i] < bound
    ensures forall i :: 0 <= i < |Collect(slots, indices)| ==> Collect(slots, indices)[i].index < bound
  {
    hide Complete;
    if indices != [] {
      CollectBelow(slots, indices[..|indices| - 1], bound);
    }
  }

  lemma {:induction false} CollectIncreases(slots: map<int, Slot>, indices: seq<int>)
    requires forall i :: 0 <= i < |indices| ==> indices[i] in slots
    requires forall i, j :: 0 <= i < j < |indices| ==> indices[i] < indices[j]
    ensures forall i, j :: 0 <= i < j < |Collect(slots, indices)| ==> Collect(slots, indices)[i].index < Collect(slots, indices)[j].index
  {
    hide Complete;
    if indices != [] {
      var n := |indices| - 1;
      CollectIncreases(slots, indices[..n]);
      CollectBelow(slots, indices[..n], indices[n]);
    }
  }

  /**
    The calls of a turn, by strictly increasing index: one for each index whose stream names an id
    and a tool, with the last id, the last name and the arguments joined in order.
   */
  lemma CallsMeaning(deltas: seq<ToolCallDelta>, c: ToolCall)
    ensures var calls := CallsOf(Slots(deltas));
      && Increasing(calls)
      && (c in calls <==>
        var stream := StreamOf(c.index, deltas);
        && stream != [] && Truthy(LastId(stream)) && Truthy(LastName(stream))
        && c == ToolCall(LastId(stream).value, c.index, LastName(stream).value, AllArguments(stream)))
  {
    hide Concat, Collect, Slots, LastId, LastName, AllArguments, StreamOf;
    var slots := Slots(deltas);
    var indices := SortedKeys(slots.Keys);
    assert forall i :: 0 <= i < |indices| ==> indices[i] in indices;
    CollectMember(slots, indices, c);
    CollectIncreases(slots, indices);
    SlotMeaning(deltas, c.index);
    if c.index in slots {
      assert c.index in indices;
    }
  }

  ghost predicate Increasing(calls: seq<ToolCall>) {
    forall i, j :: 0 <= i < j < |calls| ==> calls[i].index < calls[j].index
  }

  lemma LastIsGreatest(a: seq<ToolCall>, c: ToolCall)
    requires Increasing(a) && c in a
    ensures c.index < a[|a| - 1].index || c == a[|a| - 1]
  {
  }

  lemma InitMember(a: seq<ToolCall>, c: ToolCall)
    requires Increasing(a) && a != []
    ensures c in a[..|a| - 1] <==> c in a && c != a[|a| - 1]
  {
    assert a == a[..|a| - 1] + [a[|a| - 1]];
  }

  lemma {:induction false} IncreasingDetermined(a: seq<ToolCall>, b: seq<ToolCall>)
    requires Increasing(a) && Increasing(b)
    requires forall c :: c in a <==> c in b
    ensures a == b
    decreases |a|
  {
    if a == [] {
      assert forall i :: 0 <= i < |b| ==> b[i] in a;
    } else {
      var m, n := |a| - 1, |b| - 1;
      assert a[m] in b;
      assert b[n] in a;
      LastIsGreatest(b, a[m]);
      LastIsGreatest(a, b[n]);
      forall c ensures c in a[..m] <==> c in b[..n] {
        InitMember(a, c);
        InitMember(b, c);
      }
      IncreasingDetermined(a[..m], b[..n]);
      assert a == a[..m] + [a[m]] && b == b[..n] + [b[n]];
    }
  }

  /** However the streams of the calls are interleaved, the same calls come out. */
  lemma InterleavingIsIrrelevant(a: seq<ToolCallDelta>, b: seq<ToolCallDelta>)
    requires forall i :: StreamOf(i, a) == StreamOf(i, b)
    ensures CallsOf(Slots(a)) == CallsOf(Slots(b))
  {
    hide CallsOf, Slots, LastId, LastName, AllArguments, StreamOf;
    forall c: ToolCall ensures c in CallsOf(Slots(a)) <==> c in CallsOf(Slots(b)) {
      CallsMeaning(a, c);
      CallsMeaning(b, c);
    }
    CallsMeaning(a, ToolCall("", 0, "", ""));
    CallsMeaning(b, ToolCall("", 0, "", ""));
    IncreasingDetermined(CallsOf(Slots(a)), CallsOf(Slots(b)));
  }

  // ---- the trace of tool calls ----

  predicate IsToolEvent(e: Event) {
    e.ToolCalled? || e.ToolResult?
  }

  /** Calls and results alternate, each result being that of the call before it. */
  ghost predicate Paired(events: seq<Event>, made: nat) {
    Alternating(Filter(IsToolEvent, events), made)
  }

  ghost predicate Alternating(tools: seq<Event>, made: nat) {
    && |tools| == 2 * made
    && forall k :: 0 <= k < made ==> tools[2 * k].ToolCalled? && tools[2 * k + 1] == ToolResult(tools[2 * k].round, tools[2 * k].tool)
  }

  predicate IsFinal(e: Event) {
    e.Final?
  }

  /** No `final` yet, and the calls so far paired with their results. */
  ghost predicate Traced(events: seq<Event>, made: nat) {
    Paired(events, made) && Filter(IsFinal, events) == []
  }

  /** Events other than of tools, and not final. */
  ghost predicate Quiet(events: seq<Event>) {
    forall i :: 0 <= i < |events| ==> !IsToolEvent(events[i]) && !events[i].Final?
  }

  lemma {:induction false} FilterNone<T>(keep: T -> bool, xs: seq<T>)
    requires forall i :: 0 <= i < |xs| ==> !keep(xs[i])
    ensures Filter(keep, xs) == []
  {
    if xs != [] {
      FilterNone(keep, xs[..|xs| - 1]);
    }
  }

  lemma QuietStep(events: seq<Event>, made: nat, more: seq<Event>)
    requires Traced(events, made) && Quiet(more)
    ensures Traced(events + more, made)
  {
    FilterConcat(IsToolEvent, events, more);
    FilterConcat(IsFinal, events, more);
    FilterNone(IsToolEvent, more);
    FilterNone(IsFinal, more);
    assert Filter(IsToolEvent, events) + [] == Filter(IsToolEvent, events);
  }

  lemma {:induction false} TokensAreQuiet(round: nat, chunks: seq<StreamChunk>)
    ensures Quiet(Tokens(round, chunks))
  {
    if chunks != [] {
      TokensAreQuiet(round, chunks[..|chunks| - 1]);
    }
  }

  lemma AlternatingStep(tools: seq<Event>, made: nat, round: nat, tool: string)
    requires Alternating(tools, made)
    ensures Alternating(tools + [ToolCalled(round, tool), ToolResult(round, tool)], made + 1)
  {
    var all := tools + [ToolCalled(round, tool), ToolResult(round, tool)];
    forall k | 0 <= k < made ensures all[2 * k] == tools[2 * k] && all[2 * k + 1] == tools[2 * k + 1] {
    }
  }

  lemma PairStep(events: seq<Event>, made: nat, round: nat, tool: string)
    requires Traced(events, made)
    ensures Traced(events + [ToolCalled(round, tool), ToolResult(round, tool)], made + 1)
  {
    hide Filter, Alternating;
    var two := [ToolCalled(round, tool), ToolResult(round, tool)];
    FilterConcat(IsToolEvent, events, two);
    FilterConcat(IsFinal, events, two);
    FilterAll(IsToolEvent, two);
    FilterNone(IsFinal, two);
    AlternatingStep(Filter(IsToolEvent, events), made, round, tool);
  }

  /** What executing one known call does, whichever tool it is. */
  lemma ExecutedShape(h: Host, round: nat, s: Loop, call: ToolCall)
    requires Known(call.name)
    ensures var t := Executed(h, round, s, call);
      && t.events == s.events + [ToolCalled(round, call.name), ToolResult(round, call.name)]
      && t.made == s.made + 1 && t.asked == s.asked && t.content == s.content
      && |t.messages| == |s.messages| + 1 && t.messages[|s.messages|].ToolReply?
      && t.messages == s.messages + [ToolReply(call.id, t.messages[|s.messages|].content)]
  {
    hide Duplicate, NormSet, Known, EmptyResultText;
  }

  lemma {:induction false} ExecutedTraced(h: Host, round: nat, s: Loop, calls: seq<ToolCall>)
    requires Traced(s.events, s.made)
    ensures var t := ExecutedAll(h, round, s, calls); Traced(t.events, t.made) && t.asked == s.asked && t.content == s.content
    decreases |calls|
  {
    hide Traced, Executed, Known;
    if calls != [] {
      if Known(calls[0].name) {
        ExecutedShape(h, round, s, calls[0]);
        PairStep(s.events, s.made, round, calls[0].name);
        ExecutedTraced(h, round, Executed(h, round, s, calls[0]), calls[1..]);
      } else {
        QuietStep(s.events, s.made, [Error(round, UnknownTool(calls[0].name))]);
      }
    }
  }

  lemma HeardTraced(c: Request, s: Loop, round: nat, turn: Turn)
    requires Traced(s.events, s.made)
    ensures var t := Heard(c, s, round, turn); Traced(t.events, t.made)
  {
    hide Traced, Tokens, PhaseOf;
    var started := [RoundStart(round, PhaseOf(c, round), Choice(c, round))];
    QuietStep(s.events, s.made, started);
    TokensAreQuiet(round, turn.chunks);
    QuietStep(s.events + started, s.made, Tokens(round, turn.chunks));
  }

  lemma ActedTraced(h: Host, round: nat, s: Loop, content: string, calls: seq<ToolCall>)
    requires Traced(s.events, s.made)
    ensures var t := Acted(h, round, s, content, calls); Traced(t.events, t.made) && t.asked == s.asked && t.content == s.content
  {
    hide Traced, ExecutedAll;
    var s' := s.(messages := s.messages + [Assistant(content, calls)]);
    ExecutedTraced(h, round, s', calls);
    var t := ExecutedAll(h, round, s', calls);
    QuietStep(t.events, t.made, [RoundEnd(round, AfterTools(|calls|))]);
  }

  /** The k-th answer of the provider. */
  function TurnAt(p: Provider, s: Loop, k: nat): Turn
    requires k < |s.asked|
  {
    p(k, s.asked[k].0, s.asked[k].1)
  }

  /** Each round asked so far was asked with its tool choice, did not fail, and called tools. */
  ghost predicate Underway(p: Provider, c: Request, s: Loop, round: nat) {
    && |s.asked| == round
    && s.content == ""
    && forall k :: 0 <= k < round ==>
      s.asked[k].1 == Choice(c, k) && !TurnAt(p, s, k).failed && TurnCalls(TurnAt(p, s, k)) != []
  }

  /** How every run ends, for any provider and host. */
  ghost predicate EndsWell(p: Provider, c: Request, s: Loop) {
    var n := |s.asked|;
    && 1 <= n <= Rounds(c) && |s.events| > 0
    && (forall k :: 0 <= k < n ==> s.asked[k].1 == Choice(c, k))
    && (forall k :: 0 <= k < n - 1 ==> !TurnAt(p, s, k).failed && TurnCalls(TurnAt(p, s, k)) != [])
    && var last, turn := s.events[|s.events| - 1], TurnAt(p, s, n - 1);
    && Paired(s.events, s.made)
    && Filter(IsFinal, s.events[..|s.events| - 1]) == []
    && (if turn.failed then last == Error(n - 1, ProviderError)
        else last == Final(if TurnCalls(turn) == [] then |Content(turn.chunks)| else 0, s.metas, s.made))
    && (!turn.failed && TurnCalls(turn) != [] ==> n == Rounds(c))
  }

  lemma LastStep(events: seq<Event>, made: nat, last: Event)
    requires Traced(events, made) && !IsToolEvent(last)
    ensures Paired(events + [last], made)
    ensures (events + [last])[..|events + [last]| - 1] == events && Filter(IsFinal, events) == []
  {
    FilterConcat(IsToolEvent, events, [last]);
    FilterNone(IsToolEvent, [last]);
    assert Filter(IsToolEvent, events) + [] == Filter(IsToolEvent, events);
  }

  /** Just asked: the rounds before called tools, and this one answered `turn`. */
  ghost predicate JustAsked(p: Provider, c: Request, s: Loop, round: nat, turn: Turn) {
    && |s.asked| == round + 1 <= Rounds(c)
    && s.content == ""
    && (forall k :: 0 <= k <= round ==> s.asked[k].1 == Choice(c, k))
    && (forall k :: 0 <= k < round ==> !TurnAt(p, s, k).failed && TurnCalls(TurnAt(p, s, k)) != [])
    && TurnAt(p, s, round) == turn
  }

  lemma HeardJustAsked(p: Provider, c: Request, s: Loop, round: nat, turn: Turn)
    requires round < Rounds(c) && Underway(p, c, s, round) && turn == p(round, s.messages, Choice(c, round))
    ensures JustAsked(p, c, Heard(c, s, round, turn), round, turn)
  {
    hide TurnCalls, Choice, PhaseOf, Tokens;
    var t := Heard(c, s, round, turn);
    assert forall k :: 0 <= k < round ==> TurnAt(p, t, k) == TurnAt(p, s, k);
  }

  lemma JustAskedFrame(p: Provider, c: Request, s: Loop, t: Loop, round: nat, turn: Turn)
    requires JustAsked(p, c, s, round, turn) && t.asked == s.asked && t.content == s.content
    ensures JustAsked(p, c, t, round, turn)
  {
    hide TurnCalls, Choice;
    assert forall k :: 0 <= k <= round ==> TurnAt(p, t, k) == TurnAt(p, s, k);
  }

  lemma FailureEndsWell(p: Provider, c: Request, s: Loop, round: nat, turn: Turn)
    requires JustAsked(p, c, s, round, turn) && turn.failed && Traced(s.events, s.made)
    ensures EndsWell(p, c, s.(events := s.events + [Error(round, ProviderError)]))
  {
    hide Traced, Paired, TurnCalls, Content, Choice;
    var t := s.(events := s.events + [Error(round, ProviderError)]);
    LastStep(s.events, s.made, Error(round, ProviderError));
    JustAskedFrame(p, c, s, t, round, turn);
  }

  lemma TextEndsWell(p: Provider, c: Request, s: Loop, round: nat, turn: Turn)
    requires JustAsked(p, c, s, round, turn) && !turn.failed && TurnCalls(turn) == [] && Traced(s.events, s.made)
    ensures EndsWell(p, c, Finished(Wrote(round, s, Content(turn.chunks))))
  {
    hide Traced, Paired, TurnCalls, Content, Choice;
    var content := Content(turn.chunks);
    var u := Wrote(round, s, content);
    var t := Finished(u);
    QuietStep(s.events, s.made, [RoundEnd(round, Stop(|content|))]);
    LastStep(u.events, u.made, Final(|content|, u.metas, u.made));
    JustAskedFrame(p, c, s, t.(content := ""), round, turn);
    assert forall k :: 0 <= k <= round ==> TurnAt(p, t, k) == TurnAt(p, t.(content := ""), k);
  }

  lemma SpentEndsWell(p: Provider, c: Request, s: Loop)
    requires Underway(p, c, s, Rounds(c)) && Traced(s.events, s.made)
    ensures EndsWell(p, c, Finished(s))
  {
    hide Traced, Paired, TurnCalls, Content, Choice;
    LastStep(s.events, s.made, Final(0, s.metas, s.made));
    assert forall k :: 0 <= k < |s.asked| ==> TurnAt(p, Finished(s), k) == TurnAt(p, s, k);
  }

  lemma {:induction false} RunFromEndsWell(p: Provider, h: Host, c: Request, s: Loop, round: nat)
    requires round <= Rounds(c) && Underway(p, c, s, round) && Traced(s.events, s.made)
    ensures EndsWell(p, c, RunFrom(p, h, c, s, round))
    decreases Rounds(c) - round
  {
    hide Traced, EndsWell, TurnCalls, Content, Acted, Heard, Choice, Wrote, Finished;
    if round == Rounds(c) {
      SpentEndsWell(p, c, s);
    } else {
      var turn := p(round, s.messages, Choice(c, round));
      var t, calls, content := Heard(c, s, round, turn), TurnCalls(turn), Content(turn.chunks);
      HeardTraced(c, s, round, turn);
      HeardJustAsked(p, c, s, round, turn);
      if turn.failed {
        FailureEndsWell(p, c, t, round, turn);
      } else if calls == [] {
        TextEndsWell(p, c, t, round, turn);
      } else {
        var u := Acted(h, round, t, content, calls);
        ActedTraced(h, round, t, content, calls);
        JustAskedFrame(p, c, t, u, round, turn);
        RunFromEndsWell(p, h, c, u, round + 1);
      }
    }
  }

  /**
    Against any provider and host a run makes at most max(1, max_rounds) requests, pairs every tool
    call with its result and counts them, and ends with its only `final`, or with the provider's error.
   */
  lemma RunEndsWell(p: Provider, h: Host, c: Request)
    ensures EndsWell(p, c, Run(p, h, c))
  {
    RunFromEndsWell(p, h, c, Start(c), 0);
  }

  /** A round is followed by another exactly when it called tools and rounds are left: an unknown tool does not matter. */
  lemma GoesOnWhen(p: Provider, h: Host, c: Request, k: nat)
    requires k < |Run(p, h, c).asked|
    ensures var s := Run(p, h, c);
      k + 1 < |s.asked| <==> !TurnAt(p, s, k).failed && TurnCalls(TurnAt(p, s, k)) != [] && k + 1 < Rounds(c)
  {
    hide Run, TurnCalls, Paired;
    RunEndsWell(p, h, c);
  }

  function AsksUnknown(round: nat, messages: seq<Message>, choice: ToolChoice): Turn {
    Turn([StreamChunk("", Some(LOOKUP))], false)
  }

  /** The request after an unknown tool, which the source means to stop at. */
  lemma UnknownToolDoesNotStop(h: Host, c: Request)
    requires c.maxRounds == 2
    ensures |Run(AsksUnknown, h, c).asked| == 2
    ensures exists i :: 0 <= i < |Run(AsksUnknown, h, c).events| && Run(AsksUnknown, h, c).events[i] == Error(0, UnknownTool("lookup"))
  {
    var call := ToolCall("1", 0, "lookup", "");
    UnknownIsTheCall();
    var turn := AsksUnknown(0, Base(c), Choice(c, 0));
    hide TurnCalls, Base, Tokens, PhaseOf, Content;
    var t := Heard(c, Start(c), 0, turn);
    var u := Acted(h, 0, t, Content(turn.chunks), [call]);
    assert u.events[|t.events|] == Error(0, UnknownTool("lookup"));
    var v := Heard(c, u, 1, turn);
    var w := Acted(h, 1, v, Content(turn.chunks), [call]);
    assert Run(AsksUnknown, h, c) == RunFrom(AsksUnknown, h, c, u, 1) == RunFrom(AsksUnknown, h, c, w, 2) == Finished(w);
    assert Finished(w).events[|t.events|] == Error(0, UnknownTool("lookup"));
  }

  lemma OneDelta(text: string, d: ToolCallDelta)
    ensures Deltas([StreamChunk(text, Some(d))]) == [d] && Content([StreamChunk(text, Some(d))]) == text
    ensures StreamOf(d.index, [d]) == [d] && forall i :: i != d.index ==> StreamOf(i, [d]) == []
    ensures LastId([d]) == d.id && LastName([d]) == d.name && AllArguments([d]) == d.arguments.GetOr("")
  {
    var chunks := [StreamChunk(text, Some(d))];
    assert chunks[..0] == [] && [d][..0] == [];
    assert AllArguments([]) == "";
  }

  lemma UnknownIsTheCall()
    ensures forall r: nat, m, ch :: TurnCalls(AsksUnknown(r, m, ch)) == [ToolCall("1", 0, "lookup", "")]
  {
    OneCall("");
  }

  const LOOKUP := ToolCallDelta(0, Some("1"), Some("lookup"), None)

  lemma OneCall(text: string)
    ensures TurnCalls(Turn([StreamChunk(text, Some(LOOKUP))], false)) == [ToolCall("1", 0, "lookup", "")]
    ensures Content([StreamChunk(text, Some(LOOKUP))]) == text
  {
    var d := LOOKUP;
    OneDelta(text, d);
    hide Deltas, StreamOf, LastId, LastName, AllArguments, Slots, CallsOf;
    var c := ToolCall("1", 0, "lookup", "");
    var calls := CallsOf(Slots([d]));
    CallsMeaning([d], c);
    forall x ensures x in calls <==> x in [c] {
      CallsMeaning([d], x);
    }
    IncreasingDetermined(calls, [c]);
  }

  // ---- the message history ----

  /** An assistant message with tool calls and the texts of the replies after it. */
  datatype Block = Block(content: string, calls: seq<ToolCall>, replies: seq<string>)

  /** How many calls come before the first unknown tool. */
  function KnownPrefix(calls: seq<ToolCall>): (n: nat)
    ensures n <= |calls|
  {
    if calls == [] || !Known(calls[0].name) then 0 else 1 + KnownPrefix(calls[1..])
  }

  ghost predicate Answers(b: Block) {
    b.calls != [] && |b.replies| == KnownPrefix(b.calls) <= |b.calls|
  }

  function Replies(calls: seq<ToolCall>, texts: seq<string>): seq<Message>
    requires |texts| <= |calls|
  {
    seq(|texts|, k requires 0 <= k < |texts| => ToolReply(calls[k].id, texts[k]))
  }

  ghost function Rendered(blocks: seq<Block>): seq<Message>
    requires forall k :: 0 <= k < |blocks| ==> Answers(blocks[k])
  {
    if blocks == [] then []
    else
      var b := blocks[|blocks| - 1];
      assert Answers(b);
      Rendered(blocks[..|blocks| - 1]) + [Assistant(b.content, b.calls)] + Replies(b.calls, b.replies)
  }

  /** The texts the host answers a round's calls with. */
  function Texts(h: Host, round: nat, s: Loop, calls: seq<ToolCall>): (r: seq<string>)
    ensures |r| == KnownPrefix(calls) <= |calls|
    decreases |calls|
  {
    if calls == [] || !Known(calls[0].name) then []
    else
      ExecutedShape(h, round, s, calls[0]);
      var t := Executed(h, round, s, calls[0]);
      [t.messages[|s.messages|].content] + Texts(h, round, t, calls[1..])
  }

  lemma {:induction false} ExecutedReplies(h: Host, round: nat, s: Loop, calls: seq<ToolCall>)
    ensures ExecutedAll(h, round, s, calls).messages == s.messages + Replies(calls, Texts(h, round, s, calls))
    decreases |calls|
  {
    hide Executed, Known;
    if calls != [] && Known(calls[0].name) {
      var t := Executed(h, round, s, calls[0]);
      ExecutedShape(h, round, s, calls[0]);
      ExecutedReplies(h, round, t, calls[1..]);
      var texts := Texts(h, round, s, calls);
      assert texts[1..] == Texts(h, round, t, calls[1..]);
      assert Replies(calls, texts) == [ToolReply(calls[0].id, texts[0])] + Replies(calls[1..], texts[1..]);
    }
  }

  /** Each block is the calls and content of its round, answered. */
  ghost predicate BlocksMatch(p: Provider, s: Loop, blocks: seq<Block>) {
    && |blocks| <= |s.asked|
    && forall k :: 0 <= k < |blocks| ==>
      Answers(blocks[k]) && blocks[k].calls == TurnCalls(TurnAt(p, s, k)) && blocks[k].content == Content(TurnAt(p, s, k).chunks)
  }

  /** Each request saw the opening messages and the blocks of the rounds before it. */
  ghost predicate AskedMatch(c: Request, s: Loop, blocks: seq<Block>)
    requires forall k :: 0 <= k < |blocks| ==> Answers(blocks[k])
  {
    && |s.asked| <= |blocks| + 1
    && forall k :: 0 <= k < |s.asked| ==> s.asked[k].0 == Base(c) + Rendered(blocks[..k])
  }

  /** The messages are the opening ones and a block per round that called tools, as each request saw them. */
  ghost predicate Disciplined(p: Provider, c: Request, s: Loop, blocks: seq<Block>) {
    && BlocksMatch(p, s, blocks) && AskedMatch(c, s, blocks)
    && s.messages == Base(c) + Rendered(blocks)
    && (|blocks| < |s.asked| ==> TurnAt(p, s, |blocks|).failed || TurnCalls(TurnAt(p, s, |blocks|)) == [])
  }

  lemma RenderedStep(blocks: seq<Block>, b: Block)
    requires Answers(b) && forall k :: 0 <= k < |blocks| ==> Answers(blocks[k])
    ensures forall k :: 0 <= k < |blocks + [b]| ==> Answers((blocks + [b])[k])
    ensures Rendered(blocks + [b]) == Rendered(blocks) + [Assistant(b.content, b.calls)] + Replies(b.calls, b.replies)
    ensures forall k :: 0 <= k <= |blocks| ==> (blocks + [b])[..k] == blocks[..k]
  {
    hide Answers;
    var all := blocks + [b];
    assert all[..|all| - 1] == blocks && all[|all| - 1] == b;
    forall k | 0 <= k < |all| ensures Answers(all[k]) {
      assert k < |blocks| ==> all[k] == blocks[k];
    }
  }

  lemma BlockStep(p: Provider, h: Host, c: Request, s: Loop, round: nat, blocks: seq<Block>, b: Block)
    requires |blocks| == |s.asked| == round < Rounds(c) && Disciplined(p, c, s, blocks)
    requires var turn := p(round, s.messages, Choice(c, round));
      && !turn.failed && TurnCalls(turn) != []
      && b.calls == TurnCalls(turn) && b.content == Content(turn.chunks)
      && b.replies == Texts(h, round, Opened(c, s, round, turn), b.calls)
    ensures var turn := p(round, s.messages, Choice(c, round));
      var u := Acted(h, round, Heard(c, s, round, turn), b.content, b.calls);
      |u.asked| == round + 1 && Disciplined(p, c, u, blocks + [b])
  {
    hide TurnCalls, Content, Choice, PhaseOf, Tokens, Base, ExecutedAll, Replies, Texts, Rendered, KnownPrefix;
    var turn := p(round, s.messages, Choice(c, round));
    var open := Opened(c, s, round, turn);
    var u := Acted(h, round, Heard(c, s, round, turn), b.content, b.calls);
    ExecutedReplies(h, round, open, b.calls);
    ExecutedAsked(h, round, open, b.calls);
    RenderedStep(blocks, b);
    assert u.asked == s.asked + [(s.messages, Choice(c, round))];
    assert u.messages == s.messages + [Assistant(b.content, b.calls)] + Replies(b.calls, b.replies);
    assert u.messages == Base(c) + (Rendered(blocks) + [Assistant(b.content, b.calls)] + Replies(b.calls, b.replies));
    Extended(p, c, s, u, round, blocks, b);
  }

  lemma ExtendedBlocks(p: Provider, s: Loop, u: Loop, round: nat, blocks: seq<Block>, b: Block)
    requires |blocks| == |s.asked| == round && |u.asked| == round + 1 && BlocksMatch(p, s, blocks) && Answers(b)
    requires forall k :: 0 <= k < round ==> u.asked[k] == s.asked[k]
    requires b.calls == TurnCalls(TurnAt(p, u, round)) && b.content == Content(TurnAt(p, u, round).chunks)
    ensures BlocksMatch(p, u, blocks + [b])
  {
    hide TurnCalls, Content, Answers;
    forall k | 0 <= k < round ensures TurnAt(p, u, k) == TurnAt(p, s, k) && (blocks + [b])[k] == blocks[k] {
    }
  }

  lemma ExtendedAsked(c: Request, s: Loop, u: Loop, round: nat, blocks: seq<Block>, b: Block)
    requires |blocks| == |s.asked| == round && Answers(b) && forall k :: 0 <= k < |blocks| ==> Answers(blocks[k])
    requires AskedMatch(c, s, blocks) && s.messages == Base(c) + Rendered(blocks)
    requires u.asked == s.asked + [(s.messages, Choice(c, round))]
    ensures forall k :: 0 <= k < |blocks + [b]| ==> Answers((blocks + [b])[k])
    ensures AskedMatch(c, u, blocks + [b])
  {
    hide Base, Rendered, Answers, Choice;
    RenderedStep(blocks, b);
    var all := blocks + [b];
    forall k | 0 <= k < |u.asked| ensures u.asked[k].0 == Base(c) + Rendered(all[..k]) {
      assert all[..k] == blocks[..k];
      assert blocks[..round] == blocks;
    }
  }

  lemma Extended(p: Provider, c: Request, s: Loop, u: Loop, round: nat, blocks: seq<Block>, b: Block)
    requires |blocks| == |s.asked| == round && Disciplined(p, c, s, blocks) && Answers(b)
    requires u.asked == s.asked + [(s.messages, Choice(c, round))]
    requires b.calls == TurnCalls(TurnAt(p, u, round)) && b.content == Content(TurnAt(p, u, round).chunks)
    requires forall k :: 0 <= k < |blocks + [b]| ==> Answers((blocks + [b])[k])
    requires u.messages == Base(c) + Rendered(blocks + [b])
    ensures Disciplined(p, c, u, blocks + [b])
  {
    hide TurnCalls, Content, Base, Rendered, Answers, AskedMatch, Choice;
    assert forall k :: 0 <= k < round ==> u.asked[k] == s.asked[k];
    ExtendedBlocks(p, s, u, round, blocks, b);
    ExtendedAsked(c, s, u, round, blocks, b);
  }

  /** The state in which the calls of a round are executed. */
  function Opened(c: Request, s: Loop, round: nat, turn: Turn): Loop {
    var t := Heard(c, s, round, turn);
    t.(messages := t.messages + [Assistant(Content(turn.chunks), TurnCalls(turn))])
  }

  lemma {:induction false} ExecutedAsked(h: Host, round: nat, s: Loop, calls: seq<ToolCall>)
    ensures ExecutedAll(h, round, s, calls).asked == s.asked
    decreases |calls|
  {
    hide Executed, Known;
    if calls != [] && Known(calls[0].name) {
      ExecutedShape(h, round, s, calls[0]);
      ExecutedAsked(h, round, Executed(h, round, s, calls[0]), calls[1..]);
    }
  }

  lemma LastRoundDisciplined(p: Provider, c: Request, s: Loop, t: Loop, round: nat, blocks: seq<Block>)
    requires |blocks| == |s.asked| == round && Disciplined(p, c, s, blocks)
    requires t.messages == s.messages && t.asked == s.asked + [(s.messages, Choice(c, round))]
    requires var turn := p(round, s.messages, Choice(c, round)); turn.failed || TurnCalls(turn) == []
    ensures Disciplined(p, c, t, blocks)
  {
    hide TurnCalls, Content, Choice, Base;
    assert blocks[..round] == blocks;
    assert forall k :: 0 <= k < round ==> TurnAt(p, t, k) == TurnAt(p, s, k);
    assert TurnAt(p, t, round) == p(round, s.messages, Choice(c, round));
  }

  lemma FinishedDisciplined(p: Provider, c: Request, s: Loop, blocks: seq<Block>)
    requires Disciplined(p, c, s, blocks)
    ensures Disciplined(p, c, Finished(s), blocks)
  {
    hide TurnCalls, Content, Base, Answers;
    assert forall k :: 0 <= k < |s.asked| ==> TurnAt(p, Finished(s), k) == TurnAt(p, s, k);
  }

  lemma StartDisciplined(p: Provider, c: Request)
    ensures Disciplined(p, c, Start(c), [])
  {
  }

  /** Every call is answered exactly when no tool is unknown. */
  lemma {:induction false} AllAnsweredWhen(calls: seq<ToolCall>)
    ensures KnownPrefix(calls) == |calls| <==> forall i :: 0 <= i < |calls| ==>
      calls[i].name == "search_knowledge" || calls[i].name == "update_scene_state" || calls[i].name == "propose_context_update"
  {
    if calls != [] {
      AllAnsweredWhen(calls[1..]);
      assert forall i :: 0 < i < |calls| ==> calls[i] == calls[1..][i - 1];
    }
  }

  // ---- retrieval without repetition ----

  /** The normalised queries of the retrievals made. */
  function Norms(h: Host, searched: seq<seq<string>>): set<string> {
    if searched == [] then {}
    else Norms(h, searched[..|searched| - 1]) + NormSet(h, searched[|searched| - 1])
  }

  /** What was seen is what was searched, and each retrieval with queries searched something new. */
  ghost predicate Fresh(h: Host, s: Loop) {
    && s.seen == Norms(h, s.searched)
    && forall k :: 0 <= k < |s.searched| && s.searched[k] != [] ==> !(NormSet(h, s.searched[k]) <= Norms(h, s.searched[..k]))
  }

  lemma NormSetEmpty(h: Host, queries: seq<string>)
    ensures NormSet(h, queries) == {} <==> queries == []
  {
    if queries != [] {
      assert queries[0] in queries;
      assert Norm(h, queries[0]) in NormSet(h, queries);
    }
  }

  /** A search call is skipped exactly when it has queries and all of them, normalised, were seen. */
  lemma SkippedWhen(h: Host, round: nat, s: Loop, call: ToolCall)
    ensures var queries := h.queries(call.arguments);
      Searched(h, round, s, call).searched == s.searched <==> queries != [] && NormSet(h, queries) <= s.seen
  {
    var queries := h.queries(call.arguments);
    var norms := NormSet(h, queries);
    NormSetEmpty(h, queries);
    if norms <= s.seen {
      assert norms * s.seen == norms;
    } else {
      var q :| q in norms && q !in s.seen;
      assert q in norms - norms * s.seen;
    }
    if Duplicate(s.seen, norms) {
    } else {
      assert |s.searched + [queries]| != |s.searched|;
    }
  }

  lemma SearchedFresh(h: Host, round: nat, s: Loop, call: ToolCall)
    requires Fresh(h, s)
    ensures Fresh(h, Searched(h, round, s, call))
  {
    hide NormSet, EmptyResultText;
    var queries := h.queries(call.arguments);
    var norms := NormSet(h, queries);
    SkippedWhen(h, round, s, call);
    var t := Searched(h, round, s, call);
    if t.searched == s.searched {
      assert s.seen + norms == s.seen;
    } else {
      assert t.searched == s.searched + [queries];
      assert t.searched[..|s.searched|] == s.searched;
      assert forall k :: 0 <= k <= |s.searched| ==> t.searched[..k] == s.searched[..k];
      assert s.searched[..|s.searched|] == s.searched;
    }
  }

  lemma {:induction false} ExecutedFresh(h: Host, round: nat, s: Loop, calls: seq<ToolCall>)
    requires Fresh(h, s)
    ensures Fresh(h, ExecutedAll(h, round, s, calls))
    decreases |calls|
  {
    hide Norms, Searched;
    if calls != [] && Known(calls[0].name) {
      if calls[0].name == SEARCH_KNOWLEDGE {
        SearchedFresh(h, round, s, calls[0]);
      }
      ExecutedFresh(h, round, Executed(h, round, s, calls[0]), calls[1..]);
    }
  }

  lemma {:induction false} RunFromFresh(p: Provider, h: Host, c: Request, s: Loop, round: nat)
    requires round <= Rounds(c) && Fresh(h, s)
    ensures Fresh(h, RunFrom(p, h, c, s, round))
    decreases Rounds(c) - round
  {
    hide Norms, NormSet, ExecutedAll, TurnCalls, Content, PhaseOf, Tokens, Choice;
    if round != Rounds(c) {
      var turn := p(round, s.messages, Choice(c, round));
      var t, calls := Heard(c, s, round, turn), TurnCalls(turn);
      if !turn.failed && calls != [] {
        ExecutedFresh(h, round, t.(messages := t.messages + [Assistant(Content(turn.chunks), calls)]), calls);
        RunFromFresh(p, h, c, Acted(h, round, t, Content(turn.chunks), calls), round + 1);
      }
    }
  }

  predicate HasQueries(queries: seq<string>) {
    queries != []
  }

  lemma {:induction false} FreshBound(h: Host, searched: seq<seq<string>>)
    requires forall k :: 0 <= k < |searched| && searched[k] != [] ==> !(NormSet(h, searched[k]) <= Norms(h, searched[..k]))
    ensures |Filter(HasQueries, searched)| <= |Norms(h, searched)|
  {
    if searched != [] {
      hide NormSet;
      var n := |searched| - 1;
      var init := searched[..n];
      assert forall k :: 0 <= k < n ==> init[..k] == searched[..k];
      FreshBound(h, init);
      var before, more := Norms(h, init), NormSet(h, searched[n]);
      if searched[n] == [] {
        LargerUnion(before, more);
      } else {
        StrictlyLarger(before, more);
      }
    }
  }

  lemma LargerUnion(a: set<string>, b: set<string>)
    ensures |a| <= |a + b|
  {
    assert a + b == a + (b - a);
    assert |a + (b - a)| == |a| + |b - a|;
  }

  lemma StrictlyLarger(a: set<string>, b: set<string>)
    requires !(b <= a)
    ensures |a| + 1 <= |a + b|
  {
    var x :| x in b && x !in a;
    LargerUnion(a + {x}, b);
    assert a + {x} + b == a + b;
  }

  /** Retrievals with queries never outnumber the distinct normalised queries, and none repeats the ones before. */
  lemma RetrievalsAreBounded(p: Provider, h: Host, c: Request)
    ensures var s := Run(p, h, c);
      && |Filter(HasQueries, s.searched)| <= |s.seen|
      && s.seen == Norms(h, s.searched)
      && forall k :: 0 <= k < |s.searched| && s.searched[k] != [] ==> !(NormSet(h, s.searched[k]) <= Norms(h, s.searched[..k]))
  {
    hide NormSet, RunFrom;
    RunFromFresh(p, h, c, Start(c), 0);
    FreshBound(h, Run(p, h, c).searched);
  }

  // ---- the collected text ----

  /** What `run` collects from the token events. */
  function TokenText(events: seq<Event>): string {
    if events == [] then ""
    else
      var last := events[|events| - 1];
      TokenText(events[..|events| - 1]) + if last.Token? then last.content else ""
  }

  /** The content of the first `n` answers. */
  function Spoken(p: Provider, s: Loop, n: nat): string
    requires n <= |s.asked|
  {
    if n == 0 then "" else Spoken(p, s, n - 1) + Content(TurnAt(p, s, n - 1).chunks)
  }

  lemma {:induction false} TokenTextConcat(a: seq<Event>, b: seq<Event>)
    ensures TokenText(a + b) == TokenText(a) + TokenText(b)
  {
    if b == [] {
      assert a + b == a;
    } else {
      var n := |b| - 1;
      TokenTextConcat(a, b[..n]);
      assert (a + b)[..|a + b| - 1] == a + b[..n];
    }
  }

  lemma {:induction false} NoTokens(events: seq<Event>)
    requires forall i :: 0 <= i < |events| ==> !events[i].Token?
    ensures TokenText(events) == ""
  {
    if events != [] {
      NoTokens(events[..|events| - 1]);
    }
  }

  lemma Silent(events: seq<Event>, more: seq<Event>)
    requires forall i :: 0 <= i < |more| ==> !more[i].Token?
    ensures TokenText(events + more) == TokenText(events)
  {
    TokenTextConcat(events, more);
    NoTokens(more);
  }

  lemma {:induction false} TokensSpeak(round: nat, chunks: seq<StreamChunk>)
    ensures TokenText(Tokens(round, chunks)) == Content(chunks)
  {
    if chunks != [] {
      var n := |chunks| - 1;
      TokensSpeak(round, chunks[..n]);
      var before := Tokens(round, chunks[..n]);
      if chunks[n].content != "" {
        assert (before + [Token(round, chunks[n].content)])[..|before|] == before;
      } else {
        assert before + [] == before;
      }
    }
  }

  lemma HeardSpeaks(c: Request, s: Loop, round: nat, turn: Turn)
    ensures TokenText(Heard(c, s, round, turn).events) == TokenText(s.events) + Content(turn.chunks)
  {
    hide Tokens, TokenText, PhaseOf, Choice;
    var started := [RoundStart(round, PhaseOf(c, round), Choice(c, round))];
    Silent(s.events, started);
    TokenTextConcat(s.events + started, Tokens(round, turn.chunks));
    TokensSpeak(round, turn.chunks);
  }

  lemma {:induction false} ExecutedSilent(h: Host, round: nat, s: Loop, calls: seq<ToolCall>)
    ensures TokenText(ExecutedAll(h, round, s, calls).events) == TokenText(s.events)
    decreases |calls|
  {
    hide TokenText, Executed, Known;
    if calls != [] {
      if Known(calls[0].name) {
        ExecutedShape(h, round, s, calls[0]);
        Silent(s.events, [ToolCalled(round, calls[0].name), ToolResult(round, calls[0].name)]);
        ExecutedSilent(h, round, Executed(h, round, s, calls[0]), calls[1..]);
      } else {
        Silent(s.events, [Error(round, UnknownTool(calls[0].name))]);
      }
    }
  }

  lemma ActedSilent(h: Host, round: nat, s: Loop, content: string, calls: seq<ToolCall>)
    ensures var u := Acted(h, round, s, content, calls); TokenText(u.events) == TokenText(s.events) && u.asked == s.asked
  {
    hide TokenText, ExecutedAll;
    var t := s.(messages := s.messages + [Assistant(content, calls)]);
    ExecutedSilent(h, round, t, calls);
    ExecutedAsked(h, round, t, calls);
    Silent(ExecutedAll(h, round, t, calls).events, [RoundEnd(round, AfterTools(|calls|))]);
  }

  lemma {:induction false} SpokenFrame(p: Provider, s: Loop, t: Loop, n: nat)
    requires n <= |s.asked| <= |t.asked| && forall k :: 0 <= k < n ==> s.asked[k] == t.asked[k]
    ensures Spoken(p, s, n) == Spoken(p, t, n)
  {
    hide Content;
    if n > 0 {
      SpokenFrame(p, s, t, n - 1);
    }
  }

  lemma HeardSpoken(p: Provider, c: Request, s: Loop, round: nat)
    requires |s.asked| == round < Rounds(c) && TokenText(s.events) == Spoken(p, s, round)
    ensures var t := Heard(c, s, round, p(round, s.messages, Choice(c, round)));
      |t.asked| == round + 1 && TokenText(t.events) == Spoken(p, t, round + 1)
  {
    hide Content, TokenText, Tokens, PhaseOf, Choice;
    var turn := p(round, s.messages, Choice(c, round));
    var t := Heard(c, s, round, turn);
    HeardSpeaks(c, s, round, turn);
    SpokenFrame(p, s, t, round);
    assert TurnAt(p, t, round) == turn;
  }

  lemma {:induction false} RunFromSpeaks(p: Provider, h: Host, c: Request, s: Loop, round: nat)
    requires |s.asked| == round <= Rounds(c) && TokenText(s.events) == Spoken(p, s, round)
    ensures var r := RunFrom(p, h, c, s, round); TokenText(r.events) == Spoken(p, r, |r.asked|)
    decreases Rounds(c) - round
  {
    hide Content, TokenText, TurnCalls, Acted, Choice, Heard, Spoken;
    if round == Rounds(c) {
      Silent(s.events, [Final(|s.content|, s.metas, s.made)]);
      SpokenFrame(p, s, Finished(s), round);
    } else {
      var turn := p(round, s.messages, Choice(c, round));
      var t, calls, content := Heard(c, s, round, turn), TurnCalls(turn), Content(turn.chunks);
      HeardSpoken(p, c, s, round);
      if turn.failed {
        Silent(t.events, [Error(round, ProviderError)]);
        SpokenFrame(p, t, RunFrom(p, h, c, s, round), round + 1);
      } else if calls == [] {
        var u := Wrote(round, t, content);
        Silent(t.events, [RoundEnd(round, Stop(|content|))]);
        Silent(u.events, [Final(|content|, u.metas, u.made)]);
        SpokenFrame(p, t, Finished(u), round + 1);
      } else {
        var u := Acted(h, round, t, content, calls);
        ActedSilent(h, round, t, content, calls);
        SpokenFrame(p, t, u, round + 1);
        RunFromSpeaks(p, h, c, u, round + 1);
      }
    }
  }

  lemma {:induction false} SpokenEmptyWhen(p: Provider, s: Loop, n: nat)
    requires n <= |s.asked|
    ensures Spoken(p, s, n) == "" <==> forall k :: 0 <= k < n ==> Content(TurnAt(p, s, k).chunks) == ""
  {
    hide Content;
    if n > 0 {
      SpokenEmptyWhen(p, s, n - 1);
    }
  }

  /**
    The text collected from the stream is the content of every round; the `content_chars` of the
    final event counts it exactly when no round that called tools streamed any text.
   */
  lemma ContentCharsCountWhen(p: Provider, h: Host, c: Request)
    ensures var s := Run(p, h, c);
      && TokenText(s.events) == Spoken(p, s, |s.asked|)
      && s.events != []
      && var last := s.events[|s.events| - 1];
      (last.Final? ==> (last.contentChars == |TokenText(s.events)| <==>
        forall k :: 0 <= k < |s.asked| && TurnCalls(TurnAt(p, s, k)) != [] ==> Content(TurnAt(p, s, k).chunks) == ""))
  {
    hide Content, TokenText, TurnCalls, Run, Paired;
    var s := Run(p, h, c);
    var n := |s.asked|;
    RunEndsWell(p, h, c);
    RunSpeaks(p, h, c);
    SpokenEmptyWhen(p, s, n - 1);
    SpokenEmptyWhen(p, s, n);
  }

  lemma RunSpeaks(p: Provider, h: Host, c: Request)
    ensures var s := Run(p, h, c); TokenText(s.events) == Spoken(p, s, |s.asked|)
  {
    hide RunFrom;
    RunFromSpeaks(p, h, c, Start(c), 0);
  }

  function TalksAndCalls(round: nat, messages: seq<Message>, choice: ToolChoice): Turn {
    Turn([StreamChunk("x", Some(LOOKUP))], false)
  }

  /** A provider that streams text beside its tool calls, which `content_chars` never counts. */
  lemma ContentCharsMayMissText(h: Host, c: Request)
    ensures var s := Run(TalksAndCalls, h, c);
      && s.events != []
      && var last := s.events[|s.events| - 1];
      last.Final? && last.contentChars == 0 && |TokenText(s.events)| > 0
  {
    hide Content, TokenText, TurnCalls, Run, Paired;
    var p := TalksAndCalls;
    var s := Run(p, h, c);
    OneCall("x");
    RunEndsWell(p, h, c);
    ContentCharsCountWhen(p, h, c);
    assert TurnCalls(TurnAt(p, s, 0)) != [] && Content(TurnAt(p, s, 0).chunks) == "x";
  }
}
