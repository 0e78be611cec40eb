/** The events of every run, from what the provider streamed. */
module AgentLoopEvents {
  import opened Seqs
  import opened AgentLoop
  import opened AgentLoopTheorems

  type Asked = seq<(seq<Message>, ToolChoice)>

  function AnswerTo(p: Provider, asked: Asked, k: nat): Turn
    requires k < |asked|
  {
    p(k, asked[k].0, asked[k].1)
  }

  /** A round begins with its phase and tool choice, then a token for every chunk with text. */
  function Opening(c: Request, k: nat, choice: ToolChoice, chunks: seq<StreamChunk>): seq<Event> {
    var last := k == (if c.maxRounds <= 0 then 1 else c.maxRounds) - 1;
    var phase := if last then FinalRound else if k == 0 && choice == Required then Initial else Followup;
    [RoundStart(k, phase, choice)] +
    Map((chunk: StreamChunk) => Token(k, chunk.content), Filter((chunk: StreamChunk) => chunk.content != "", chunks))
  }

  /** A call and its result for each call up to the first unknown tool, and an error for that. */
  function CallEvents(k: nat, calls: seq<ToolCall>): seq<Event> {
    if calls == [] then []
    else
      var name := calls[0].name;
      if name == "search_knowledge" || name == "update_scene_state" || name == "propose_context_update"
      then [ToolCalled(k, name), ToolResult(k, name)] + CallEvents(k, calls[1..])
      else [Error(k, UnknownTool(name))]
  }

  /** The events of the first `n` rounds, which all called tools. */
  function EventsUpTo(p: Provider, c: Request, asked: Asked, n: nat): seq<Event>
    requires n <= |asked|
  {
    if n == 0 then []
    else
      var k := n - 1;
      var turn := AnswerTo(p, asked, k);
      EventsUpTo(p, c, asked, k) + Opening(c, k, asked[k].1, turn.chunks) + CallEvents(k, TurnCalls(turn)) +
      [RoundEnd(k, AfterTools(|TurnCalls(turn)|))]
  }

  /** The events of a run: its tool rounds, and how it ends. */
  ghost predicate IsNarrated(p: Provider, c: Request, s: Loop) {
    && s.asked != []
    && var n := |s.asked|;
    && var turn := AnswerTo(p, s.asked, n - 1);
    && var opening := Opening(c, n - 1, s.asked[n - 1].1, turn.chunks);
    && s.events ==
      if turn.failed then EventsUpTo(p, c, s.asked, n - 1) + opening + [Error(n - 1, ProviderError)]
      else if TurnCalls(turn) == [] then
        EventsUpTo(p, c, s.asked, n - 1) + opening +
        [RoundEnd(n - 1, Stop(|Content(turn.chunks)|)), Final(|Content(turn.chunks)|, s.metas, s.made)]
      else EventsUpTo(p, c, s.asked, n) + [Final(0, s.metas, s.made)]
  }

  lemma {:induction false} TokensAre(k: nat, chunks: seq<StreamChunk>)
    ensures Tokens(k, chunks) ==
      Map((chunk: StreamChunk) => Token(k, chunk.content), Filter((chunk: StreamChunk) => chunk.content != "", chunks))
  {
    if chunks != [] {
      TokensAre(k, chunks[..|chunks| - 1]);
    }
  }

  lemma {:induction false} ExecutedEvents(h: Host, k: nat, s: Loop, calls: seq<ToolCall>)
    ensures ExecutedAll(h, k, s, calls).events == s.events + CallEvents(k, calls)
    decreases |calls|
  {
    hide Executed;
    if calls != [] && Known(calls[0].name) {
      var t := Executed(h, k, s, calls[0]);
      ExecutedShape(h, k, s, calls[0]);
      ExecutedEvents(h, k, t, calls[1..]);
      Associate(s.events, [ToolCalled(k, calls[0].name), ToolResult(k, calls[0].name)], CallEvents(k, calls[1..]));
    }
  }

  lemma HeardEvents(c: Request, s: Loop, round: nat, turn: Turn)
    ensures Heard(c, s, round, turn).events == s.events + Opening(c, round, Choice(c, round), turn.chunks)
  {
    hide Choice, Tokens;
    TokensAre(round, turn.chunks);
    var tokens := Tokens(round, turn.chunks);
    Associate(s.events, [RoundStart(round, PhaseOf(c, round), Choice(c, round))], tokens);
  }

  lemma {:induction false} SameEvents(p: Provider, c: Request, a: Asked, b: Asked, n: nat)
    requires n <= |a| && n <= |b| && forall k :: 0 <= k < n ==> a[k] == b[k]
    ensures EventsUpTo(p, c, a, n) == EventsUpTo(p, c, b, n)
  {
    hide Opening, CallEvents, TurnCalls;
    if n > 0 {
      SameEvents(p, c, a, b, n - 1);
    }
  }

  lemma ActedEvents(p: Provider, h: Host, c: Request, s: Loop, round: nat, turn: Turn)
    requires |s.asked| == round && s.events == EventsUpTo(p, c, s.asked, round) && turn == p(round, s.messages, Choice(c, round))
    ensures var u := Acted(h, round, Heard(c, s, round, turn), Content(turn.chunks), TurnCalls(turn));
      u.asked == s.asked + [(s.messages, Choice(c, round))] && u.events == EventsUpTo(p, c, u.asked, round + 1)
  {
    hide Opening, CallEvents, TurnCalls, Content, Choice, Tokens, ExecutedAll;
    var t, calls := Heard(c, s, round, turn), TurnCalls(turn);
    var open := t.(messages := t.messages + [Assistant(Content(turn.chunks), calls)]);
    HeardEvents(c, s, round, turn);
    ExecutedEvents(h, round, open, calls);
    ExecutedAsked(h, round, open, calls);
    var asked := s.asked + [(s.messages, Choice(c, round))];
    SameEvents(p, c, s.asked, asked, round);
  }

  lemma LastEvents(p: Provider, h: Host, c: Request, s: Loop, round: nat)
    requires |s.asked| == round < Rounds(c) && s.events == EventsUpTo(p, c, s.asked, round)
    requires var turn := p(round, s.messages, Choice(c, round)); turn.failed || TurnCalls(turn) == []
    ensures IsNarrated(p, c, RunFrom(p, h, c, s, round))
  {
    hide Opening, CallEvents, TurnCalls, Content, Choice, Tokens;
    var turn := p(round, s.messages, Choice(c, round));
    HeardEvents(c, s, round, turn);
    var asked := s.asked + [(s.messages, Choice(c, round))];
    SameEvents(p, c, s.asked, asked, round);
    var before := EventsUpTo(p, c, asked, round) + Opening(c, round, Choice(c, round), turn.chunks);
    var n := |Content(turn.chunks)|;
    if !turn.failed {
      var t := Wrote(round, Heard(c, s, round, turn), Content(turn.chunks));
      Associate(before, [RoundEnd(round, Stop(n))], [Final(n, t.metas, t.made)]);
    }
  }

  lemma {:induction false} RunFromNarrated(p: Provider, h: Host, c: Request, s: Loop, round: nat)
    requires |s.asked| == round <= Rounds(c) && s.content == "" && s.events == EventsUpTo(p, c, s.asked, round)
    requires round == Rounds(c) ==> var turn := AnswerTo(p, s.asked, round - 1); !turn.failed && TurnCalls(turn) != []
    ensures IsNarrated(p, c, RunFrom(p, h, c, s, round))
    decreases Rounds(c) - round
  {
    hide Opening, CallEvents, TurnCalls, Content, Choice, Tokens, EventsUpTo, Acted;
    if round < Rounds(c) {
      var turn := p(round, s.messages, Choice(c, round));
      if turn.failed || TurnCalls(turn) == [] {
        LastEvents(p, h, c, s, round);
      } else {
        ActedEvents(p, h, c, s, round, turn);
        ActedContent(h, round, Heard(c, s, round, turn), Content(turn.chunks), TurnCalls(turn));
        RunFromNarrated(p, h, c, Acted(h, round, Heard(c, s, round, turn), Content(turn.chunks), TurnCalls(turn)), round + 1);
      }
    }
  }

  lemma ActedContent(h: Host, round: nat, s: Loop, content: string, calls: seq<ToolCall>)
    ensures Acted(h, round, s, content, calls).content == s.content
  {
    hide ExecutedAll;
    ExecutedContent(h, round, s.(messages := s.messages + [Assistant(content, calls)]), calls);
  }

  lemma {:induction false} ExecutedContent(h: Host, round: nat, s: Loop, calls: seq<ToolCall>)
    ensures ExecutedAll(h, round, s, calls).content == s.content
    decreases |calls|
  {
    hide Executed, Known;
    if calls != [] && Known(calls[0].name) {
      ExecutedShape(h, round, s, calls[0]);
      ExecutedContent(h, round, Executed(h, round, s, calls[0]), calls[1..]);
    }
  }

  /** Every run's events are those of its rounds in order, and of its end. */
  lemma RunIsNarrated(p: Provider, h: Host, c: Request)
    ensures IsNarrated(p, c, Run(p, h, c))
  {
    hide IsNarrated, RunFrom;
    RunFromNarrated(p, h, c, Start(c), 0);
  }
}
