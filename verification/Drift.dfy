/**
  Fitting text into a model's context window: cutting one text by binary search, keeping the newest
  lines of a prompt, and folding a long chat into a running summary.  The tokenizer and the model
  are arbitrary.
 */
module Drift {
  import opened Wrappers
  import opened Text
  import opened Seqs

  /** The tokenizer on nonempty texts, the window, the answer to the n-th completion request, and the summary's system prompt. */
  datatype Model = Model(tokens: string -> nat, nCtx: int, complete: (nat, string, string, int) -> string, instructions: string)

  const SAFETY_MARGIN := 64

  /** `_estimate_tokens` */
  function Estimate(m: Model, text: string): nat {
    if text == "" then 0 else m.tokens(text)
  }

  function Max(a: int, b: int): int {
    if a >= b then a else b
  }

  function Min(a: int, b: int): int {
    if a <= b then a else b
  }

  /** `TokenBudget.available` */
  datatype TokenBudget = TokenBudget(nCtx: int, maxOutputTokens: int, safetyMargin: int) {
    function Available(): int {
      Max(0, nCtx - maxOutputTokens - safetyMargin)
    }
  }

  // ---- one text ----

  function Search(m: Model, text: string, available: int, lo: nat, hi: nat): nat
    requires lo <= hi <= |text|
    decreases hi - lo
  {
    if lo == hi then lo
    else
      var mid := (lo + hi + 1) / 2;
      if Estimate(m, text[..mid]) <= available then Search(m, text, available, mid, hi)
      else Search(m, text, available, lo, mid - 1)
  }

  function Marked(text: string, marker: string): string {
    if marker == "" then text else RStrip(text) + "\n\n" + marker
  }

  function Fit(m: Model, text: string, budget: TokenBudget, marker: string): string {
    if text == "" || Estimate(m, text) <= budget.Available() then text
    else
      SearchInRange(m, text, budget.Available(), 0, |text|);
      Marked(text[..Search(m, text, budget.Available(), 0, |text|)], marker)
  }

  lemma {:induction false} SearchInRange(m: Model, text: string, available: int, lo: nat, hi: nat)
    requires lo <= hi <= |text|
    ensures lo <= Search(m, text, available, lo, hi) <= hi
    decreases hi - lo
  {
    if lo != hi {
      var mid := (lo + hi + 1) / 2;
      if Estimate(m, text[..mid]) <= available {
        SearchInRange(m, text, available, mid, hi);
      } else {
        SearchInRange(m, text, available, lo, mid - 1);
      }
    }
  }

  /** `_fit_text_to_budget` */
  method FitTextToBudget(m: Model, text: string, budget: TokenBudget, marker: string) returns (fitted: string)
    ensures fitted == Fit(m, text, budget, marker)
  {
    if text == "" {
      return text;
    }
    if Estimate(m, text) <= budget.Available() {
      return text;
    }
    var lo, hi := 0, |text|;
    while lo < hi
      invariant lo <= hi <= |text|
      invariant Search(m, text, budget.Available(), lo, hi) == Search(m, text, budget.Available(), 0, |text|)
    {
      var mid := (lo + hi + 1) / 2;
      var candidate := text[..mid];
      if Estimate(m, candidate) <= budget.Available() {
        lo := mid;
      } else {
        hi := mid - 1;
      }
    }
    fitted := text[..lo];
    if marker != "" {
      fitted := RStrip(fitted) + "\n\n" + marker;
    }
  }

  // ---- the lines of a prompt ----

  /** `s.split("\n")` */
  function Lines(s: string): (lines: seq<string>)
    ensures lines != []
  {
    if s == "" then [""]
    else
      var rest := Lines(s[1..]);
      if s[0] == '\n' then [""] + rest else [[s[0]] + rest[0]] + rest[1..]
  }

  /** The first of the lines kept when those from `k` on are. */
  function KeptFrom(m: Model, system: string, lines: seq<string>, available: int, k: nat): (first: nat)
    requires k <= |lines|
    ensures first <= k
  {
    if k > 0 && Estimate(m, system + "\n" + Join("\n", lines[k - 1..])) <= available
    then KeptFrom(m, system, lines, available, k - 1)
    else k
  }

  const SYSTEM_MARKER := "[...system prompt" + " truncated...]"
  const LINE_MARKER := "[...single line" + " truncated to fit" + " remaining budget...]"

  /** What is sent to the model. */
  datatype Prompt = Prompt(system: string, user: string, maxTokens: int)

  function WithinBudget(m: Model, system: string, user: string, maxOutputTokens: int): Prompt {
    var effective := Min(maxOutputTokens, m.nCtx / 2);
    var budget := TokenBudget(m.nCtx, effective, SAFETY_MARGIN);
    if Estimate(m, system + "\n" + user) <= budget.Available() then Prompt(system, user, effective)
    else
      var lines := Lines(user);
      var first := KeptFrom(m, system, lines, budget.Available(), |lines|);
      if first < |lines| then Prompt(system, Join("\n", lines[first..]), effective)
      else
        var system' := Fit(m, system, budget, SYSTEM_MARKER);
        var lineBudget := TokenBudget(m.nCtx, effective, SAFETY_MARGIN + Estimate(m, system'));
        Prompt(system', Fit(m, lines[|lines| - 1], lineBudget, LINE_MARKER), effective)
  }

  /** `_run_within_budget`, whose branch for a prompt without lines cannot be taken. */
  method RunWithinBudget(m: Model, system: string, user: string, maxOutputTokens: int, calls: nat) returns (answer: string, sent: Prompt)
    ensures sent == WithinBudget(m, system, user, maxOutputTokens)
    ensures answer == m.complete(calls, sent.system, sent.user, sent.maxTokens)
  {
    hide Fit, Lines, Join;
    var effective := Min(maxOutputTokens, m.nCtx / 2);
    var budget := TokenBudget(m.nCtx, effective, SAFETY_MARGIN);
    if Estimate(m, system + "\n" + user) <= budget.Available() {
      sent := Prompt(system, user, effective);
      return m.complete(calls, system, user, effective), sent;
    }
    var lines := Lines(user);
    var kept: seq<string>, truncatedSystem := [], system;
    var k: nat := |lines|;
    while k > 0
      invariant k <= |lines| && Reversed(kept) == lines[k..]
      invariant KeptFrom(m, system, lines, budget.Available(), k) == KeptFrom(m, system, lines, budget.Available(), |lines|)
    {
      var line := lines[k - 1];
      assert Reversed(kept + [line]) == lines[k - 1..];
      var candidate := Join("\n", Reversed(kept + [line]));
      if Estimate(m, system + "\n" + candidate) > budget.Available() {
        break;
      }
      kept := kept + [line];
      k := k - 1;
    }
    if kept == [] {
      assert k == |lines|;
      truncatedSystem := FitTextToBudget(m, system, budget, SYSTEM_MARKER);
      var lineBudget := TokenBudget(m.nCtx, effective, SAFETY_MARGIN + Estimate(m, truncatedSystem));
      var truncatedLine := FitTextToBudget(m, lines[|lines| - 1], lineBudget, LINE_MARKER);
      kept := [truncatedLine];
      assert Join("\n", Reversed(kept)) == truncatedLine by {
        JoinOne(truncatedLine);
        assert Reversed(kept) == [truncatedLine];
      }
    } else {
      assert k < |lines|;
    }
    sent := Prompt(truncatedSystem, Join("\n", Reversed(kept)), effective);
    answer := m.complete(calls, sent.system, sent.user, sent.maxTokens);
  }

  lemma JoinOne(s: string)
    ensures Join("\n", [s]) == s
  {
  }

  // ---- the running summary ----

  datatype ChatMessage = ChatMessage(role: Option<string>, content: Option<string>)

  function Line(msg: ChatMessage): string {
    "[" + msg.role.GetOr("?") + "] " + msg.content.GetOr("")
  }

  const SUMMARY_TOKENS := 512

  function ChatLines(chunk: seq<ChatMessage>): seq<string> {
    if chunk == [] then [] else [Line(chunk[0])] + ChatLines(chunk[1..])
  }

  function SummaryPrompt(prev: string, chunk: seq<ChatMessage>): string {
    Join("\n", (if prev != "" then ["## PREVIOUS SUMMARY:\n" + prev] else []) + ["## NEW MESSAGES:"] + ChatLines(chunk))
  }

  /** What `_summarize_once` sends: the prompt, cut to the budget like any other. */
  function SummarySent(m: Model, prev: string, shown: seq<ChatMessage>): Prompt {
    WithinBudget(m, m.instructions, SummaryPrompt(prev, shown), SUMMARY_TOKENS)
  }

  /** The answer to a prompt, stripped. */
  function Answer(m: Model, sent: Prompt, calls: nat): string {
    Strip(m.complete(calls, sent.system, sent.user, sent.maxTokens))
  }

  function SummaryBudget(m: Model): TokenBudget {
    TokenBudget(m.nCtx, Min(SUMMARY_TOKENS, m.nCtx / 2), SAFETY_MARGIN)
  }

  /** The tokens left for messages beside the running summary. */
  function Room(m: Model, prev: string): int {
    Max(1, SummaryBudget(m).Available() - Estimate(m, prev))
  }

  /** The first of the newest messages taken when those from `k` on use `used` tokens. */
  function TakenFrom(m: Model, pending: seq<ChatMessage>, room: int, k: nat, used: nat): (first: nat)
    requires k <= |pending|
    ensures first <= k
  {
    if k > 0 && used + Estimate(m, Line(pending[k - 1])) <= room
    then TakenFrom(m, pending, room, k - 1, used + Estimate(m, Line(pending[k - 1])))
    else k
  }

  /**
    One completion: the summary so far, the messages it stands for, those messages as the prompt
    shows them (one alone may be cut short), what is sent, and the new summary.
   */
  datatype Step = Step(prev: string, chunk: seq<ChatMessage>, shown: seq<ChatMessage>, sent: Prompt, summary: string)

  function CutMessage(m: Model, prev: string, msg: ChatMessage): ChatMessage {
    var budget := SummaryBudget(m).(safetyMargin := SAFETY_MARGIN + Estimate(m, prev));
    ChatMessage(Some(msg.role.GetOr("?")), Some(Fit(m, Line(msg), budget, "[...single message truncated...]")))
  }

  function Completion(m: Model, prev: string, chunk: seq<ChatMessage>, shown: seq<ChatMessage>, calls: nat): Step {
    var sent := SummarySent(m, prev, shown);
    Step(prev, chunk, shown, sent, Answer(m, sent, calls))
  }

  function NextStep(m: Model, pending: seq<ChatMessage>, prev: string, calls: nat): Step
    requires pending != []
  {
    var first := TakenFrom(m, pending, Room(m, prev), |pending|, 0);
    if first == |pending| then
      var newest := pending[|pending| - 1];
      Completion(m, prev, [newest], [CutMessage(m, prev, newest)], calls)
    else Completion(m, prev, pending[first..], pending[first..], calls)
  }

  lemma StepTakesSome(m: Model, pending: seq<ChatMessage>, prev: string, calls: nat)
    requires pending != []
    ensures 0 < |NextStep(m, pending, prev, calls).chunk| <= |pending|
  {
    hide SummarySent, Answer, CutMessage, Room;
  }

  function Steps(m: Model, pending: seq<ChatMessage>, prev: string, calls: nat): seq<Step>
    decreases |pending|
  {
    if pending == [] then []
    else
      StepTakesSome(m, pending, prev, calls);
      var step := NextStep(m, pending, prev, calls);
      [step] + Steps(m, pending[..|pending| - |step.chunk|], step.summary, calls + 1)
  }

  function LastSummary(prev: string, steps: seq<Step>): string {
    if steps == [] then prev else steps[|steps| - 1].summary
  }

  lemma StepsUnfold(m: Model, pending: seq<ChatMessage>, prev: string, calls: nat)
    requires pending != []
    ensures var step := NextStep(m, pending, prev, calls);
      && 0 < |step.chunk| <= |pending|
      && Steps(m, pending, prev, calls) == [step] + Steps(m, pending[..|pending| - |step.chunk|], step.summary, calls + 1)
  {
    hide NextStep;
    StepTakesSome(m, pending, prev, calls);
  }

  /** `_summarize_chunked`, which returns besides the summary the steps it took. */
  method SummarizeChunked(m: Model, messages: seq<ChatMessage>, previous: string) returns (summary: string, steps: seq<Step>)
    ensures steps == Steps(m, messages, previous, 0)
    ensures summary == LastSummary(previous, steps)
  {
    hide NextStep, Steps, TakenFrom, Room;
    var pending, prev := messages, previous;
    steps := [];
    while pending != []
      invariant steps + Steps(m, pending, prev, |steps|) == Steps(m, messages, previous, 0)
      invariant prev == LastSummary(previous, steps)
      decreases |pending|
    {
      StepsUnfold(m, pending, prev, |steps|);
      var first := TakeNewest(m, pending, Room(m, prev));
      var step := SummarizeChunk(m, pending, prev, first, |steps|);
      var rest := pending[..|pending| - |step.chunk|];
      Associate(steps, [step], Steps(m, rest, step.summary, |steps| + 1));
      steps, prev, pending := steps + [step], step.summary, rest;
    }
    NoSteps(m, prev, |steps|);
    summary := prev;
  }

  lemma NoSteps(m: Model, prev: string, calls: nat)
    ensures Steps(m, [], prev, calls) == []
  {
  }

  /** The loop over `reversed(pending)`. */
  method TakeNewest(m: Model, pending: seq<ChatMessage>, room: int) returns (first: nat)
    ensures first == TakenFrom(m, pending, room, |pending|, 0)
  {
    var used: nat := 0;
    first := |pending|;
    while first > 0
      invariant first <= |pending|
      invariant TakenFrom(m, pending, room, first, used) == TakenFrom(m, pending, room, |pending|, 0)
    {
      var tokens := Estimate(m, Line(pending[first - 1]));
      if used + tokens > room {
        break;
      }
      first, used := first - 1, used + tokens;
    }
  }

  /** The completion for the messages from `first` on, or for the newest alone, cut. */
  method SummarizeChunk(m: Model, pending: seq<ChatMessage>, prev: string, first: nat, calls: nat) returns (step: Step)
    requires pending != [] && first == TakenFrom(m, pending, Room(m, prev), |pending|, 0)
    ensures step == NextStep(m, pending, prev, calls)
  {
    hide Fit, WithinBudget, TakenFrom, SummaryPrompt;
    var chunk, shown := pending[first..], pending[first..];
    if first == |pending| {
      var newest := pending[|pending| - 1];
      chunk, shown := [newest], [CutMessage(m, prev, newest)];
    }
    var raw, sent := RunWithinBudget(m, m.instructions, SummaryPrompt(prev, shown), SUMMARY_TOKENS, calls);
    step := Step(prev, chunk, shown, sent, Strip(raw));
  }
}
