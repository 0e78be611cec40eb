/** The running summary: which messages each completion stands for, and which lines of them are sent. */
module DriftSummaries {
  import opened Wrappers
  import opened Text
  import opened Seqs
  import opened Drift
  import opened DriftTheorems

  // ---- the lines of a prompt, put together ----

  predicate OneLine(s: string) {
    forall i :: 0 <= i < |s| ==> s[i] != '\n'
  }

  lemma {:induction false} LinesOfLine(s: string)
    requires OneLine(s)
    ensures Lines(s) == [s]
  {
    if s != "" {
      LinesOfLine(s[1..]);
      assert [s[0]] + s[1..] == s;
    }
  }

  lemma {:induction false} LinesAreLines(s: string)
    ensures forall i :: 0 <= i < |Lines(s)| ==> OneLine(Lines(s)[i])
  {
    if s != "" {
      LinesAreLines(s[1..]);
    }
  }

  lemma {:induction false} LinesConcat(a: string, b: string)
    ensures Lines(a + "\n" + b) == Lines(a) + Lines(b)
  {
    var t := a + "\n" + b;
    if a == "" {
      assert t[1..] == b;
    } else {
      assert t[1..] == a[1..] + "\n" + b;
      LinesConcat(a[1..], b);
      var x, y := Lines(a[1..]), Lines(b);
      assert (x + y)[0] == x[0] && (x + y)[1..] == x[1..] + y;
      Associate([[a[0]] + x[0]], x[1..], y);
      Associate([""], x, y);
    }
  }

  lemma {:induction false} LinesOfJoin(lines: seq<string>)
    requires lines != [] && forall i :: 0 <= i < |lines| ==> OneLine(lines[i])
    ensures Lines(Join("\n", lines)) == lines
  {
    hide OneLine;
    LinesOfLine(lines[0]);
    if |lines| > 1 {
      LinesOfJoin(lines[1..]);
      LinesConcat(lines[0], Join("\n", lines[1..]));
      assert lines == [lines[0]] + lines[1..];
    }
  }

  function MessageLines(shown: seq<ChatMessage>): seq<string> {
    if shown == [] then [] else Lines(Line(shown[0])) + MessageLines(shown[1..])
  }

  function SummaryLines(prev: string): seq<string> {
    if prev != "" then ["## PREVIOUS SUMMARY:"] + Lines(prev) else []
  }

  /** The lines of the prompt: the summary so far under its heading, then the messages under theirs. */
  function PromptLines(prev: string, shown: seq<ChatMessage>): (lines: seq<string>)
    ensures lines != []
  {
    SummaryLines(prev) + ["## NEW MESSAGES:"] + MessageLines(shown)
  }

  lemma {:induction false} LinesOfMessages(head: string, shown: seq<ChatMessage>)
    ensures Lines(Join("\n", [head] + ChatLines(shown))) == Lines(head) + MessageLines(shown)
    decreases |shown|
  {
    hide Lines, Line;
    if shown == [] {
      assert Join("\n", [head] + []) == head && Lines(head) + [] == Lines(head);
    } else {
      var more := ChatLines(shown[1..]);
      var rest := [Line(shown[0])] + more;
      LinesOfMessages(Line(shown[0]), shown[1..]);
      JoinCons("\n", head, rest);
      LinesConcat(head, Join("\n", rest));
    }
  }

  lemma LinesOfPrompt(prev: string, shown: seq<ChatMessage>)
    ensures Lines(SummaryPrompt(prev, shown)) == PromptLines(prev, shown)
  {
    hide ChatLines, Line, MessageLines, Lines;
    var heading := "## NEW MESSAGES:";
    var body := [heading] + ChatLines(shown);
    LinesOfMessages(heading, shown);
    HeadingsAreLines();
    if prev == "" {
      assert [] + [heading] + ChatLines(shown) == body;
      assert [] + [heading] + MessageLines(shown) == [heading] + MessageLines(shown);
    } else {
      var top := "## PREVIOUS SUMMARY:" + "\n" + prev;
      assert "## PREVIOUS SUMMARY:\n" + prev == top;
      assert [top] + [heading] + ChatLines(shown) == [top] + body;
      JoinCons("\n", top, body);
      LinesConcat(top, Join("\n", body));
      LinesConcat("## PREVIOUS SUMMARY:", prev);
      Associate(SummaryLines(prev), [heading], MessageLines(shown));
    }
  }

  lemma HeadingsAreLines()
    ensures Lines("## NEW MESSAGES:") == ["## NEW MESSAGES:"] && Lines("## PREVIOUS SUMMARY:") == ["## PREVIOUS SUMMARY:"]
  {
    hide Lines;
    LinesOfLine("## NEW MESSAGES:");
    LinesOfLine("## PREVIOUS SUMMARY:");
  }

  // ---- what is sent of a prompt ----

  predicate Fits(m: Model, system: string, user: string, maxOutputTokens: int) {
    Estimate(m, system + "\n" + user) <= InputBudget(m, maxOutputTokens).Available()
  }

  lemma MarkedLastLine(head: string)
    ensures NewestLine(Marked(head, LINE_MARKER)) == LINE_MARKER
  {
    hide RStrip, Lines;
    var kept := RStrip(head);
    assert OneLine(LINE_MARKER);
    LinesOfLine(LINE_MARKER);
    LinesConcat(kept + "\n", LINE_MARKER);
    assert kept + "\n" + "\n" + LINE_MARKER == Marked(head, LINE_MARKER);
  }

  /** A marked prefix of the marker begins as the marker or with a newline. */
  lemma MarkedHead(line: string, n: nat)
    requires n <= |line|
    ensures Marked(line[..n], LINE_MARKER) != ""
    ensures Marked(line[..n], LINE_MARKER)[0] == '\n' || (n > 0 && Marked(line[..n], LINE_MARKER)[0] == line[0])
  {
    hide RStrip;
    RStripFacts(line[..n]);
  }

  /** The last resort never puts a prompt of several lines back together. */
  lemma LastLineIsNotAll(m: Model, user: string, budget: TokenBudget)
    requires |Lines(user)| > 1 && user != "" && user[0] != '[' && user[0] != '\n'
    ensures Fit(m, NewestLine(user), budget, LINE_MARKER) != user
  {
    hide Lines, Search, Marked, OneLine, Estimate;
    var line := NewestLine(user);
    LinesAreLines(user);
    LinesOfLine(line);
    if line != "" && Estimate(m, line) > budget.Available() {
      SearchInRange(m, line, budget.Available(), 0, |line|);
      var n := Search(m, line, budget.Available(), 0, |line|);
      MarkedLastLine(line[..n]);
      MarkedHead(line, n);
      assert LINE_MARKER[0] == '[';
    }
  }

  /** A prompt of several lines is sent whole exactly when it fits; then the system prompt is whole too. */
  lemma SentWholeWhen(m: Model, system: string, user: string, maxOutputTokens: int)
    requires |Lines(user)| > 1 && user != "" && user[0] != '[' && user[0] != '\n'
    ensures var sent := WithinBudget(m, system, user, maxOutputTokens);
      && (sent.user == user <==> Fits(m, system, user, maxOutputTokens))
      && (sent.user == user ==> sent.system == system)
  {
    hide Estimate, Lines, Join, Fit, NewestLineFits;
    if !Fits(m, system, user, maxOutputTokens) {
      if NewestLineFits(m, system, user, maxOutputTokens) {
        DroppedLinesMakeItFit(m, system, user, maxOutputTokens);
      } else {
        LastResortSends(m, system, user, maxOutputTokens);
        var budget := InputBudget(m, maxOutputTokens);
        var sent := WithinBudget(m, system, user, maxOutputTokens);
        LastLineIsNotAll(m, user, budget.(safetyMargin := SAFETY_MARGIN + Estimate(m, sent.system)));
      }
    }
  }

  /** The lines from `k` on are sent: they fit beside the system prompt, and with the line before them would not. */
  ghost predicate TailSent(m: Model, system: string, lines: seq<string>, maxOutputTokens: int, sent: Prompt, k: nat) {
    var available := InputBudget(m, maxOutputTokens).Available();
    && 0 < k < |lines| && sent.system == system && Lines(sent.user) == lines[k..]
    && Estimate(m, system + "\n" + sent.user) <= available < Estimate(m, Whole(system, lines[k - 1..]))
  }

  lemma TailOfLines(m: Model, system: string, user: string, maxOutputTokens: int)
    requires !Fits(m, system, user, maxOutputTokens) && NewestLineFits(m, system, user, maxOutputTokens)
    ensures exists k: nat :: TailSent(m, system, Lines(user), maxOutputTokens, WithinBudget(m, system, user, maxOutputTokens), k)
  {
    hide Estimate, Lines, Join, Fit, NewestLineFits, OneLine;
    DroppedLinesMakeItFit(m, system, user, maxOutputTokens);
    var sent, lines := WithinBudget(m, system, user, maxOutputTokens), Lines(user);
    var k: nat :| CutAtLine(user, sent.user, k) && Estimate(m, Whole(system, lines[k - 1..])) > InputBudget(m, maxOutputTokens).Available();
    LinesAreLines(user);
    LinesOfJoin(lines[k..]);
    assert TailSent(m, system, lines, maxOutputTokens, sent, k);
  }

  /** No prompt cut in the last resort has these lines from `i` or earlier on: two at least, and not a blank and the marker after one more. */
  predicate Telltale(lines: seq<string>, i: nat) {
    i + 1 < |lines| && (i + 3 < |lines| || lines[|lines| - 2] != "" || lines[|lines| - 1] != LINE_MARKER)
  }

  lemma MarkedLines(head: string, marker: string)
    requires OneLine(head) && OneLine(marker) && marker != ""
    ensures Lines(Marked(head, marker)) == [RStrip(head), "", marker]
  {
    hide Lines, RStrip, OneLine;
    var kept := RStrip(head);
    PrefixIsOneLine(head);
    LinesOfLine(kept);
    NoLine();
    LinesOfLine(marker);
    LinesConcat(kept, "");
    LinesConcat(kept + "\n" + "", marker);
    assert kept + "\n" + "" + "\n" + marker == Marked(head, marker);
  }

  lemma PrefixIsOneLine(head: string)
    requires OneLine(head)
    ensures OneLine(RStrip(head))
  {
    hide RStrip;
    RStripFacts(head);
  }

  lemma NoLine()
    ensures Lines("") == [""]
  {
  }

  lemma MarkerIsOneLine()
    ensures OneLine(LINE_MARKER) && LINE_MARKER != ""
  {
  }

  lemma LastResortLines(m: Model, line: string, budget: TokenBudget)
    requires OneLine(line)
    ensures var lines := Lines(Fit(m, line, budget, LINE_MARKER));
      lines == [line] || (|lines| == 3 && lines[1] == "" && lines[2] == LINE_MARKER)
  {
    hide Lines, Search, Marked, Estimate;
    LinesOfLine(line);
    if line != "" && Estimate(m, line) > budget.Available() {
      SearchInRange(m, line, budget.Available(), 0, |line|);
      MarkerIsOneLine();
      MarkedLines(line[..Search(m, line, budget.Available(), 0, |line|)], LINE_MARKER);
    }
  }

  lemma LastResortIsNoTail(m: Model, system: string, user: string, maxOutputTokens: int, j: nat, i: nat)
    requires !Fits(m, system, user, maxOutputTokens) && !NewestLineFits(m, system, user, maxOutputTokens)
    requires j <= i && Telltale(Lines(user), i)
    ensures Lines(WithinBudget(m, system, user, maxOutputTokens).user) != Lines(user)[j..]
  {
    hide Lines, Fit, NewestLineFits, Estimate, OneLine, WithinBudget;
    var lines, sent := Lines(user), WithinBudget(m, system, user, maxOutputTokens);
    LinesAreLines(user);
    LastResortSends(m, system, user, maxOutputTokens);
    LastResortLines(m, NewestLine(user), InputBudget(m, maxOutputTokens).(safetyMargin := SAFETY_MARGIN + Estimate(m, sent.system)));
    assert |lines[j..]| == |lines| - j;
    assert |lines| - j == 3 ==> lines[j..][1] == lines[|lines| - 2] && lines[j..][2] == lines[|lines| - 1];
  }

  /**
    When more lines never count fewer tokens, the lines from `i` on, with or without lines before
    them, are sent exactly when they fit beside the system prompt.
   */
  lemma TailReachesWhen(m: Model, system: string, user: string, maxOutputTokens: int, i: nat)
    requires i < |Lines(user)| && MonotoneOnTails(m, system, Lines(user))
    requires NewestLineFits(m, system, user, maxOutputTokens) || Telltale(Lines(user), i)
    ensures var lines, sent := Lines(user), Lines(WithinBudget(m, system, user, maxOutputTokens).user);
      (exists j: nat :: j <= i && sent == lines[j..]) <==>
        Estimate(m, Whole(system, lines[i..])) <= InputBudget(m, maxOutputTokens).Available()
  {
    hide Lines, Fit, Estimate, Join, OneLine, MonotoneOnTails, Telltale;
    var lines, available := Lines(user), InputBudget(m, maxOutputTokens).Available();
    var first, sent := KeptFrom(m, system, lines, available, |lines|), Lines(WithinBudget(m, system, user, maxOutputTokens).user);
    NewestKept(m, system, lines, available);
    KeptIsLongest(m, system, lines, available, i);
    KeptIsLongest(m, system, lines, available, 0);
    JoinLines(user);
    assert lines[0..] == lines;
    LinesAreLines(user);
    if Fits(m, system, user, maxOutputTokens) {
      assert sent == lines[0..];
    } else if first < |lines| {
      LinesOfJoin(lines[first..]);
      assert forall j: nat :: j <= |lines| ==> |lines[j..]| == |lines| - j;
    } else {
      forall j: nat | j <= i ensures sent != lines[j..] {
        LastResortIsNoTail(m, system, user, maxOutputTokens, j, i);
      }
    }
  }

  // ---- which messages a completion stands for ----

  /** The messages the steps stand for, the last step's first. */
  function Chronological(steps: seq<Step>): seq<ChatMessage>
    decreases |steps|
  {
    if steps == [] then [] else Chronological(steps[1..]) + steps[0].chunk
  }

  /** The tokens of the messages' lines. */
  function Cost(m: Model, msgs: seq<ChatMessage>): nat {
    if msgs == [] then 0 else Estimate(m, Line(msgs[0])) + Cost(m, msgs[1..])
  }

  lemma CostStep(m: Model, pending: seq<ChatMessage>, k: nat)
    requires 0 < k <= |pending|
    ensures Cost(m, pending[k - 1..]) == Estimate(m, Line(pending[k - 1])) + Cost(m, pending[k..])
  {
    hide Estimate, Line;
    assert pending[k - 1..][1..] == pending[k..];
  }

  lemma {:induction false} TakenFits(m: Model, pending: seq<ChatMessage>, room: int, k: nat, used: nat)
    requires k <= |pending| && used == Cost(m, pending[k..]) && (k < |pending| ==> used <= room)
    ensures var first := TakenFrom(m, pending, room, k, used);
      && (first < |pending| ==> Cost(m, pending[first..]) <= room)
      && (first > 0 ==> Cost(m, pending[first - 1..]) > room)
  {
    hide Estimate, Line, Cost;
    if k > 0 {
      CostStep(m, pending, k);
      var tokens := Estimate(m, Line(pending[k - 1]));
      if used + tokens <= room {
        TakenFits(m, pending, room, k - 1, used + tokens);
      }
    }
  }

  /**
    What one completion takes from the end of the pending messages: as many as fit the room, or one
    that alone exceeds it, which is shown cut.
   */
  ghost predicate TakesFrom(m: Model, pending: seq<ChatMessage>, step: Step) {
    var n, room := |step.chunk|, Room(m, step.prev);
    && 0 < n <= |pending|
    && step.chunk == pending[|pending| - n..]
    && (if Cost(m, step.chunk) > room then n == 1 && step.shown == [CutMessage(m, step.prev, step.chunk[0])] else step.shown == step.chunk)
    && (Cost(m, step.chunk) <= room && n < |pending| ==> Cost(m, pending[|pending| - n - 1..]) > room)
  }

  lemma NextStepTakes(m: Model, pending: seq<ChatMessage>, prev: string, calls: nat)
    requires pending != []
    ensures TakesFrom(m, pending, NextStep(m, pending, prev, calls)) && NextStep(m, pending, prev, calls).prev == prev
  {
    var n := |pending|;
    hide Estimate, SummarySent, Answer, CutMessage, Room, Cost, TakenFrom, Line, Fit;
    NoCost(m, pending);
    TakenFits(m, pending, Room(m, prev), n, 0);
    var first := TakenFrom(m, pending, Room(m, prev), n, 0);
    var step := NextStep(m, pending, prev, calls);
    assert step.chunk == pending[n - |step.chunk|..] by {
      assert pending[n - 1..] == [pending[n - 1]];
    }
  }

  lemma NoCost(m: Model, pending: seq<ChatMessage>)
    ensures Cost(m, pending[|pending|..]) == 0
  {
  }

  lemma ChunkIsTail(m: Model, pending: seq<ChatMessage>, prev: string, calls: nat)
    requires pending != []
    ensures var step := NextStep(m, pending, prev, calls);
      |step.chunk| <= |pending| && pending[..|pending| - |step.chunk|] + step.chunk == pending
  {
    hide NextStep;
    NextStepTakes(m, pending, prev, calls);
  }

  /** The messages still pending before step `i`. */
  function PendingAt(pending: seq<ChatMessage>, steps: seq<Step>, i: nat): seq<ChatMessage>
    requires i <= |steps|
    decreases i
  {
    if i == 0 || |steps[0].chunk| > |pending| then pending
    else PendingAt(pending[..|pending| - |steps[0].chunk|], steps[1..], i - 1)
  }

  lemma NothingChronological()
    ensures Chronological([]) == []
  {
  }

  lemma ChronologicalCons(step: Step, more: seq<Step>)
    ensures Chronological([step] + more) == Chronological(more) + step.chunk
  {
    assert ([step] + more)[1..] == more;
  }

  /**
    For any tokenizer and model, the chunks in reverse order of completion are the messages: each
    is in the chunk of exactly one completion, and there are no more completions than messages.
   */
  lemma {:induction false} ChunksAreTheMessages(m: Model, pending: seq<ChatMessage>, prev: string, calls: nat)
    ensures var steps := Steps(m, pending, prev, calls); Chronological(steps) == pending && |steps| <= |pending|
    decreases |pending|
  {
    hide NextStep, Steps, TakesFrom, Chronological;
    if pending == [] {
      NoSteps(m, prev, calls);
      NothingChronological();
    } else {
      StepsUnfold(m, pending, prev, calls);
      ChunkIsTail(m, pending, prev, calls);
      var step := NextStep(m, pending, prev, calls);
      var rest := pending[..|pending| - |step.chunk|];
      ChunksAreTheMessages(m, rest, step.summary, calls + 1);
      ChronologicalCons(step, Steps(m, rest, step.summary, calls + 1));
    }
  }

  /**
    Each chunk fits the room the summary so far leaves and could not take one more message, or is a
    single message that alone exceeds the room, which is the one that is cut.
   */
  lemma {:induction false} ChunksFitTheRoom(m: Model, pending: seq<ChatMessage>, prev: string, calls: nat, i: nat)
    requires i < |Steps(m, pending, prev, calls)|
    ensures TakesFrom(m, PendingAt(pending, Steps(m, pending, prev, calls), i), Steps(m, pending, prev, calls)[i])
    decreases i
  {
    hide NextStep, TakesFrom;
    NextStepTakes(m, pending, prev, calls);
    StepTakesSome(m, pending, prev, calls);
    var step := NextStep(m, pending, prev, calls);
    var steps := Steps(m, pending, prev, calls);
    if i > 0 {
      var rest := pending[..|pending| - |step.chunk|];
      assert steps[1..] == Steps(m, rest, step.summary, calls + 1);
      ChunksFitTheRoom(m, rest, step.summary, calls + 1, i - 1);
    }
  }

  // ---- what each completion is sent ----

  /** The whole prompt of a step fits: the summary so far, the messages, both headings and the system prompt. */
  predicate StepFits(m: Model, step: Step) {
    Fits(m, m.instructions, SummaryPrompt(step.prev, step.shown), SUMMARY_TOKENS)
  }

  predicate StepNewestFits(m: Model, step: Step) {
    NewestLineFits(m, m.instructions, SummaryPrompt(step.prev, step.shown), SUMMARY_TOKENS)
  }

  /**
    What a completion is sent.  The whole prompt, exactly when it fits.  Else, when its newest line
    does, a proper tail of its lines, so that the heading of the previous summary goes first, then
    the summary, then the older messages.  Else the newest line alone, cut.
   */
  ghost predicate Sends(m: Model, step: Step) {
    var user, lines := SummaryPrompt(step.prev, step.shown), PromptLines(step.prev, step.shown);
    && (step.sent.user == user <==> StepFits(m, step))
    && (StepFits(m, step) ==> step.sent.system == m.instructions)
    && (!StepFits(m, step) && StepNewestFits(m, step) ==> exists k: nat :: TailSent(m, m.instructions, lines, SUMMARY_TOKENS, step.sent, k))
    && (!StepFits(m, step) && !StepNewestFits(m, step) ==>
      step.sent.user == Fit(m, lines[|lines| - 1], SummaryBudget(m).(safetyMargin := SAFETY_MARGIN + Estimate(m, step.sent.system)), LINE_MARKER))
  }

  lemma PromptShape(prev: string, shown: seq<ChatMessage>)
    requires shown != []
    ensures |Lines(SummaryPrompt(prev, shown))| > 1
    ensures SummaryPrompt(prev, shown) != "" && SummaryPrompt(prev, shown)[0] == '#'
  {
    hide SummaryPrompt, Lines, Line, ChatLines;
    LinesOfPrompt(prev, shown);
    PromptStarts(prev, shown);
  }

  lemma PromptStarts(prev: string, shown: seq<ChatMessage>)
    ensures SummaryPrompt(prev, shown) != "" && SummaryPrompt(prev, shown)[0] == '#'
  {
    hide Join, ChatLines;
    var body := ["## NEW MESSAGES:"] + ChatLines(shown);
    if prev == "" {
      assert [] + ["## NEW MESSAGES:"] + ChatLines(shown) == body;
      StartsWithHead("## NEW MESSAGES:", ChatLines(shown));
    } else {
      var top := "## PREVIOUS SUMMARY:\n" + prev;
      assert [top] + ["## NEW MESSAGES:"] + ChatLines(shown) == [top] + body;
      StartsWithHead(top, body);
    }
  }

  lemma StartsWithHead(head: string, rest: seq<string>)
    requires head != ""
    ensures Join("\n", [head] + rest) != "" && Join("\n", [head] + rest)[0] == head[0]
  {
    if rest == [] {
      assert [head] + rest == [head];
    } else {
      JoinCons("\n", head, rest);
    }
  }

  /** The cases of `Sends` for any prompt of several lines that begins as a summary prompt does. */
  lemma PromptSends(m: Model, user: string)
    requires |Lines(user)| > 1 && user != "" && user[0] == '#'
    ensures var sent := WithinBudget(m, m.instructions, user, SUMMARY_TOKENS);
      var whole := Fits(m, m.instructions, user, SUMMARY_TOKENS);
      var newest := NewestLineFits(m, m.instructions, user, SUMMARY_TOKENS);
      && (sent.user == user <==> whole)
      && (whole ==> sent.system == m.instructions)
      && (!whole && newest ==> exists k: nat :: TailSent(m, m.instructions, Lines(user), SUMMARY_TOKENS, sent, k))
      && (!whole && !newest ==>
        sent.user == Fit(m, NewestLine(user), SummaryBudget(m).(safetyMargin := SAFETY_MARGIN + Estimate(m, sent.system)), LINE_MARKER))
  {
    hide Lines, Fit, NewestLineFits, Estimate, WithinBudget, TailSent, Fits;
    SentWholeWhen(m, m.instructions, user, SUMMARY_TOKENS);
    if !Fits(m, m.instructions, user, SUMMARY_TOKENS) {
      if NewestLineFits(m, m.instructions, user, SUMMARY_TOKENS) {
        TailOfLines(m, m.instructions, user, SUMMARY_TOKENS);
      } else {
        LastResort(m, user);
      }
    }
  }

  lemma CompletionSends(m: Model, prev: string, chunk: seq<ChatMessage>, shown: seq<ChatMessage>, calls: nat)
    requires shown != []
    ensures Sends(m, Completion(m, prev, chunk, shown, calls))
  {
    hide Lines, Fit, NewestLineFits, Estimate, SummaryPrompt, PromptLines, WithinBudget, TailSent, Fits, Answer;
    PromptShape(prev, shown);
    LinesOfPrompt(prev, shown);
    PromptSends(m, SummaryPrompt(prev, shown));
  }

  lemma MessagesHaveLines(shown: seq<ChatMessage>)
    ensures |MessageLines(shown)| >= |shown|
  {
    hide Lines, Line;
  }

  /**
    When more lines never count fewer tokens, the previous summary reaches the model whole, with or
    without its heading, exactly when everything but that heading fits.
   */
  lemma SummaryReachesWhen(m: Model, prev: string, shown: seq<ChatMessage>)
    requires prev != "" && shown != [] && MonotoneOnTails(m, m.instructions, PromptLines(prev, shown))
    ensures var lines, sent := PromptLines(prev, shown), Lines(SummarySent(m, prev, shown).user);
      (sent == lines || sent == lines[1..]) <==> Estimate(m, Whole(m.instructions, lines[1..])) <= SummaryBudget(m).Available()
  {
    hide Lines, Fit, Estimate, SummaryPrompt, Join, MessageLines, MonotoneOnTails, WithinBudget;
    var user, lines := SummaryPrompt(prev, shown), PromptLines(prev, shown);
    LinesOfPrompt(prev, shown);
    MessagesHaveLines(shown);
    assert lines[|SummaryLines(prev)|] == "## NEW MESSAGES:" != "";
    assert Telltale(lines, 1);
    TailReachesWhen(m, m.instructions, user, SUMMARY_TOKENS, 1);
    assert lines[0..] == lines;
  }

  /** The line of the prompt at which message `k` begins. */
  function StartOf(prev: string, shown: seq<ChatMessage>, k: nat): nat
    requires k <= |shown|
  {
    |SummaryLines(prev)| + 1 + |MessageLines(shown[..k])|
  }

  lemma {:induction false} MessageLinesConcat(a: seq<ChatMessage>, b: seq<ChatMessage>)
    ensures MessageLines(a + b) == MessageLines(a) + MessageLines(b)
  {
    hide Lines, Line;
    if a == [] {
      assert a + b == b;
    } else {
      assert (a + b)[1..] == a[1..] + b;
      MessageLinesConcat(a[1..], b);
      Associate(Lines(Line(a[0])), MessageLines(a[1..]), MessageLines(b));
    }
  }

  lemma LinesFrom(prev: string, shown: seq<ChatMessage>, k: nat)
    requires k <= |shown|
    ensures StartOf(prev, shown, k) <= |PromptLines(prev, shown)|
    ensures PromptLines(prev, shown)[StartOf(prev, shown, k)..] == MessageLines(shown[k..])
  {
    hide MessageLines, SummaryLines;
    assert shown == shown[..k] + shown[k..];
    MessageLinesConcat(shown[..k], shown[k..]);
  }

  predicate Unclosed(s: string) {
    forall i :: 0 <= i < |s| ==> s[i] != ']'
  }

  lemma MarkerClosesOnce(i: nat)
    requires i + 1 < |LINE_MARKER|
    ensures LINE_MARKER[i] != ']'
  {
    UnclosedParts();
    assert " remaining budget...]" == " remaining budget..." + "]";
  }

  lemma UnclosedParts()
    ensures Unclosed("[...single line") && Unclosed(" truncated to fit") && Unclosed(" remaining budget...")
  {
  }

  /** A message's line is not the marker: its role ends at a bracket before its end. */
  lemma LineIsNoMarker(msg: ChatMessage)
    ensures Line(msg) != LINE_MARKER && Lines(Line(msg))[0] != ""
  {
    var role := msg.role.GetOr("?");
    if Line(msg) == LINE_MARKER {
      assert Line(msg)[|role| + 1] == ']';
      MarkerClosesOnce(|role| + 1);
    }
    assert Line(msg)[0] == '[';
  }

  lemma TelltaleEnd(init: seq<string>, last: seq<string>)
    requires init != [] && last != [] && last[0] != "" && (|last| == 1 ==> last[0] != LINE_MARKER)
    ensures Telltale(init + last, 0)
  {
    var all := init + last;
    assert all[|all| - 1] == last[|last| - 1];
    assert |last| == 2 ==> all[|all| - 2] == last[0];
  }

  lemma OneLineIs(s: string)
    ensures |Lines(s)| == 1 ==> Lines(s)[0] == s
  {
    hide Lines;
    JoinLines(s);
    if |Lines(s)| == 1 {
      assert Lines(s) == [Lines(s)[0]];
      JoinOne(Lines(s)[0]);
    }
  }

  lemma MessageLinesSnoc(init: seq<ChatMessage>, last: ChatMessage)
    ensures MessageLines(init + [last]) == MessageLines(init) + Lines(Line(last))
  {
    hide Lines, Line;
    MessageLinesConcat(init, [last]);
    assert [last][1..] == [] && Lines(Line(last)) + [] == Lines(Line(last));
  }

  lemma LastMessageLines(shown: seq<ChatMessage>)
    requires |shown| > 1
    ensures Telltale(MessageLines(shown), 0)
  {
    hide Lines, Line, MessageLines, Telltale;
    var n := |shown| - 1;
    assert shown == shown[..n] + [shown[n]];
    MessageLinesSnoc(shown[..n], shown[n]);
    MessagesHaveLines(shown[..n]);
    LineIsNoMarker(shown[n]);
    OneLineIs(Line(shown[n]));
    TelltaleEnd(MessageLines(shown[..n]), Lines(Line(shown[n])));
  }

  /**
    Likewise a message that is not the newest reaches the model whole, with all after it, exactly
    when they fit without the summary and the messages before; the newest one, if its last line fits.
   */
  lemma MessageReachesWhen(m: Model, prev: string, shown: seq<ChatMessage>, k: nat)
    requires k < |shown| && MonotoneOnTails(m, m.instructions, PromptLines(prev, shown))
    requires k + 1 < |shown| || NewestLineFits(m, m.instructions, SummaryPrompt(prev, shown), SUMMARY_TOKENS)
    ensures var lines, sent := PromptLines(prev, shown), Lines(SummarySent(m, prev, shown).user);
      StartOf(prev, shown, k) < |lines| &&
      ((exists j: nat :: j <= StartOf(prev, shown, k) && sent == lines[j..]) <==>
        Estimate(m, Whole(m.instructions, MessageLines(shown[k..]))) <= SummaryBudget(m).Available())
  {
    hide Lines, Fit, Estimate, SummaryPrompt, PromptLines, Join, MessageLines, MonotoneOnTails, WithinBudget, NewestLineFits, StartOf;
    var lines, start := PromptLines(prev, shown), StartOf(prev, shown, k);
    LinesOfPrompt(prev, shown);
    LinesFrom(prev, shown, k);
    MessagesHaveLines(shown[k..]);
    assert |lines[start..]| == |lines| - start;
    if k + 1 < |shown| {
      LastMessageLines(shown[k..]);
      assert Telltale(lines, start);
    }
    TailReachesWhen(m, m.instructions, SummaryPrompt(prev, shown), SUMMARY_TOKENS, start);
  }

  lemma LastResort(m: Model, user: string)
    requires !Fits(m, m.instructions, user, SUMMARY_TOKENS) && !NewestLineFits(m, m.instructions, user, SUMMARY_TOKENS)
    ensures var sent := WithinBudget(m, m.instructions, user, SUMMARY_TOKENS);
      sent.user == Fit(m, NewestLine(user), SummaryBudget(m).(safetyMargin := SAFETY_MARGIN + Estimate(m, sent.system)), LINE_MARKER)
  {
    hide Lines, Fit, NewestLineFits, Estimate, WithinBudget;
    LastResortSends(m, m.instructions, user, SUMMARY_TOKENS);
  }

  /**
    Every completion starts from the answer to the one before, and its prompt, built from that and
    its messages, is sent as `Sends` says: whole exactly when it fits.
   */
  lemma {:induction false} SummariesChain(m: Model, pending: seq<ChatMessage>, prev: string, calls: nat, i: nat)
    requires i < |Steps(m, pending, prev, calls)|
    ensures var steps := Steps(m, pending, prev, calls);
      && steps[i].prev == LastSummary(prev, steps[..i])
      && steps[i].summary == Answer(m, steps[i].sent, calls + i)
      && Sends(m, steps[i])
    decreases i
  {
    hide NextStep, Steps, Sends, Answer;
    if pending == [] {
      NoSteps(m, prev, calls);
      assert false;
    }
    StepsUnfold(m, pending, prev, calls);
    NextStepSends(m, pending, prev, calls);
    var step := NextStep(m, pending, prev, calls);
    var steps := Steps(m, pending, prev, calls);
    if i > 0 {
      var rest := pending[..|pending| - |step.chunk|];
      var more := Steps(m, rest, step.summary, calls + 1);
      SummariesChain(m, rest, step.summary, calls + 1, i - 1);
      assert steps[i] == more[i - 1] && steps[..i] == [step] + more[..i - 1];
      assert i > 1 ==> ([step] + more[..i - 1])[i - 1] == more[..i - 1][i - 2];
    }
  }

  // ---- what is said in a prompt, and what becomes of the answer ----

  /** A message after its role. */
  function ShownLine(msg: ChatMessage): string {
    "[" + (match msg.role case Some(role) => role case None => "?") + "] " + match msg.content case Some(content) => content case None => ""
  }

  /** Each message on a line of its own. */
  function Spelled(shown: seq<ChatMessage>): string {
    if shown == [] then "" else "\n" + ShownLine(shown[0]) + Spelled(shown[1..])
  }

  lemma LineIs(msg: ChatMessage)
    ensures Line(msg) == ShownLine(msg)
  {
  }

  lemma {:induction false} LinesSpelled(head: string, shown: seq<ChatMessage>)
    ensures Join("\n", [head] + ChatLines(shown)) == head + Spelled(shown)
    decreases |shown|
  {
    hide Join, Line, ShownLine;
    if shown == [] {
      JoinOne(head);
      assert [head] + ChatLines([]) == [head] && head + "" == head;
    } else {
      var line := ShownLine(shown[0]);
      LineIs(shown[0]);
      LinesSpelled(line, shown[1..]);
      JoinCons("\n", head, [line] + ChatLines(shown[1..]));
      AppendAssociates(head, "\n", line + Spelled(shown[1..]));
      AppendAssociates("\n", line, Spelled(shown[1..]));
    }
  }

  /** The prompt: the summary so far under its heading, if there is one, then the messages under theirs. */
  lemma PromptIs(prev: string, shown: seq<ChatMessage>)
    ensures SummaryPrompt(prev, shown) ==
      (if prev == "" then "" else "## PREVIOUS SUMMARY:\n" + prev + "\n") + "## NEW MESSAGES:" + Spelled(shown)
  {
    hide Join, ChatLines, Spelled;
    var body := ["## NEW MESSAGES:"] + ChatLines(shown);
    LinesSpelled("## NEW MESSAGES:", shown);
    if prev == "" {
      assert [] + ["## NEW MESSAGES:"] + ChatLines(shown) == body;
    } else {
      var top := "## PREVIOUS SUMMARY:\n" + prev;
      assert [top] + ["## NEW MESSAGES:"] + ChatLines(shown) == [top] + body;
      JoinCons("\n", top, body);
    }
  }

  /** The summary is the model's answer to what is sent, stripped; a half of the window at most is left for it. */
  lemma AnswersAreStripped(m: Model, pending: seq<ChatMessage>, prev: string, calls: nat, i: nat)
    requires i < |Steps(m, pending, prev, calls)|
    ensures var step := Steps(m, pending, prev, calls)[i];
      && step.summary == Strip(m.complete(calls + i, step.sent.system, step.sent.user, step.sent.maxTokens))
      && step.sent == WithinBudget(m, m.instructions, SummaryPrompt(step.prev, step.shown), 512)
      && step.sent.maxTokens == if 512 <= m.nCtx / 2 then 512 else m.nCtx / 2
  {
    hide Steps, Sends, SummaryPrompt, Strip, Fit, Lines, KeptFrom, Estimate, Join;
    SummariesChain(m, pending, prev, calls, i);
    StepSends(m, pending, prev, calls, i);
  }

  lemma {:induction false} StepSends(m: Model, pending: seq<ChatMessage>, prev: string, calls: nat, i: nat)
    requires i < |Steps(m, pending, prev, calls)|
    ensures var step := Steps(m, pending, prev, calls)[i]; step.sent == SummarySent(m, step.prev, step.shown)
    decreases i
  {
    hide SummarySent, Answer, CutMessage, Room, TakenFrom;
    if pending == [] {
      NoSteps(m, prev, calls);
      assert false;
    }
    StepsUnfold(m, pending, prev, calls);
    var step := NextStep(m, pending, prev, calls);
    if i > 0 {
      StepSends(m, pending[..|pending| - |step.chunk|], step.summary, calls + 1, i - 1);
    }
  }

  /** What is left for messages: the window without the answer, the margin and the summary so far, one token at least. */
  lemma RoomIs(m: Model, prev: string)
    ensures var window := m.nCtx - (if 512 <= m.nCtx / 2 then 512 else m.nCtx / 2) - 64;
      Room(m, prev) == if window - Estimate(m, prev) >= 1 then window - Estimate(m, prev) else 1
  {
    hide Estimate;
  }

  /** A message that exceeds the room alone keeps its role, and its line is cut to the room. */
  lemma CutMessageIs(m: Model, prev: string, msg: ChatMessage)
    ensures var window := m.nCtx - (if 512 <= m.nCtx / 2 then 512 else m.nCtx / 2) - 64;
      var cut := CutMessage(m, prev, msg);
      && cut.role == Some(if msg.role.Some? then msg.role.value else "?") && cut.content.Some?
      && CutTo(m, Line(msg), if window < Estimate(m, prev) then 0 else window - Estimate(m, prev), "[...single message truncated...]", cut.content.value)
  {
    hide Estimate, Line, Fit, CutTo;
    FitWhen(m, Line(msg), SummaryBudget(m).(safetyMargin := SAFETY_MARGIN + Estimate(m, prev)), "[...single message truncated...]");
  }

  lemma NextStepSends(m: Model, pending: seq<ChatMessage>, prev: string, calls: nat)
    requires pending != []
    ensures var step := NextStep(m, pending, prev, calls);
      step.prev == prev && step.summary == Answer(m, step.sent, calls) && Sends(m, step)
  {
    hide Sends, Answer, SummarySent, CutMessage, Room;
    var first := TakenFrom(m, pending, Room(m, prev), |pending|, 0);
    if first == |pending| {
      var newest := pending[|pending| - 1];
      CompletionSends(m, prev, [newest], [CutMessage(m, prev, newest)], calls);
    } else {
      CompletionSends(m, prev, pending[first..], pending[first..], calls);
    }
  }

  lemma SentTailOfTwo(m: Model, system: string, user: string, newest: string, before: string)
    requires !Fits(m, system, user, SUMMARY_TOKENS)
    requires |Lines(user)| > 1 && NewestLine(user) == newest && Lines(user)[|Lines(user)| - 2] == before
    requires Estimate(m, system + "\n" + newest) <= SummaryBudget(m).Available() < Estimate(m, system + "\n" + (before + "\n" + newest))
    ensures WithinBudget(m, system, user, SUMMARY_TOKENS).user == newest
  {
    hide Lines, Estimate;
    var lines, n := Lines(user), |Lines(user)|;
    JoinOne(newest);
    assert lines[n - 1..] == [newest] && lines[n - 2..] == [before, newest];
    JoinCons("\n", before, [newest]);
    assert [before] + [newest] == [before, newest];
    assert KeptFrom(m, system, lines, SummaryBudget(m).Available(), n - 1) == n - 1;
  }

  lemma TailLength(user: string)
    requires |Lines(user)| > 1
    ensures |user| >= |Lines(user)[|Lines(user)| - 2]| + 1 + |NewestLine(user)|
  {
    hide Lines;
    var lines, n := Lines(user), |Lines(user)|;
    JoinLines(user);
    JoinFrom(lines, n - 2);
    assert lines[n - 2..] == [lines[n - 2]] + [lines[n - 1]];
    JoinCons("\n", lines[n - 2], [lines[n - 1]]);
    JoinOne(lines[n - 1]);
  }

  /** A message with 80 letters, and one with 46. */
  const LONG_MESSAGE := ChatMessage(Some("u"), Some(seq(80, i => 'a')))
  const OLDER_MESSAGE := ChatMessage(Some("u"), Some(seq(46, i => 'a')))
  const NEWER_MESSAGE := ChatMessage(Some("u"), Some(seq(46, i => 'b')))

  /** A window of 400 characters, of which instructions of 50 leave 136. */
  function Window(): Model {
    PerCharacter(400, seq(50, i => 'i'))
  }

  /** A summary of 20 letters. */
  function Earlier(): string {
    seq(20, i => 'p')
  }

  lemma LetterLine(c: char, n: nat)
    requires c != '\n'
    ensures var msg := ChatMessage(Some("u"), Some(seq(n, i => c))); |Line(msg)| == n + 4 && Lines(Line(msg)) == [Line(msg)]
  {
    hide Lines;
    LinesOfLine(Line(ChatMessage(Some("u"), Some(seq(n, i => c)))));
  }

  /** A message that fits the room beside the previous summary, yet the summary is not sent. */
  lemma SummaryMayBeDropped()
    ensures var step := NextStep(Window(), [LONG_MESSAGE], Earlier(), 0);
      && step.prev == Earlier() != "" && step.chunk == step.shown == [LONG_MESSAGE]
      && step.sent.user == Line(LONG_MESSAGE)
  {
    hide Lines, WithinBudget, Line;
    var m, prev, shown := Window(), Earlier(), [LONG_MESSAGE];
    var user, line := SummaryPrompt(prev, shown), Line(LONG_MESSAGE);
    LetterLine('a', 80);
    LinesOfPrompt(prev, shown);
    assert shown[1..] == [];
    assert MessageLines(shown) == [line] + MessageLines([]) == [line];
    assert TakenFrom(m, shown, Room(m, prev), 1, 0) == 0;
    assert !Fits(m, m.instructions, user, SUMMARY_TOKENS) by {
      TailLength(user);
    }
    SentTailOfTwo(m, m.instructions, user, line, "## NEW MESSAGES:");
  }

  /** Two messages that fit the room, of which only the newer is sent. */
  lemma MessageMayBeDropped()
    ensures var step := NextStep(Window(), [OLDER_MESSAGE, NEWER_MESSAGE], "", 0);
      && step.chunk == step.shown == [OLDER_MESSAGE, NEWER_MESSAGE]
      && step.sent.user == Line(NEWER_MESSAGE)
  {
    hide Lines, WithinBudget, Line;
    var m, shown := Window(), [OLDER_MESSAGE, NEWER_MESSAGE];
    var user, older, newer := SummaryPrompt("", shown), Line(OLDER_MESSAGE), Line(NEWER_MESSAGE);
    LetterLine('a', 46);
    LetterLine('b', 46);
    LinesOfPrompt("", shown);
    assert shown[1..] == [NEWER_MESSAGE] && [NEWER_MESSAGE][1..] == [];
    assert MessageLines([NEWER_MESSAGE]) == [newer] + MessageLines([]) == [newer];
    assert MessageLines(shown) == [older] + [newer] == [older, newer];
    assert TakenFrom(m, shown, Room(m, ""), 1, 50) == 0;
    assert TakenFrom(m, shown, Room(m, ""), 2, 0) == 0;
    assert !Fits(m, m.instructions, user, SUMMARY_TOKENS) by {
      TailLength(user);
    }
    SentTailOfTwo(m, m.instructions, user, newer, older);
  }
}
