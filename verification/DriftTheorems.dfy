/** When a cut text or a prompt with its lines dropped meets the budget, for any tokenizer and model. */
module DriftTheorems {
  import opened Text
  import opened Seqs
  import opened Drift

  // ---- cutting one text ----

  lemma {:induction false} SearchFindsEdge(m: Model, text: string, available: int, lo: nat, hi: nat)
    requires lo <= hi <= |text| && Estimate(m, text) > available
    requires Estimate(m, text[..lo]) <= available
    requires hi == |text| || Estimate(m, text[..hi + 1]) > available
    ensures var n := Search(m, text, available, lo, hi);
      n < |text| && Estimate(m, text[..n]) <= available && Estimate(m, text[..n + 1]) > available
    decreases hi - lo
  {
    hide Estimate;
    if lo == hi {
      assert text[..|text|] == text;
    } else {
      var mid := (lo + hi + 1) / 2;
      if Estimate(m, text[..mid]) <= available {
        SearchFindsEdge(m, text, available, mid, hi);
      } else {
        SearchFindsEdge(m, text, available, lo, mid - 1);
      }
    }
  }

  /**
    A text that does not fit is cut, for any tokenizer, to a prefix that fits and that would not
    with one more character; a text that fits is kept.
   */
  lemma FitIsAtAnEdge(m: Model, text: string, budget: TokenBudget)
    ensures var r := Fit(m, text, budget, "");
      && Estimate(m, r) <= budget.Available()
      && |r| <= |text| && r == text[..|r|]
      && (r == text <==> Estimate(m, text) <= budget.Available())
      && (r != text ==> Estimate(m, text[..|r| + 1]) > budget.Available())
  {
    assert text[..|text|] == text && text[..0] == "";
    if text != "" && Estimate(m, text) > budget.Available() {
      SearchFindsEdge(m, text, budget.Available(), 0, |text|);
    }
  }

  /** A text that fits is kept; another is cut where one character more would not fit, stripped at its end, and marked. */
  ghost predicate CutTo(m: Model, text: string, available: int, marker: string, r: string) {
    if text == "" || Estimate(m, text) <= available then r == text
    else exists n :: 0 <= n < |text| && IsEdge(m, text, available, n) && r == RStrip(text[..n]) + "\n\n" + marker
  }

  ghost predicate IsEdge(m: Model, text: string, available: int, n: nat) {
    n < |text| && Estimate(m, text[..n]) <= available && Estimate(m, text[..n + 1]) > available
  }

  lemma FitWhen(m: Model, text: string, budget: TokenBudget, marker: string)
    requires marker != ""
    ensures CutTo(m, text, budget.Available(), marker, Fit(m, text, budget, marker))
  {
    hide Estimate, RStrip, Search;
    if text != "" && Estimate(m, text) > budget.Available() {
      NothingFits(m);
      assert text[..0] == "";
      SearchFindsEdge(m, text, budget.Available(), 0, |text|);
      assert IsEdge(m, text, budget.Available(), Search(m, text, budget.Available(), 0, |text|));
    }
  }

  lemma NothingFits(m: Model)
    ensures Estimate(m, "") == 0
  {
  }

  ghost predicate MonotoneOnPrefixes(m: Model, text: string) {
    forall i, j :: 0 <= i <= j <= |text| ==> Estimate(m, text[..i]) <= Estimate(m, text[..j])
  }

  /** When a longer prefix never counts fewer tokens, the cut keeps the longest prefix that fits. */
  lemma FitIsLongest(m: Model, text: string, budget: TokenBudget, k: nat)
    requires MonotoneOnPrefixes(m, text) && k <= |text|
    ensures Estimate(m, text[..k]) <= budget.Available() <==> k <= |Fit(m, text, budget, "")|
  {
    hide Estimate, Fit;
    var r := Fit(m, text, budget, "");
    FitIsAtAnEdge(m, text, budget);
    if k <= |r| {
      assert Estimate(m, text[..k]) <= Estimate(m, text[..|r|]);
    } else {
      assert Estimate(m, text[..|r| + 1]) <= Estimate(m, text[..k]);
    }
  }

  // ---- lines ----

  lemma JoinCons(sep: string, a: string, rest: seq<string>)
    requires rest != []
    ensures Join(sep, [a] + rest) == a + sep + Join(sep, rest)
  {
    assert ([a] + rest)[1..] == rest;
  }

  lemma JoinLonger(sep: string, c: string, lines: seq<string>)
    requires lines != []
    ensures Join(sep, [c + lines[0]] + lines[1..]) == c + Join(sep, lines)
  {
    if |lines| == 1 {
      assert [c + lines[0]] + lines[1..] == [c + lines[0]];
    } else {
      JoinCons(sep, c + lines[0], lines[1..]);
      Associate(c, lines[0], sep);
      Associate(c, lines[0] + sep, Join(sep, lines[1..]));
    }
  }

  /** Splitting into lines and joining them gives the text back. */
  lemma {:induction false} JoinLines(s: string)
    ensures Join("\n", Lines(s)) == s
  {
    if s == "" {
      assert Join("\n", [""]) == "";
    } else {
      var rest := Lines(s[1..]);
      JoinLines(s[1..]);
      if s[0] == '\n' {
        JoinCons("\n", "", rest);
        assert "" + "\n" + s[1..] == s;
      } else {
        JoinLonger("\n", [s[0]], rest);
        assert [s[0]] + s[1..] == s;
      }
    }
  }

  /** The text before the lines from `k` on. */
  function Dropped(lines: seq<string>, k: nat): string
    requires k < |lines|
  {
    if k == 0 then "" else Join("\n", lines[..k]) + "\n"
  }

  lemma {:induction false} JoinFrom(lines: seq<string>, k: nat)
    requires k < |lines|
    ensures Join("\n", lines) == Dropped(lines, k) + Join("\n", lines[k..])
  {
    if k == 0 {
      assert lines[0..] == lines;
    } else {
      JoinFrom(lines[1..], k - 1);
      assert lines[1..][k - 1..] == lines[k..] && lines[1..][..k - 1] == lines[1..k];
      assert lines == [lines[0]] + lines[1..];
      JoinCons("\n", lines[0], lines[1..]);
      var tail := Join("\n", lines[k..]);
      if k == 1 {
        assert lines[..1] == [lines[0]];
      } else {
        assert lines[..k] == [lines[0]] + lines[1..k];
        JoinCons("\n", lines[0], lines[1..k]);
        var mid := Join("\n", lines[1..k]);
        assert lines[0] + "\n" + (mid + "\n" + tail) == (lines[0] + "\n" + mid) + "\n" + tail;
      }
    }
  }

  function Whole(system: string, lines: seq<string>): string {
    system + "\n" + Join("\n", lines)
  }

  lemma {:induction false} KeptFits(m: Model, system: string, lines: seq<string>, available: int, k: nat)
    requires k <= |lines| && (k < |lines| ==> Estimate(m, Whole(system, lines[k..])) <= available)
    ensures var first := KeptFrom(m, system, lines, available, k);
      && (first < |lines| ==> Estimate(m, Whole(system, lines[first..])) <= available)
      && (first > 0 ==> Estimate(m, Whole(system, lines[first - 1..])) > available)
  {
    hide Estimate, Join;
    if k > 0 && Estimate(m, Whole(system, lines[k - 1..])) <= available {
      KeptFits(m, system, lines, available, k - 1);
    }
  }

  function InputBudget(m: Model, maxOutputTokens: int): TokenBudget {
    TokenBudget(m.nCtx, Min(maxOutputTokens, m.nCtx / 2), SAFETY_MARGIN)
  }

  /** Does at least the newest line fit beside the system prompt? */
  predicate NewestLineFits(m: Model, system: string, user: string, maxOutputTokens: int) {
    Estimate(m, Whole(system, [Lines(user)[|Lines(user)| - 1]])) <= InputBudget(m, maxOutputTokens).Available()
  }

  lemma NewestKept(m: Model, system: string, lines: seq<string>, available: int)
    requires lines != []
    ensures KeptFrom(m, system, lines, available, |lines|) < |lines| <==> Estimate(m, Whole(system, [lines[|lines| - 1]])) <= available
  {
    hide Estimate, Join;
    assert lines[|lines| - 1..] == [lines[|lines| - 1]];
  }

  /** `sent` is the lines of `user` from `k` on, after `k > 0` others. */
  predicate CutAtLine(user: string, sent: string, k: nat) {
    var lines := Lines(user);
    && 0 < k < |lines|
    && sent == Join("\n", lines[k..])
    && user == Join("\n", lines[..k]) + "\n" + sent
  }

  /**
    A prompt that does not fit, whose newest line does, is sent with its first lines dropped and
    the system prompt whole: what is sent fits, ends the prompt, starts at a line, and with the line
    before it would not fit.
   */
  lemma DroppedLinesMakeItFit(m: Model, system: string, user: string, maxOutputTokens: int)
    requires Estimate(m, system + "\n" + user) > InputBudget(m, maxOutputTokens).Available()
    requires NewestLineFits(m, system, user, maxOutputTokens)
    ensures var sent := WithinBudget(m, system, user, maxOutputTokens);
      var lines, available := Lines(user), InputBudget(m, maxOutputTokens).Available();
      && sent.system == system
      && Estimate(m, system + "\n" + sent.user) <= available
      && exists k: nat :: CutAtLine(user, sent.user, k) && Estimate(m, Whole(system, lines[k - 1..])) > available
  {
    hide Estimate, Lines, Join, Fit;
    var lines, available := Lines(user), InputBudget(m, maxOutputTokens).Available();
    NewestKept(m, system, lines, available);
    KeptFits(m, system, lines, available, |lines|);
    var k := KeptFrom(m, system, lines, available, |lines|);
    JoinLines(user);
    assert lines[0..] == lines;
    assert k != 0;
    JoinFrom(lines, k);
    assert CutAtLine(user, Join("\n", lines[k..]), k);
  }

  // ---- the last resort ----

  /** A text counts the tokens of its parts. */
  ghost predicate Additive(m: Model) {
    forall a, b :: Estimate(m, a + b) == Estimate(m, a) + Estimate(m, b)
  }

  /**
    Any character of the text, with the white space right before it, counts no more tokens than
    the marker that takes the place of what is cut.
   */
  ghost predicate SmallGaps(m: Model, text: string, marker: string) {
    forall i :: 0 <= i < |text| ==> GapTokens(m, text, i) <= Estimate(m, "\n\n" + marker)
  }

  function GapTokens(m: Model, text: string, i: nat): nat
    requires i < |text|
  {
    RStripFacts(text[..i]);
    Estimate(m, text[|RStrip(text[..i])|..i + 1])
  }

  lemma CutAndGap(m: Model, text: string, n: nat)
    requires Additive(m) && n < |text|
    ensures Estimate(m, text[..n + 1]) == Estimate(m, RStrip(text[..n])) + GapTokens(m, text, n)
  {
    hide RStrip, Estimate;
    var kept := RStrip(text[..n]);
    RStripFacts(text[..n]);
    assert kept + text[|kept|..n + 1] == text[..n + 1];
  }

  lemma MarkedTokens(m: Model, text: string, marker: string)
    requires Additive(m) && marker != ""
    ensures Estimate(m, Marked(text, marker)) == Estimate(m, RStrip(text)) + Estimate(m, "\n\n" + marker)
  {
    hide RStrip, Estimate;
    assert RStrip(text) + ("\n\n" + marker) == Marked(text, marker);
  }

  /** A text cut under a marker exceeds the budget it is cut to. */
  lemma MarkedExceeds(m: Model, text: string, budget: TokenBudget, marker: string)
    requires Additive(m) && SmallGaps(m, text, marker) && marker != ""
    requires Estimate(m, text) > budget.Available()
    ensures Estimate(m, Fit(m, text, budget, marker)) > budget.Available()
  {
    hide Search, RStrip, GapTokens, Marked, Additive;
    var available := budget.Available();
    assert text[..0] == "" && text[..|text|] == text;
    SearchFindsEdge(m, text, available, 0, |text|);
    var n := Search(m, text, available, 0, |text|);
    CutAndGap(m, text, n);
    MarkedTokens(m, text[..n], marker);
  }

  function NewestLine(user: string): string {
    Lines(user)[|Lines(user)| - 1]
  }

  /** What is sent when not even the newest line fits. */
  lemma LastResortSends(m: Model, system: string, user: string, maxOutputTokens: int)
    requires Estimate(m, system + "\n" + user) > InputBudget(m, maxOutputTokens).Available()
    requires !NewestLineFits(m, system, user, maxOutputTokens)
    ensures var budget := InputBudget(m, maxOutputTokens);
      var sent := WithinBudget(m, system, user, maxOutputTokens);
      && sent.system == Fit(m, system, budget, SYSTEM_MARKER)
      && sent.user == Fit(m, NewestLine(user), budget.(safetyMargin := SAFETY_MARGIN + Estimate(m, sent.system)), LINE_MARKER)
  {
    hide Estimate, Lines, Join, Fit;
    NewestKept(m, system, Lines(user), InputBudget(m, maxOutputTokens).Available());
  }

  /** When not even the newest line fits, the system prompt is cut to the window, and the newest line to what it leaves. */
  lemma LastResortCuts(m: Model, system: string, user: string, maxOutputTokens: int)
    requires Estimate(m, system + "\n" + user) > InputBudget(m, maxOutputTokens).Available()
    requires !NewestLineFits(m, system, user, maxOutputTokens)
    ensures var sent := WithinBudget(m, system, user, maxOutputTokens);
      var output := if maxOutputTokens <= m.nCtx / 2 then maxOutputTokens else m.nCtx / 2;
      var window := m.nCtx - output - 64;
      && CutTo(m, system, if window < 0 then 0 else window, SYSTEM_MARKER, sent.system)
      && CutTo(m, NewestLine(user), if window < Estimate(m, sent.system) then 0 else window - Estimate(m, sent.system), LINE_MARKER, sent.user)
  {
    hide Estimate, Fit, CutTo, WithinBudget, NewestLineFits, NewestLine;
    LastResortSends(m, system, user, maxOutputTokens);
    var budget := InputBudget(m, maxOutputTokens);
    var sent := WithinBudget(m, system, user, maxOutputTokens);
    FitWhen(m, system, budget, SYSTEM_MARKER);
    FitWhen(m, NewestLine(user), budget.(safetyMargin := SAFETY_MARGIN + Estimate(m, sent.system)), LINE_MARKER);
  }

  lemma KeptWhole(m: Model, text: string, budget: TokenBudget, marker: string)
    ensures Estimate(m, text) <= budget.Available() ==> Fit(m, text, budget, marker) == text
  {
    hide Search, Marked;
  }

  lemma SentTokens(m: Model, system: string, user: string)
    requires Additive(m)
    ensures Estimate(m, system + "\n" + user) == Estimate(m, system) + Estimate(m, "\n") + Estimate(m, user)
  {
    hide Estimate;
  }

  lemma LastResortExceeds(m: Model, system: string, user: string, maxOutputTokens: int)
    requires Additive(m) && SmallGaps(m, system, SYSTEM_MARKER) && SmallGaps(m, NewestLine(user), LINE_MARKER)
    requires Estimate(m, system + "\n" + user) > InputBudget(m, maxOutputTokens).Available()
    requires !NewestLineFits(m, system, user, maxOutputTokens)
    ensures var sent := WithinBudget(m, system, user, maxOutputTokens);
      Estimate(m, sent.system + "\n" + sent.user) > InputBudget(m, maxOutputTokens).Available()
  {
    hide WithinBudget, Lines, SmallGaps, Fit, Additive, Estimate, Join;
    var budget, line := InputBudget(m, maxOutputTokens), NewestLine(user);
    var sent := WithinBudget(m, system, user, maxOutputTokens);
    var lineBudget := budget.(safetyMargin := SAFETY_MARGIN + Estimate(m, sent.system));
    LastResortSends(m, system, user, maxOutputTokens);
    SentTokens(m, sent.system, sent.user);
    if Estimate(m, system) > budget.Available() {
      MarkedExceeds(m, system, budget, SYSTEM_MARKER);
    } else {
      KeptWhole(m, system, budget, SYSTEM_MARKER);
      KeptWhole(m, line, lineBudget, LINE_MARKER);
      if Estimate(m, line) > lineBudget.Available() {
        MarkedExceeds(m, line, lineBudget, LINE_MARKER);
      } else {
        assert sent.user == line;
        JoinOne(line);
      }
    }
  }

  /**
    The guarantee of a fit, exactly: for an additive estimate and texts whose gaps of white space
    are small, what is sent fits if and only if the prompt did, or its newest line does.  The last
    resort never fits.
   */
  lemma SentFitsWhen(m: Model, system: string, user: string, maxOutputTokens: int)
    requires Additive(m) && SmallGaps(m, system, SYSTEM_MARKER) && SmallGaps(m, NewestLine(user), LINE_MARKER)
    ensures var sent := WithinBudget(m, system, user, maxOutputTokens);
      var available := InputBudget(m, maxOutputTokens).Available();
      Estimate(m, sent.system + "\n" + sent.user) <= available <==>
        Estimate(m, system + "\n" + user) <= available || NewestLineFits(m, system, user, maxOutputTokens)
  {
    hide Estimate, Lines, Join, Fit, Additive, SmallGaps, NewestLineFits;
    if Estimate(m, system + "\n" + user) > InputBudget(m, maxOutputTokens).Available() {
      if NewestLineFits(m, system, user, maxOutputTokens) {
        DroppedLinesMakeItFit(m, system, user, maxOutputTokens);
      } else {
        LastResortExceeds(m, system, user, maxOutputTokens);
      }
    }
  }

  /** One token per character. */
  function PerCharacter(nCtx: int, instructions: string): Model {
    Model(text => |text|, nCtx, (n, system, user, limit) => "", instructions)
  }

  /** An input the last resort overflows: the system prompt just fits, and a marker replaces the only line. */
  lemma LastResortMayOverflow()
    ensures var m, system := PerCharacter(200, ""), seq(100, i => 's');
      var sent := WithinBudget(m, system, "x", 36);
      Estimate(m, sent.system + "\n" + sent.user) > InputBudget(m, 36).Available() == 100
  {
    var m, system := PerCharacter(200, ""), seq(100, i => 's');
    LineOfLetter();
    assert !NewestLineFits(m, system, "x", 36);
    forall i | 0 <= i < |system| ensures GapTokens(m, system, i) <= Estimate(m, "\n\n" + SYSTEM_MARKER) {
      RStripFacts(system[..i]);
      assert !IsSpace('s');
    }
    assert GapTokens(m, "x", 0) <= 1;
    LastResortExceeds(m, system, "x", 36);
  }

  lemma LineOfLetter()
    ensures Lines("x") == ["x"] && Join("\n", ["x"]) == "x"
  {
    assert "x"[1..] == "" && ['x'] + "" == "x";
  }

  ghost predicate MonotoneOnTails(m: Model, system: string, lines: seq<string>) {
    forall i, j :: 0 <= i <= j < |lines| ==> Estimate(m, Whole(system, lines[j..])) <= Estimate(m, Whole(system, lines[i..]))
  }

  /** When more lines never count fewer tokens, no longer tail of the lines fits. */
  lemma KeptIsLongest(m: Model, system: string, lines: seq<string>, available: int, i: nat)
    requires MonotoneOnTails(m, system, lines) && i < |lines|
    ensures Estimate(m, Whole(system, lines[i..])) <= available <==> KeptFrom(m, system, lines, available, |lines|) <= i
  {
    hide Estimate, Join, Whole;
    KeptFits(m, system, lines, available, |lines|);
  }
}
