/** The layout steps of text preprocessing: headings set apart, lines joined into paragraphs, white space tidied. */
module Preprocessing {
  import opened Text

  const MARK0: char := '\U{E000}'
  const MARK1: char := '\U{E001}'
  const NL_MARKER: string := [MARK0, MARK1]

  // ---- step 4b: headings ----

  function Hashes(s: string): nat {
    if s != [] && s[0] == '#' then 1 + Hashes(s[1..]) else 0
  }

  /** The length of `[^\n]*` */
  function RestOfLine(s: string): (n: nat)
    ensures n <= |s|
  {
    if s != [] && s[0] != '\n' then 1 + RestOfLine(s[1..]) else 0
  }

  lemma {:induction false} HashesBound(s: string)
    ensures Hashes(s) <= |s|
    ensures forall i :: 0 <= i < Hashes(s) ==> s[i] == '#'
  {
    if s != [] && s[0] == '#' {
      HashesBound(s[1..]);
    }
  }

  /** The length of a match of `#{1,6}\s[^\n]*` at the start of `s`, or 0. */
  function HeadingLength(s: string): (n: nat)
    ensures n <= |s|
  {
    HashesBound(s);
    var h := Hashes(s);
    if 1 <= h <= 6 && h < |s| && IsSpace(s[h]) then h + 1 + RestOfLine(s[h + 1..]) else 0
  }

  /** `HEADING_FULL_LINE_RE.sub(r"\n\n\1\n\n", text)`, from a position at the start of a line or not. */
  function Wrapped(s: string, atLineStart: bool): string
    decreases |s|
  {
    if s == [] then []
    else if atLineStart && HeadingLength(s) > 0 then
      var n := HeadingLength(s);
      "\n\n" + s[..n] + "\n\n" + Wrapped(s[n..], s[n - 1] == '\n')
    else [s[0]] + Wrapped(s[1..], s[0] == '\n')
  }

  /** `re.sub(r"\n{3,}", "\n\n", text)`, after `before` newlines. */
  function Capped(s: string, before: nat): string {
    if s == [] then []
    else if s[0] != '\n' then [s[0]] + Capped(s[1..], 0)
    else (if before < 2 then ['\n'] else []) + Capped(s[1..], before + 1)
  }

  // ---- step 5: paragraphs ----

  /** `s.replace(old, new)` */
  function ReplaceAll(s: string, old': string, new': string): string
    requires old' != []
    decreases |s|
  {
    if s == [] then []
    else if old' <= s then new' + ReplaceAll(s[|old'|..], old', new')
    else [s[0]] + ReplaceAll(s[1..], old', new')
  }

  function Joined(s: string): string {
    ReplaceAll(ReplaceAll(ReplaceAll(s, "\n\n", NL_MARKER), "\n", " "), NL_MARKER, "\n\n")
  }

  // ---- step 6: white space ----

  /** `re.sub(r"[ \t]+", " ", text)`, after a blank or not. */
  function OneSpace(s: string, afterBlank: bool): string {
    if s == [] then []
    else if s[0] == ' ' || s[0] == '\t' then (if afterBlank then [] else [' ']) + OneSpace(s[1..], true)
    else [s[0]] + OneSpace(s[1..], false)
  }

  predicate SpacesThenNewline(s: string) {
    s != [] && (s[0] == '\n' || (s[0] == ' ' && SpacesThenNewline(s[1..])))
  }

  /** `re.sub(r" +\n", "\n", text)` */
  function NoTrailing(s: string): string {
    if s == [] then []
    else (if s[0] == ' ' && SpacesThenNewline(s) then [] else [s[0]]) + NoTrailing(s[1..])
  }

  function Tidied(s: string): string {
    Strip(Capped(NoTrailing(OneSpace(s, false)), 0))
  }

  /** Steps 5 and 6. */
  function Paragraphs(s: string): string {
    Tidied(Joined(s))
  }

  /** Steps 4b to 6. */
  function Layout(s: string): string {
    Paragraphs(Capped(Wrapped(s, true), 0))
  }
}
