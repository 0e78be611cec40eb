/**
  Python's view of text: white space, strip, join, the code point order of strings,
  and decimal numerals.  Everything the string-handling components share.
 */
module Text {

  /** `str.isspace` of one character, which is also what `\s` matches. */
  predicate IsSpace(c: char) {
    var n := c as int;
    0x09 <= n <= 0x0D || 0x1C <= n <= 0x20 || n == 0x85 || n == 0xA0 || n == 0x1680 ||
    0x2000 <= n <= 0x200A || n == 0x2028 || n == 0x2029 || n == 0x202F || n == 0x205F || n == 0x3000
  }

  function LStrip(s: string): string {
    if s != [] && IsSpace(s[0]) then LStrip(s[1..]) else s
  }

  function RStrip(s: string): string {
    if s != [] && IsSpace(s[|s| - 1]) then RStrip(s[..|s| - 1]) else s
  }

  function Strip(s: string): string {
    RStrip(LStrip(s))
  }

  predicate Blank(s: string) {
    Strip(s) == []
  }

  /** No white space at either end. */
  predicate Stripped(s: string) {
    s == [] || (!IsSpace(s[0]) && !IsSpace(s[|s| - 1]))
  }

  /** The characters of `s` that are not white space, in order. */
  function Ink(s: string): string {
    if s == [] then [] else (if IsSpace(s[0]) then [] else [s[0]]) + Ink(s[1..])
  }

  lemma {:induction false} InkConcat(a: string, b: string)
    ensures Ink(a + b) == Ink(a) + Ink(b)
  {
    hide IsSpace;
    if a == [] {
      assert a + b == b;
    } else {
      InkConcat(a[1..], b);
      assert (a + b)[1..] == a[1..] + b && (a + b)[0] == a[0];
      AppendAssociates(if IsSpace(a[0]) then [] else [a[0]], Ink(a[1..]), Ink(b));
    }
  }

  lemma AppendAssociates(a: string, b: string, c: string)
    ensures a + (b + c) == (a + b) + c
  {
  }

  lemma InkSplit(s: string, i: nat)
    requires i <= |s|
    ensures Ink(s) == Ink(s[..i]) + Ink(s[i..])
  {
    hide Ink;
    InkConcat(s[..i], s[i..]);
    assert s[..i] + s[i..] == s;
  }

  lemma {:induction false} InkOfSpaces(s: string)
    requires forall i :: 0 <= i < |s| ==> IsSpace(s[i])
    ensures Ink(s) == []
  {
    hide IsSpace;
    if s != [] {
      InkOfSpaces(s[1..]);
    }
  }

  lemma {:induction false} LStripFacts(s: string)
    ensures |LStrip(s)| <= |s| && LStrip(s) == s[|s| - |LStrip(s)|..]
    ensures Ink(LStrip(s)) == Ink(s)
    ensures LStrip(s) == [] || !IsSpace(LStrip(s)[0])
    ensures LStrip(s) == s <==> s == [] || !IsSpace(s[0])
  {
    hide IsSpace;
    if s != [] && IsSpace(s[0]) {
      LStripFacts(s[1..]);
    }
  }

  lemma {:induction false} RStripFacts(s: string)
    ensures |RStrip(s)| <= |s| && RStrip(s) == s[..|RStrip(s)|]
    ensures Ink(RStrip(s)) == Ink(s)
    ensures RStrip(s) == [] || !IsSpace(RStrip(s)[|RStrip(s)| - 1])
    ensures RStrip(s) == s <==> s == [] || !IsSpace(s[|s| - 1])
  {
    hide IsSpace;
    if s != [] && IsSpace(s[|s| - 1]) {
      RStripFacts(s[..|s| - 1]);
      InkSplit(s, |s| - 1);
      InkOfSpaces(s[|s| - 1..]);
    }
  }

  /** Stripping keeps the ink, leaves clean ends, and is the identity exactly on clean strings. */
  lemma StripFacts(s: string)
    ensures Ink(Strip(s)) == Ink(s)
    ensures Stripped(Strip(s))
    ensures |Strip(s)| <= |s|
    ensures Strip(s) == s <==> Stripped(s)
    ensures Strip(s) == [] <==> Ink(s) == []
  {
    hide IsSpace;
    LStripFacts(s);
    RStripFacts(LStrip(s));
    var r := Strip(s);
    if r != [] {
      assert r[0] == LStrip(s)[0];
      InkSplit(r, 1);
      assert Ink(r[..1]) == [r[0]] + Ink(r[..1][1..]);
    }
  }

  /** `sep.join(parts)` */
  function Join(sep: string, parts: seq<string>): string {
    if parts == [] then ""
    else if |parts| == 1 then parts[0]
    else parts[0] + sep + Join(sep, parts[1..])
  }

  function Concat(parts: seq<string>): string {
    if parts == [] then "" else parts[0] + Concat(parts[1..])
  }

  lemma ConcatOne(s: string)
    ensures Concat([s]) == s
  {
    assert [s][1..] == [];
  }

  lemma ConcatCons(s: string, parts: seq<string>)
    ensures Concat([s] + parts) == s + Concat(parts)
  {
    assert ([s] + parts)[1..] == parts;
  }

  lemma {:induction false} ConcatAppend(a: seq<string>, b: seq<string>)
    ensures Concat(a + b) == Concat(a) + Concat(b)
  {
    if a == [] {
      assert a + b == b;
    } else {
      ConcatAppend(a[1..], b);
      ConcatCons(a[0], a[1..] + b);
      assert a + b == [a[0]] + (a[1..] + b);
      AppendAssociates(a[0], Concat(a[1..]), Concat(b));
    }
  }

  /** Joining with a white-space separator adds no ink. */
  lemma {:induction false} InkJoin(sep: string, parts: seq<string>)
    requires Ink(sep) == []
    ensures Ink(Join(sep, parts)) == Ink(Concat(parts))
  {
    hide IsSpace;
    if |parts| == 1 {
      assert Concat(parts) == parts[0] + Concat(parts[1..]) == parts[0];
    } else if |parts| > 1 {
      var rest := Join(sep, parts[1..]);
      InkJoin(sep, parts[1..]);
      InkConcat(parts[0] + sep, rest);
      InkConcat(parts[0], sep);
      InkConcat(parts[0], Concat(parts[1..]));
    }
  }

  /** Strings compare by code points, a proper prefix first. */
  predicate StrLe(a: string, b: string) {
    a == [] || (b != [] && (a[0] < b[0] || (a[0] == b[0] && StrLe(a[1..], b[1..]))))
  }

  /** Strings are ordered by the first character in which they differ; a prefix comes first. */
  lemma {:induction false} StrLeWhen(a: string, b: string)
    ensures StrLe(a, b) <==>
      exists k: nat :: k <= |a| && k <= |b| && a[..k] == b[..k] && (k == |a| || (k < |b| && a[k] < b[k]))
  {
    if a == [] {
      assert a[..0] == b[..0];
    } else if b != [] && a[0] == b[0] {
      StrLeWhen(a[1..], b[1..]);
      if k: nat :| k <= |a[1..]| && k <= |b[1..]| && a[1..][..k] == b[1..][..k] && (k == |a[1..]| || (k < |b[1..]| && a[1..][k] < b[1..][k])) {
        assert a[..k + 1] == [a[0]] + a[1..][..k] && b[..k + 1] == [b[0]] + b[1..][..k];
      }
      if k: nat :| k <= |a| && k <= |b| && a[..k] == b[..k] && (k == |a| || (k < |b| && a[k] < b[k])) {
        assert k > 0;
        assert a[1..][..k - 1] == a[..k][1..] && b[1..][..k - 1] == b[..k][1..];
      }
    } else if b != [] {
      if a[0] < b[0] {
        assert a[..0] == b[..0];
      }
      forall k: nat | 0 < k <= |a| && k <= |b| ensures a[..k] != b[..k] {
        assert a[..k][0] == a[0] && b[..k][0] == b[0];
      }
    }
  }

  lemma {:induction false} StrLeTotal(a: string, b: string)
    ensures StrLe(a, b) || StrLe(b, a)
  {
    if a != [] && b != [] {
      StrLeTotal(a[1..], b[1..]);
    }
  }

  lemma {:induction false} StrLeAntisymmetric(a: string, b: string)
    requires StrLe(a, b) && StrLe(b, a)
    ensures a == b
  {
    if a != [] && b != [] {
      StrLeAntisymmetric(a[1..], b[1..]);
      assert a == [a[0]] + a[1..] && b == [b[0]] + b[1..];
    }
  }

  lemma {:induction false} StrLeTransitive(a: string, b: string, c: string)
    requires StrLe(a, b) && StrLe(b, c)
    ensures StrLe(a, c)
  {
    if a != [] && a[0] == b[0] == c[0] {
      StrLeTransitive(a[1..], b[1..], c[1..]);
    }
  }

  // ---- decimal numerals ----

  function Digit(d: nat): char
    requires d < 10
  {
    ('0' as int + d) as char
  }

  predicate IsDigit(c: char) {
    '0' <= c <= '9'
  }

  /** `str(n)` for a natural number. */
  function Decimal(n: nat): (s: string)
    ensures s != [] && forall i :: 0 <= i < |s| ==> IsDigit(s[i])
  {
    if n < 10 then [Digit(n)] else Decimal(n / 10) + [Digit(n % 10)]
  }

  /** `str(i)` */
  function IntText(i: int): string {
    if i < 0 then "-" + Decimal(-i) else Decimal(i)
  }

  /** `f"{n:02d}"` */
  function Pad2(n: nat): string {
    if n < 10 then "0" + Decimal(n) else Decimal(n)
  }

  /** The number a numeral denotes. */
  function Numeral(s: string): nat
    requires forall i :: 0 <= i < |s| ==> IsDigit(s[i])
  {
    if s == [] then 0
    else
      assert IsDigit(s[|s| - 1]);
      10 * Numeral(s[..|s| - 1]) + (s[|s| - 1] as int - '0' as int)
  }

  lemma {:induction false} NumeralOfDecimal(n: nat)
    ensures Numeral(Decimal(n)) == n
  {
    if n >= 10 {
      NumeralOfDecimal(n / 10);
      assert Decimal(n)[..|Decimal(n)| - 1] == Decimal(n / 10);
    } else {
      assert Decimal(n)[..0] == [];
    }
  }

  lemma NumeralOfPad2(n: nat)
    ensures forall i :: 0 <= i < |Pad2(n)| ==> IsDigit(Pad2(n)[i])
    ensures Numeral(Pad2(n)) == n
  {
    NumeralOfDecimal(n);
    if n < 10 {
      assert Pad2(n)[..1] == "0" && Pad2(n)[..1][..0] == [];
      assert Numeral("0") == 0;
    }
  }

  lemma Pad2Injective(m: nat, n: nat)
    requires Pad2(m) == Pad2(n)
    ensures m == n
  {
    NumeralOfPad2(m);
    NumeralOfPad2(n);
  }

  lemma IntTextInjective(i: int, j: int)
    requires IntText(i) == IntText(j)
    ensures i == j
  {
    NumeralOfDecimal(if i < 0 then -i else i);
    NumeralOfDecimal(if j < 0 then -j else j);
    assert IsDigit(Decimal(if i < 0 then -i else i)[0]) && IsDigit(Decimal(if j < 0 then -j else j)[0]);
    if i < 0 && j < 0 {
      assert IntText(i)[1..] == Decimal(-i) && IntText(j)[1..] == Decimal(-j);
    }
  }
}
