/**
 JavaScript strings: sequences of UTF-16 code units, and the code points that
 `Array.from` groups them into.
 */
module Utf16 {

  type CodeUnit = u: int | 0 <= u < 0x1_0000
  type Text = seq<CodeUnit>

  const QUOTE: CodeUnit := 0x22
  const BACKSLASH: CodeUnit := 0x5C
  const DOT: CodeUnit := 0x2E
  const TILDE: CodeUnit := 0x7E

  predicate IsHigh(u: CodeUnit) {
    0xD800 <= u <= 0xDBFF
  }

  predicate IsLow(u: CodeUnit) {
    0xDC00 <= u <= 0xDFFF
  }

  /** The units the pattern's dot does not match. */
  predicate IsLineTerminator(u: CodeUnit) {
    u == 0x0A || u == 0x0D || u == 0x2028 || u == 0x2029
  }

  /** An ASCII literal of the program and the text it stands for. */
  datatype Literal = Ascii(chars: string) {
    const text: Text := Units(chars)
  }

  function Units(s: string): (t: Text)
    ensures |t| == |s|
    ensures forall i :: 0 <= i < |s| && s[i] < 128 as char ==> t[i] == s[i] as int
  {
    seq(|s|, i requires 0 <= i < |s| => if s[i] < 128 as char then s[i] as int else 0x3F)
  }

  /** `Array.from(s)`: a surrogate pair is one element, every other unit is its own. */
  function CodePoints(s: Text): (cps: seq<Text>)
    ensures |cps| <= |s|
    ensures s != [] ==> cps != []
    ensures forall cp :: cp in cps ==> IsCodePoint(cp)
  {
    if s == [] then []
    else if |s| >= 2 && IsHigh(s[0]) && IsLow(s[1]) then [s[..2]] + CodePoints(s[2..])
    else [s[..1]] + CodePoints(s[1..])
  }

  predicate IsCodePoint(cp: Text) {
    |cp| == 1 || (|cp| == 2 && IsHigh(cp[0]) && IsLow(cp[1]))
  }

  /** `cps.join("")`. */
  function Join(cps: seq<Text>): Text {
    if cps == [] then [] else cps[0] + Join(cps[1..])
  }

  /** A code point that is half of a surrogate pair. */
  predicate IsLoneSurrogate(cp: Text) {
    |cp| == 1 && (IsHigh(cp[0]) || IsLow(cp[0]))
  }

  /** No unit of `s` is an unpaired surrogate. */
  predicate WellFormed(s: Text) {
    forall cp :: cp in CodePoints(s) ==> !IsLoneSurrogate(cp)
  }

  lemma {:induction false} JoinAppend(a: seq<Text>, b: seq<Text>)
    ensures Join(a + b) == Join(a) + Join(b)
  {
    if a == [] {
      assert a + b == b;
    } else {
      assert (a + b)[1..] == a[1..] + b;
      JoinAppend(a[1..], b);
    }
  }

  lemma {:induction false} JoinCodePoints(s: Text)
    ensures Join(CodePoints(s)) == s
  {
    if s == [] {
    } else if |s| >= 2 && IsHigh(s[0]) && IsLow(s[1]) {
      JoinCodePoints(s[2..]);
    } else {
      JoinCodePoints(s[1..]);
    }
  }

  /** What a list of code points has to satisfy to be some text's own: no lone
      high surrogate stands right before a low one. */
  predicate Canonical(cps: seq<Text>) {
    && (forall i :: 0 <= i < |cps| ==> IsCodePoint(cps[i]))
    && (forall i :: 0 <= i < |cps| - 1 ==> !Fuses(cps[i], cps[i + 1]))
  }

  predicate Fuses(a: Text, b: Text)
    requires a != [] && b != []
  {
    |a| == 1 && IsHigh(a[0]) && IsLow(b[0])
  }

  lemma {:induction false} CodePointsCanonical(s: Text)
    ensures Canonical(CodePoints(s))
    ensures s != [] ==> CodePoints(s)[0][0] == s[0]
  {
    if s != [] {
      var n := if |s| >= 2 && IsHigh(s[0]) && IsLow(s[1]) then 2 else 1;
      CodePointsCanonical(s[n..]);
      assert CodePoints(s) == [s[..n]] + CodePoints(s[n..]);
    }
  }

  lemma {:induction false} CodePointsOfJoin(cps: seq<Text>)
    requires Canonical(cps)
    ensures CodePoints(Join(cps)) == cps
    ensures cps != [] ==> Join(cps) != [] && Join(cps)[0] == cps[0][0]
  {
    if cps != [] {
      var head, rest := cps[0], Join(cps[1..]);
      CodePointsOfJoin(cps[1..]);
      assert IsCodePoint(head);
      assert |cps| > 1 ==> !Fuses(cps[0], cps[1]) && cps[1..][0] == cps[1];
      assert (head + rest)[|head|..] == rest && (head + rest)[..|head|] == head;
      assert cps == [head] + cps[1..];
    }
  }

  /** Decimal digits of a count. */
  function Digits(n: nat): (t: Text)
    ensures t != []
  {
    if n < 10 then [0x30 + n] else Digits(n / 10) + [0x30 + n % 10]
  }

  function DigitsValue(t: Text): int {
    if t == [] then 0
    else
      var unit: int := t[|t| - 1];
      10 * DigitsValue(t[..|t| - 1]) + unit - 0x30
  }

  lemma {:induction false} DigitsRoundTrip(n: nat)
    ensures DigitsValue(Digits(n)) == n
  {
    var t := Digits(n);
    if n < 10 {
      assert t[..0] == [];
    } else {
      DigitsRoundTrip(n / 10);
      assert t[..|t| - 1] == Digits(n / 10);
    }
  }

  lemma DigitsInjective(a: nat, b: nat)
    requires Digits(a) == Digits(b)
    ensures a == b
  {
    DigitsRoundTrip(a);
    DigitsRoundTrip(b);
  }

  function Pow10(k: nat): nat {
    if k == 0 then 1 else 10 * Pow10(k - 1)
  }

  lemma {:induction false} DigitsLength(n: nat, k: nat)
    requires 1 <= k && n < Pow10(k)
    ensures |Digits(n)| <= k
  {
    if n >= 10 {
      assert k >= 2 by { assert Pow10(1) == 10 * Pow10(0); }
      DigitsLength(n / 10, k - 1);
    }
  }
}
