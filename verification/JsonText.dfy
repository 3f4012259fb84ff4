/**
 JSON values and the text `JSON.stringify(value, null, 2)` gives them: the wire
 form of every error result.
 */
module JsonText {
  import opened Basics
  import opened Utf16

  datatype Json =
    | Null
    | Bool(flag: bool)
    | Number(numeral: Text)  // what `String(n)` gives
    | String(text: Text)
    | Array(items: seq<Json>)
    | Object(entries: seq<Entry>)  // own properties, in enumeration order

  datatype Entry = Entry(key: Text, value: Json)

  /** No JavaScript array or object reaches this many elements. */
  const LENGTH_LIMIT: nat := 0x20_0000_0000_0000

  /** The longest decimal text of a double, as in "-0.0000012345678901234567". */
  const NUMERAL_LIMIT: nat := 25

  /** The limits every value a JavaScript engine can hold keeps. */
  predicate Genuine(v: Json)
    decreases v
  {
    match v
    case Number(n) => |n| <= NUMERAL_LIMIT
    case Array(items) => |items| < LENGTH_LIMIT && forall x :: x in items ==> Genuine(x)
    case Object(entries) =>
      |entries| < LENGTH_LIMIT && DistinctKeys(entries) && forall e :: e in entries ==> Genuine(e.value)
    case _ => true
  }

  /** The number a length or a count is. */
  function Count(n: nat): (v: Json)
    ensures v.Number? && (n < LENGTH_LIMIT ==> |v.numeral| <= 16)
  {
    assert n < LENGTH_LIMIT ==> |Digits(n)| <= 16 by {
      PowersOfTen();
      if n < LENGTH_LIMIT { DigitsLength(n, 16); }
    }
    Number(Digits(n))
  }

  lemma PowersOfTen()
    ensures Pow10(16) == 10_000_000_000_000_000
  {
    assert Pow10(4) == 10_000;
    assert Pow10(8) == 10_000 * 10_000;
    assert Pow10(12) == 10_000 * 100_000_000;
    assert Pow10(16) == 10_000 * 1_000_000_000_000;
  }

  predicate HasKey(entries: seq<Entry>, key: Text) {
    exists i :: 0 <= i < |entries| && entries[i].key == key
  }

  /** Property read `object[key]`, for keys no prototype supplies. */
  function Get(entries: seq<Entry>, key: Text): (v: Option<Json>)
    ensures v.Some? <==> HasKey(entries, key)
    ensures v.Some? ==> Entry(key, v.value) in entries
  {
    if entries == [] then None
    else if entries[0].key == key then Some(entries[0].value)
    else
      var v := Get(entries[1..], key);
      assert HasKey(entries[1..], key) ==> HasKey(entries, key);
      assert HasKey(entries, key) ==> HasKey(entries[1..], key) by {
        if HasKey(entries, key) {
          var i :| 0 <= i < |entries| && entries[i].key == key;
          assert entries[1..][i - 1] == entries[i];
        }
      }
      v
  }

  predicate DistinctKeys(entries: seq<Entry>) {
    forall i, j :: 0 <= i < j < |entries| ==> entries[i].key != entries[j].key
  }

  // ---- Text ----

  /** One code point inside a string literal, with the escapes of RFC 8259
      section 7 that `JSON.stringify` uses; a lone surrogate is written \udXXX. */
  function Escape(cp: Text): (t: Text)
    requires IsCodePoint(cp)
    ensures 1 <= |t| <= 6
    ensures IsPlain(cp) ==> t == cp
  {
    var u := cp[0];
    if |cp| == 2 then cp
    else if u == QUOTE || u == BACKSLASH then [BACKSLASH, u]
    else if u == 0x08 then Ascii("\\b").text
    else if u == 0x09 then Ascii("\\t").text
    else if u == 0x0A then Ascii("\\n").text
    else if u == 0x0C then Ascii("\\f").text
    else if u == 0x0D then Ascii("\\r").text
    else if u < 0x20 || IsHigh(u) || IsLow(u) then
      [BACKSLASH, 'u' as int, HexDigit(u / 4096), HexDigit(u / 256 % 16), HexDigit(u / 16 % 16), HexDigit(u % 16)]
    else cp
  }

  function HexDigit(d: int): CodeUnit
    requires 0 <= d < 16
  {
    if d < 10 then 0x30 + d else 0x61 + d - 10
  }

  /** Printable ASCII that a string literal holds as it is. */
  predicate IsPlainUnit(u: CodeUnit) {
    0x20 <= u <= 0x7E && u != QUOTE && u != BACKSLASH
  }

  predicate IsPlain(cp: Text) {
    |cp| == 1 && IsPlainUnit(cp[0])
  }

  function EscapeAll(cps: seq<Text>): (t: Text)
    requires forall cp :: cp in cps ==> IsCodePoint(cp)
    ensures |cps| <= |t| <= 6 * |cps|
  {
    if cps == [] then [] else Escape(cps[0]) + EscapeAll(cps[1..])
  }

  function Quote(s: Text): Text {
    [QUOTE] + EscapeAll(CodePoints(s)) + [QUOTE]
  }

  function NewLine(indent: nat): (t: Text)
    ensures |t| == 1 + indent
  {
    [0x0A] + seq(indent, _ => 0x20)
  }

  /** `JSON.stringify(v, null, 2)` at nesting indent `indent`. */
  function Stringify(v: Json, indent: nat): Text
    decreases v, 0
  {
    match v
    case Null => Ascii("null").text
    case Bool(b) => if b then Ascii("true").text else Ascii("false").text
    case Number(n) => n
    case String(s) => Quote(s)
    case Array(items) =>
      if items == [] then Ascii("[]").text
      else ['[' as int] + Elements(items, indent + 2) + NewLine(indent) + [']' as int]
    case Object(entries) =>
      if entries == [] then Ascii("{}").text
      else ['{' as int] + Members(entries, indent + 2) + NewLine(indent) + ['}' as int]
  }

  function Elements(items: seq<Json>, indent: nat): Text
    decreases items, 0
  {
    if items == [] then []
    else
      NewLine(indent) + Stringify(items[0], indent) + (if |items| > 1 then [',' as int] else [])
      + Elements(items[1..], indent)
  }

  function Members(entries: seq<Entry>, indent: nat): Text
    decreases entries, 0
  {
    if entries == [] then []
    else
      NewLine(indent) + Quote(entries[0].key) + Ascii(": ").text + Stringify(entries[0].value, indent)
      + (if |entries| > 1 then [',' as int] else []) + Members(entries[1..], indent)
  }
}
