/**
 The grammar of RFC 8259 as syntax trees: a JSON text is the printed form of a
 tree, whitespace and escapes included.
 */
module JsonSyntax {
  import opened Basics
  import opened Utf16

  /** One character of a string literal, as it is spelled. */
  datatype Piece =
    | Plain(unit: CodeUnit)
    | Short(letter: CodeUnit)
    | Hex(a: CodeUnit, b: CodeUnit, c: CodeUnit, d: CodeUnit)

  datatype Value =
    | Scalar(text: Text)  // a number, true, false or null
    | Str(pieces: seq<Piece>)
    | Arr(space: Text, elements: seq<Element>)
    | Obj(space: Text, members: seq<Member>)

  datatype Element = Element(before: Text, value: Value, after: Text)
  datatype Member = Member(before: Text, name: seq<Piece>, between: Text, element: Element)

  const COLON: CodeUnit := 0x3A
  const COMMA: CodeUnit := 0x2C
  const OPEN_BRACE: CodeUnit := 0x7B
  const CLOSE_BRACE: CodeUnit := 0x7D
  const OPEN_BRACKET: CodeUnit := 0x5B
  const CLOSE_BRACKET: CodeUnit := 0x5D
  const LETTER_U: CodeUnit := 0x75

  predicate IsStructural(u: CodeUnit) {
    u == COLON || u == COMMA || u == OPEN_BRACE || u == CLOSE_BRACE || u == OPEN_BRACKET || u == CLOSE_BRACKET
  }

  /** Text no token starts in: whitespace, numbers and the three literal names. */
  predicate IsSilent(t: Text) {
    forall i :: 0 <= i < |t| ==> t[i] != QUOTE && !IsStructural(t[i])
  }

  function HexValue(u: CodeUnit): (n: nat)
    ensures n < 16
  {
    if 0x30 <= u <= 0x39 then u - 0x30
    else if 0x41 <= u <= 0x46 then u - 0x37
    else if 0x61 <= u <= 0x66 then u - 0x57
    else 0
  }

  /** The letters after a backslash: the quote, \ / b f n r t. */
  function ShortValue(letter: CodeUnit): CodeUnit {
    if letter == 0x62 then 0x08
    else if letter == 0x66 then 0x0C
    else if letter == 0x6E then 0x0A
    else if letter == 0x72 then 0x0D
    else if letter == 0x74 then 0x09
    else letter
  }

  predicate ValidPiece(p: Piece) {
    match p
    case Plain(u) => u >= 0x20 && u != QUOTE && u != BACKSLASH
    case Short(c) => c in {QUOTE, BACKSLASH, 0x2F, 0x62, 0x66, 0x6E, 0x72, 0x74}
    case Hex(_, _, _, _) => true
  }

  function HexUnit(a: CodeUnit, b: CodeUnit, c: CodeUnit, d: CodeUnit): CodeUnit {
    4096 * HexValue(a) + 256 * HexValue(b) + 16 * HexValue(c) + HexValue(d)
  }

  function PieceText(p: Piece): Text {
    match p
    case Plain(u) => [u]
    case Short(c) => [BACKSLASH, c]
    case Hex(a, b, c, d) => [BACKSLASH, LETTER_U, a, b, c, d]
  }

  function PieceValue(p: Piece): CodeUnit {
    match p
    case Plain(u) => u
    case Short(c) => ShortValue(c)
    case Hex(a, b, c, d) => HexUnit(a, b, c, d)
  }

  predicate IsHexDigit(u: CodeUnit) {
    0x30 <= u <= 0x39 || 0x41 <= u <= 0x46 || 0x61 <= u <= 0x66
  }

  predicate ValidPieces(pieces: seq<Piece>) {
    forall p :: p in pieces ==>
      ValidPiece(p) && (p.Hex? ==> IsHexDigit(p.a) && IsHexDigit(p.b) && IsHexDigit(p.c) && IsHexDigit(p.d))
  }

  function Body(pieces: seq<Piece>): Text {
    if pieces == [] then [] else PieceText(pieces[0]) + Body(pieces[1..])
  }

  /** What a string literal stands for. */
  function Meaning(pieces: seq<Piece>): Text {
    seq(|pieces|, i requires 0 <= i < |pieces| => PieceValue(pieces[i]))
  }

  function Spelling(pieces: seq<Piece>): Text {
    [QUOTE] + Body(pieces) + [QUOTE]
  }

  predicate Valid(v: Value)
    decreases v, 0
  {
    match v
    case Scalar(t) => IsSilent(t)
    case Str(pieces) => ValidPieces(pieces)
    case Arr(space, elements) => IsSilent(space) && ValidElements(elements)
    case Obj(space, members) => IsSilent(space) && ValidMembers(members)
  }

  predicate ValidElement(e: Element)
    decreases e, 0
  {
    IsSilent(e.before) && Valid(e.value) && IsSilent(e.after)
  }

  predicate ValidElements(elements: seq<Element>)
    decreases elements, 0
  {
    elements != [] ==> ValidElement(elements[0]) && ValidElements(elements[1..])
  }

  predicate ValidMember(m: Member)
    decreases m, 0
  {
    IsSilent(m.before) && ValidPieces(m.name) && IsSilent(m.between) && ValidElement(m.element)
  }

  predicate ValidMembers(members: seq<Member>)
    decreases members, 0
  {
    members != [] ==> ValidMember(members[0]) && ValidMembers(members[1..])
  }

  function Print(v: Value): Text
    decreases v, 0
  {
    match v
    case Scalar(t) => t
    case Str(pieces) => Spelling(pieces)
    case Arr(space, elements) =>
      [OPEN_BRACKET] + (if elements == [] then space else PrintElements(elements)) + [CLOSE_BRACKET]
    case Obj(space, members) =>
      [OPEN_BRACE] + (if members == [] then space else PrintMembers(members)) + [CLOSE_BRACE]
  }

  function PrintElement(e: Element): Text
    decreases e, 0
  {
    e.before + Print(e.value) + e.after
  }

  function PrintElements(elements: seq<Element>): Text
    decreases elements, 0
  {
    if elements == [] then []
    else if |elements| == 1 then PrintElement(elements[0])
    else PrintElement(elements[0]) + [COMMA] + PrintElements(elements[1..])
  }

  function PrintMember(m: Member): Text
    decreases m, 0
  {
    m.before + Spelling(m.name) + m.between + [COLON] + PrintElement(m.element)
  }

  function PrintMembers(members: seq<Member>): Text
    decreases members, 0
  {
    if members == [] then []
    else if |members| == 1 then PrintMember(members[0])
    else PrintMember(members[0]) + [COMMA] + PrintMembers(members[1..])
  }

  // ---- What the tree is checked for ----

  /** Two members of one object whose unescaped names are equal. */
  predicate NameRepeats(members: seq<Member>) {
    exists i, j :: 0 <= i < j < |members| && Meaning(members[i].name) == Meaning(members[j].name)
  }

  /** Some object in the tree has two members of the same name. */
  predicate HasDuplicate(v: Value) {
    match v
    case Arr(_, elements) => exists e :: e in elements && HasDuplicate(e.value)
    case Obj(_, members) => NameRepeats(members) || exists m :: m in members && HasDuplicate(m.element.value)
    case _ => false
  }

  /** How many objects and arrays are open at the deepest point. */
  function Nesting(v: Value): nat
    decreases v, 0
  {
    match v
    case Arr(_, elements) => 1 + ElementsNesting(elements)
    case Obj(_, members) => 1 + MembersNesting(members)
    case _ => 0
  }

  function ElementsNesting(elements: seq<Element>): nat
    decreases elements, 0
  {
    if elements == [] then 0 else Max(Nesting(elements[0].value), ElementsNesting(elements[1..]))
  }

  function MembersNesting(members: seq<Member>): nat
    decreases members, 0
  {
    if members == [] then 0 else Max(Nesting(members[0].element.value), MembersNesting(members[1..]))
  }
}
