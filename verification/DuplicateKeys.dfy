/**
 The duplicate-key check of the grounding configuration: a flat loop over tokens
 with a stack of key sets, related to the tree the text was printed from.
 */
module DuplicateKeys {
  import opened Basics
  import opened Utf16
  import opened JsonSyntax

  const MAX_NESTING: nat := 16

  datatype Token = Punct(unit: CodeUnit) | Quoted(text: Text)

  // ---- The token pattern ----

  function Longer(n: Option<nat>, k: nat): Option<nat> {
    if n.Some? then Some(n.value + k) else None
  }

  /** How many units a string literal's rest takes up to and including its closing quote. */
  function Closing(t: Text): (n: Option<nat>)
    ensures n.Some? ==> 1 <= n.value <= |t|
  {
    if t == [] then None
    else if t[0] == QUOTE then Some(1)
    else if t[0] != BACKSLASH then Longer(Closing(t[1..]), 1)
    else if |t| < 2 || IsLineTerminator(t[1]) then None
    else Longer(Closing(t[2..]), 2)
  }

  /** `raw.match(/"(?:\\.|[^"\\])*"|[{}[\]:,]/g)`. */
  function Tokens(t: Text): seq<Token>
    decreases |t|
  {
    if t == [] then []
    else if t[0] == QUOTE && Closing(t[1..]).Some? then
      var end := 1 + Closing(t[1..]).value;
      [Quoted(t[..end])] + Tokens(t[end..])
    else if IsStructural(t[0]) then [Punct(t[0])] + Tokens(t[1..])
    else Tokens(t[1..])
  }

  /** `JSON.parse` of a string literal's body. */
  function Unescape(body: Text): Text {
    if body == [] then []
    else if body[0] != BACKSLASH || |body| < 2 then [body[0]] + Unescape(body[1..])
    else if body[1] == LETTER_U && |body| >= 6 then
      [HexUnit(body[2], body[3], body[4], body[5])] + Unescape(body[6..])
    else [ShortValue(body[1])] + Unescape(body[2..])
  }

  function KeyOf(token: Text): Text {
    if |token| < 2 then [] else Unescape(token[1..|token| - 1])
  }

  // ---- The loop ----

  /** The key set of an open object, or none for an open array. */
  type Stack = seq<Option<set<Text>>>

  datatype Outcome = Rejected | Passed(stack: Stack)

  function Pop(stack: Stack): Stack {
    if stack == [] then [] else stack[..|stack| - 1]
  }

  /** What one token does, given the one after it. */
  function Step(token: Token, next: Option<Token>, stack: Stack): Outcome {
    match token
    case Punct(u) =>
      if u == OPEN_BRACE || u == OPEN_BRACKET then
        var pushed := stack + [if u == OPEN_BRACE then Some({}) else None];
        if |pushed| > MAX_NESTING then Rejected else Passed(pushed)
      else if u == CLOSE_BRACE || u == CLOSE_BRACKET then Passed(Pop(stack))
      else Passed(stack)
    case Quoted(text) =>
      if next != Some(Punct(COLON)) then Passed(stack)
      else if stack == [] || stack[|stack| - 1].None? then Rejected
      else
        var keys := stack[|stack| - 1].value;
        if KeyOf(text) in keys then Rejected
        else Passed(stack[|stack| - 1 := Some(keys + {KeyOf(text)})])
  }

  function Next(tokens: seq<Token>): Option<Token> {
    if |tokens| > 1 then Some(tokens[1]) else None
  }

  function Run(tokens: seq<Token>, stack: Stack): Outcome
    decreases |tokens|
  {
    if tokens == [] then Passed(stack)
    else
      match Step(tokens[0], Next(tokens), stack)
      case Rejected => Rejected
      case Passed(after) => Run(tokens[1..], after)
  }

  /** The run from the `index`-th token on is its step and the run behind it. */
  lemma RunStep(tokens: seq<Token>, index: nat, next: Option<Token>, stack: Stack)
    requires index < |tokens| && next == if index + 1 < |tokens| then Some(tokens[index + 1]) else None
    ensures Run(tokens[index..], stack) ==
      match Step(tokens[index], next, stack)
      case Rejected => Rejected
      case Passed(after) => Run(tokens[index + 1..], after)
  {
    var rest := tokens[index..];
    assert rest[0] == tokens[index] && rest[1..] == tokens[index + 1..] && next == Next(rest);
  }

  /** Whatever valid text `raw` prints: the run over its tokens decides. */
  lemma CheckDecides(raw: Text)
    ensures forall before, v, after ::
      Valid(v) && IsSilent(before) && IsSilent(after) && raw == before + Print(v) + after ==>
      (Run(Tokens(raw), []).Rejected? <==> HasDuplicate(v) || Nesting(v) > MAX_NESTING)
  {
    forall before, v, after | Valid(v) && IsSilent(before) && IsSilent(after) && raw == before + Print(v) + after
      ensures Run(Tokens(raw), []).Rejected? <==> HasDuplicate(v) || Nesting(v) > MAX_NESTING
    {
      CheckIsExact(before, v, after);
    }
  }

  method RejectDuplicateKeys(raw: Text) returns (rejected: bool)
    ensures rejected == Run(Tokens(raw), []).Rejected?
    ensures forall before, v, after ::
      Valid(v) && IsSilent(before) && IsSilent(after) && raw == before + Print(v) + after ==>
      (rejected <==> HasDuplicate(v) || Nesting(v) > MAX_NESTING)
  {
    var tokens := Tokens(raw);
    CheckDecides(raw);
    var stack: Stack := [];
    var index := 0;
    while index < |tokens|
      invariant 0 <= index <= |tokens|
      invariant Run(tokens[index..], stack) == Run(tokens, [])
    {
      var token := tokens[index];
      var next := if index + 1 < |tokens| then Some(tokens[index + 1]) else None;
      RunStep(tokens, index, next, stack);
      if token.Punct? {
        if token.unit == OPEN_BRACE || token.unit == OPEN_BRACKET {
          stack := stack + [if token.unit == OPEN_BRACE then Some({}) else None];
          if |stack| > MAX_NESTING { return true; }
        } else if token.unit == CLOSE_BRACE || token.unit == CLOSE_BRACKET {
          stack := Pop(stack);
        }
      } else if next == Some(Punct(COLON)) {
        if stack == [] || stack[|stack| - 1].None? { return true; }
        var keys := stack[|stack| - 1].value;
        var key := KeyOf(token.text);
        if key in keys { return true; }
        stack := stack[|stack| - 1 := Some(keys + {key})];
      }
      index := index + 1;
    }
    assert tokens[index..] == [];
    return false;
  }

  // ---- From characters to the tokens of the tree ----

  function ValueTokens(v: Value): seq<Token>
    decreases v, 0
  {
    match v
    case Scalar(_) => []
    case Str(pieces) => [Quoted(Spelling(pieces))]
    case Arr(_, elements) => [Punct(OPEN_BRACKET)] + ElementTokens(elements) + [Punct(CLOSE_BRACKET)]
    case Obj(_, members) => [Punct(OPEN_BRACE)] + MemberTokens(members) + [Punct(CLOSE_BRACE)]
  }

  function ElementTokens(elements: seq<Element>): seq<Token>
    decreases elements, 0
  {
    if elements == [] then []
    else if |elements| == 1 then ValueTokens(elements[0].value)
    else ValueTokens(elements[0].value) + [Punct(COMMA)] + ElementTokens(elements[1..])
  }

  function NameTokens(name: seq<Piece>): seq<Token> {
    [Quoted(Spelling(name)), Punct(COLON)]
  }

  function MemberTokens(members: seq<Member>): seq<Token>
    decreases members, 0
  {
    if members == [] then []
    else
      var first := NameTokens(members[0].name) + ValueTokens(members[0].element.value);
      if |members| == 1 then first else first + [Punct(COMMA)] + MemberTokens(members[1..])
  }

  lemma {:induction false} SkipSilent(t: Text, rest: Text)
    requires IsSilent(t)
    ensures Tokens(t + rest) == Tokens(rest)
  {
    if t == [] {
      assert t + rest == rest;
    } else {
      assert (t + rest)[1..] == t[1..] + rest;
      SkipSilent(t[1..], rest);
    }
  }

  lemma {:induction false} ClosingOfBody(pieces: seq<Piece>, rest: Text)
    requires ValidPieces(pieces)
    ensures Closing(Body(pieces) + [QUOTE] + rest) == Some(|Body(pieces)| + 1)
  {
    if pieces == [] {
      assert (Body(pieces) + [QUOTE] + rest)[0] == QUOTE;
    } else {
      var tail := Body(pieces[1..]) + [QUOTE] + rest;
      ClosingOfBody(pieces[1..], rest);
      assert Body(pieces) + [QUOTE] + rest == PieceText(pieces[0]) + tail;
      ClosingOfPiece(pieces[0], tail);
    }
  }

  lemma ClosingOfPiece(p: Piece, tail: Text)
    requires ValidPieces([p]) && Closing(tail).Some?
    ensures Closing(PieceText(p) + tail) == Some(|PieceText(p)| + Closing(tail).value)
  {
    assert p in [p];
    match p
    case Plain(u) => ClosingOfUnit(u, tail);
    case Short(c) => ClosingOfEscape(c, tail);
    case Hex(a, b, c, d) => ClosingOfHex(a, b, c, d, tail);
  }

  lemma ClosingOfHex(a: CodeUnit, b: CodeUnit, c: CodeUnit, d: CodeUnit, tail: Text)
    requires IsHexDigit(a) && IsHexDigit(b) && IsHexDigit(c) && IsHexDigit(d) && Closing(tail).Some?
    ensures Closing([BACKSLASH, LETTER_U, a, b, c, d] + tail) == Some(6 + Closing(tail).value)
  {
    ClosingOfDigit(d, tail);
    ClosingOfDigit(c, [d] + tail);
    ClosingOfDigit(b, [c] + ([d] + tail));
    ClosingOfDigit(a, [b] + ([c] + ([d] + tail)));
    ClosingOfEscape(LETTER_U, [a] + ([b] + ([c] + ([d] + tail))));
    OneByOne(BACKSLASH, LETTER_U, a, b, c, d, tail);
  }

  lemma OneByOne<T>(x: T, y: T, a: T, b: T, c: T, d: T, tail: seq<T>)
    ensures [x, y, a, b, c, d] + tail == [x, y] + ([a] + ([b] + ([c] + ([d] + tail))))
  {
  }

  lemma ClosingOfUnit(u: CodeUnit, tail: Text)
    requires u != QUOTE && u != BACKSLASH && Closing(tail).Some?
    ensures Closing([u] + tail) == Some(1 + Closing(tail).value)
  {
    assert ([u] + tail)[1..] == tail;
  }

  lemma ClosingOfEscape(c: CodeUnit, tail: Text)
    requires Closing(tail).Some? && !IsLineTerminator(c)
    ensures Closing([BACKSLASH, c] + tail) == Some(2 + Closing(tail).value)
  {
    AfterTwo(BACKSLASH, c, tail);
  }

  lemma AfterTwo<T>(x: T, y: T, tail: seq<T>)
    ensures var t := [x, y] + tail; |t| >= 2 && t[0] == x && t[1] == y && t[2..] == tail
  {
  }

  lemma ClosingOfDigit(u: CodeUnit, tail: Text)
    requires IsHexDigit(u) && Closing(tail).Some?
    ensures Closing([u] + tail) == Some(1 + Closing(tail).value)
  {
    ClosingOfUnit(u, tail);
  }

  lemma LexLiteral(pieces: seq<Piece>, rest: Text)
    requires ValidPieces(pieces)
    ensures Tokens(Spelling(pieces) + rest) == [Quoted(Spelling(pieces))] + Tokens(rest)
  {
    var t := Spelling(pieces) + rest;
    ClosingOfBody(pieces, rest);
    assert t[1..] == Body(pieces) + [QUOTE] + rest;
    assert t[..|Spelling(pieces)|] == Spelling(pieces) && t[|Spelling(pieces)|..] == rest;
  }

  lemma LexPunct(u: CodeUnit, rest: Text)
    requires IsStructural(u)
    ensures Tokens([u] + rest) == [Punct(u)] + Tokens(rest)
  {
    assert ([u] + rest)[1..] == rest;
  }

  /** Tokenizing a printed tree gives the tree's own tokens. */
  lemma {:induction false} LexValue(v: Value, rest: Text)
    requires Valid(v)
    ensures Tokens(Print(v) + rest) == ValueTokens(v) + Tokens(rest)
    decreases v, 0
  {
    match v
    case Scalar(t) =>
      SkipSilent(t, rest);
    case Str(pieces) =>
      LexLiteral(pieces, rest);
    case Arr(space, elements) =>
      var tail := [CLOSE_BRACKET] + rest;
      if elements == [] { SkipSilent(space, tail); } else { LexElements(elements, tail); }
      LexArray(space, elements, rest);
    case Obj(space, members) =>
      var tail := [CLOSE_BRACE] + rest;
      if members == [] { SkipSilent(space, tail); } else { LexMembers(members, tail); }
      LexObject(space, members, rest);
  }

  lemma LexArray(space: Text, elements: seq<Element>, rest: Text)
    requires Tokens((if elements == [] then space else PrintElements(elements)) + ([CLOSE_BRACKET] + rest)) ==
             ElementTokens(elements) + Tokens([CLOSE_BRACKET] + rest)
    ensures Tokens(Print(Arr(space, elements)) + rest) == ValueTokens(Arr(space, elements)) + Tokens(rest)
  {
    var inner := if elements == [] then space else PrintElements(elements);
    assert Print(Arr(space, elements)) + rest == [OPEN_BRACKET] + (inner + ([CLOSE_BRACKET] + rest));
    LexBracketed(OPEN_BRACKET, inner, CLOSE_BRACKET, rest, ElementTokens(elements));
  }

  lemma LexObject(space: Text, members: seq<Member>, rest: Text)
    requires Tokens((if members == [] then space else PrintMembers(members)) + ([CLOSE_BRACE] + rest)) ==
             MemberTokens(members) + Tokens([CLOSE_BRACE] + rest)
    ensures Tokens(Print(Obj(space, members)) + rest) == ValueTokens(Obj(space, members)) + Tokens(rest)
  {
    var inner := if members == [] then space else PrintMembers(members);
    assert Print(Obj(space, members)) + rest == [OPEN_BRACE] + (inner + ([CLOSE_BRACE] + rest));
    LexBracketed(OPEN_BRACE, inner, CLOSE_BRACE, rest, MemberTokens(members));
  }

  lemma LexBracketed(open: CodeUnit, inner: Text, close: CodeUnit, rest: Text, tokens: seq<Token>)
    requires IsStructural(open) && IsStructural(close)
    requires Tokens(inner + ([close] + rest)) == tokens + Tokens([close] + rest)
    ensures Tokens([open] + (inner + ([close] + rest))) == [Punct(open)] + tokens + [Punct(close)] + Tokens(rest)
  {
    LexPunct(open, inner + ([close] + rest));
    LexPunct(close, rest);
  }

  lemma {:induction false} LexElement(e: Element, rest: Text)
    requires ValidElement(e)
    ensures Tokens(PrintElement(e) + rest) == ValueTokens(e.value) + Tokens(rest)
    decreases e, 0
  {
    assert PrintElement(e) + rest == e.before + (Print(e.value) + (e.after + rest));
    SkipSilent(e.before, Print(e.value) + (e.after + rest));
    LexValue(e.value, e.after + rest);
    SkipSilent(e.after, rest);
  }

  lemma {:induction false} LexElements(elements: seq<Element>, rest: Text)
    requires elements != [] && ValidElements(elements)
    ensures Tokens(PrintElements(elements) + rest) == ElementTokens(elements) + Tokens(rest)
    decreases elements, 0
  {
    if |elements| == 1 {
      LexElement(elements[0], rest);
    } else {
      var more := PrintElements(elements[1..]) + rest;
      assert PrintElements(elements) + rest == PrintElement(elements[0]) + ([COMMA] + more);
      LexElement(elements[0], [COMMA] + more);
      LexElements(elements[1..], rest);
      LexComma(PrintElement(elements[0]), ValueTokens(elements[0].value), more, ElementTokens(elements[1..]),
               Tokens(rest));
    }
  }

  lemma {:induction false} LexMember(m: Member, rest: Text)
    requires ValidMember(m)
    ensures Tokens(PrintMember(m) + rest) ==
      NameTokens(m.name) + ValueTokens(m.element.value) + Tokens(rest)
    decreases m, 0
  {
    var value := PrintElement(m.element) + rest;
    Regroup(m.before, Spelling(m.name), m.between, [COLON], PrintElement(m.element), rest);
    SkipSilent(m.before, Spelling(m.name) + (m.between + ([COLON] + value)));
    LexName(m.name, m.between, value);
    LexElement(m.element, rest);
  }

  lemma Regroup<T>(a: seq<T>, b: seq<T>, c: seq<T>, d: seq<T>, e: seq<T>, f: seq<T>)
    ensures a + b + c + d + e + f == a + (b + (c + (d + (e + f))))
  {
  }

  lemma LexName(name: seq<Piece>, between: Text, rest: Text)
    requires ValidPieces(name) && IsSilent(between)
    ensures Tokens(Spelling(name) + (between + ([COLON] + rest))) == NameTokens(name) + Tokens(rest)
  {
    LexLiteral(name, between + ([COLON] + rest));
    SkipSilent(between, [COLON] + rest);
    LexPunct(COLON, rest);
  }

  lemma {:induction false} LexMembers(members: seq<Member>, rest: Text)
    requires members != [] && ValidMembers(members)
    ensures Tokens(PrintMembers(members) + rest) == MemberTokens(members) + Tokens(rest)
    decreases members, 0
  {
    if |members| == 1 {
      LexMember(members[0], rest);
    } else {
      var more := PrintMembers(members[1..]) + rest;
      assert PrintMembers(members) + rest == PrintMember(members[0]) + ([COMMA] + more);
      LexMember(members[0], [COMMA] + more);
      LexMembers(members[1..], rest);
      LexComma(PrintMember(members[0]), NameTokens(members[0].name) + ValueTokens(members[0].element.value),
               more, MemberTokens(members[1..]), Tokens(rest));
    }
  }

  lemma LexComma(first: Text, firstTokens: seq<Token>, more: Text, moreTokens: seq<Token>, after: seq<Token>)
    requires Tokens(first + ([COMMA] + more)) == firstTokens + Tokens([COMMA] + more)
    requires Tokens(more) == moreTokens + after
    ensures Tokens(first + ([COMMA] + more)) == firstTokens + [Punct(COMMA)] + moreTokens + after
  {
    LexPunct(COMMA, more);
  }

  // ---- From the token loop to the tree ----

  lemma {:induction false} UnescapeBody(pieces: seq<Piece>)
    requires ValidPieces(pieces)
    ensures Unescape(Body(pieces)) == Meaning(pieces)
  {
    if pieces != [] {
      UnescapeBody(pieces[1..]);
      assert pieces[0] in pieces;
      UnescapePiece(pieces[0], Body(pieces[1..]));
      assert Meaning(pieces) == [PieceValue(pieces[0])] + Meaning(pieces[1..]);
    }
  }

  lemma UnescapePiece(p: Piece, tail: Text)
    requires ValidPiece(p)
    ensures Unescape(PieceText(p) + tail) == [PieceValue(p)] + Unescape(tail)
  {
    match p
    case Plain(u) => UnescapePlain(u, tail);
    case Short(c) => UnescapeShort(c, tail);
    case Hex(a, b, c, d) => UnescapeHex(a, b, c, d, tail);
  }

  lemma UnescapePlain(u: CodeUnit, tail: Text)
    requires u != BACKSLASH
    ensures Unescape([u] + tail) == [u] + Unescape(tail)
  {
    assert ([u] + tail)[1..] == tail;
  }

  lemma UnescapeShort(c: CodeUnit, tail: Text)
    requires c != LETTER_U
    ensures Unescape([BACKSLASH, c] + tail) == [ShortValue(c)] + Unescape(tail)
  {
    AfterTwo(BACKSLASH, c, tail);
  }

  lemma UnescapeHex(a: CodeUnit, b: CodeUnit, c: CodeUnit, d: CodeUnit, tail: Text)
    ensures Unescape([BACKSLASH, LETTER_U, a, b, c, d] + tail) == [HexUnit(a, b, c, d)] + Unescape(tail)
  {
    AfterSix(BACKSLASH, LETTER_U, a, b, c, d, tail);
  }

  lemma AfterSix<T>(x: T, y: T, a: T, b: T, c: T, d: T, tail: seq<T>)
    ensures var t := [x, y, a, b, c, d] + tail;
      && |t| >= 6 && t[0] == x && t[1] == y && t[2] == a && t[3] == b && t[4] == c && t[5] == d
      && t[6..] == tail
  {
  }

  lemma KeyOfLiteral(pieces: seq<Piece>)
    requires ValidPieces(pieces)
    ensures KeyOf(Spelling(pieces)) == Meaning(pieces)
  {
    assert Spelling(pieces)[1..|Spelling(pieces)| - 1] == Body(pieces);
    UnescapeBody(pieces);
  }

  /** What the loop must reject in a value met under `depth` open containers. */
  predicate Bad(v: Value, depth: nat) {
    HasDuplicate(v) || Nesting(v) + depth > MAX_NESTING
  }

  predicate BadElements(elements: seq<Element>, depth: nat) {
    elements != [] && (Bad(elements[0].value, depth) || BadElements(elements[1..], depth))
  }

  function NamesOf(members: seq<Member>): set<Text> {
    set m | m in members :: Meaning(m.name)
  }

  /** A member repeats a name of `seen` or of an earlier member, or has a bad value. */
  predicate BadMembers(members: seq<Member>, seen: set<Text>, depth: nat) {
    members != [] &&
    (|| Meaning(members[0].name) in seen
     || Bad(members[0].element.value, depth)
     || BadMembers(members[1..], seen + {Meaning(members[0].name)}, depth))
  }

  predicate NoColon(tokens: seq<Token>) {
    tokens != [] ==> tokens[0] != Punct(COLON)
  }

  lemma {:induction false} BadElementsMeaning(elements: seq<Element>, depth: nat)
    requires depth <= MAX_NESTING
    ensures BadElements(elements, depth) <==>
      || ElementsNesting(elements) + depth > MAX_NESTING
      || exists e :: e in elements && HasDuplicate(e.value)
  {
    if elements != [] {
      BadElementsMeaning(elements[1..], depth);
      assert forall e :: e in elements <==> e == elements[0] || e in elements[1..];
    }
  }

  lemma {:induction false} MembersDeep(members: seq<Member>, depth: nat)
    requires depth <= MAX_NESTING
    ensures MembersNesting(members) + depth > MAX_NESTING <==>
      exists m :: m in members && Nesting(m.element.value) + depth > MAX_NESTING
  {
    if members != [] {
      MembersDeep(members[1..], depth);
      assert forall m :: m in members <==> m == members[0] || m in members[1..];
    }
  }

  lemma NameRepeatsStep(members: seq<Member>)
    requires members != []
    ensures NameRepeats(members) <==>
      Meaning(members[0].name) in NamesOf(members[1..]) || NameRepeats(members[1..])
  {
    var rest := members[1..];
    if NameRepeats(members) {
      var i, j :| 0 <= i < j < |members| && Meaning(members[i].name) == Meaning(members[j].name);
      assert rest[j - 1] == members[j] && members[j] in rest;
      if i > 0 {
        assert rest[i - 1] == members[i];
      }
    }
    if m :| m in rest && Meaning(m.name) == Meaning(members[0].name) {
      var k :| 0 <= k < |rest| && rest[k] == m;
      assert members[k + 1] == m;
    }
    if NameRepeats(rest) {
      var i, j :| 0 <= i < j < |rest| && Meaning(rest[i].name) == Meaning(rest[j].name);
      assert members[i + 1] == rest[i] && members[j + 1] == rest[j];
    }
  }

  lemma {:induction false} BadMembersMeaning(members: seq<Member>, seen: set<Text>, depth: nat)
    ensures BadMembers(members, seen, depth) <==>
      || NamesOf(members) * seen != {}
      || NameRepeats(members)
      || exists m :: m in members && Bad(m.element.value, depth)
  {
    if members != [] {
      var name, rest := Meaning(members[0].name), members[1..];
      BadMembersMeaning(rest, seen + {name}, depth);
      NameRepeatsStep(members);
      assert forall m :: m in members <==> m == members[0] || m in rest;
      assert NamesOf(members) == {name} + NamesOf(rest);
      assert NamesOf(rest) * (seen + {name}) == NamesOf(rest) * seen + NamesOf(rest) * {name};
      assert NamesOf(members) * seen == {name} * seen + NamesOf(rest) * seen;
      assert NamesOf(rest) * {name} != {} <==> name in NamesOf(rest) by {
        if name in NamesOf(rest) { assert name in NamesOf(rest) * {name}; }
      }
      assert {name} * seen != {} <==> name in seen by {
        if name in seen { assert name in {name} * seen; }
      }
    }
  }

  /** Running over a value's tokens rejects exactly when the value is bad, and
      otherwise leaves the stack as it was. */
  lemma {:induction false} RunValue(v: Value, rest: seq<Token>, stack: Stack)
    requires Valid(v) && |stack| <= MAX_NESTING && NoColon(rest)
    ensures Run(ValueTokens(v) + rest, stack) == if Bad(v, |stack|) then Rejected else Run(rest, stack)
    decreases v, 0
  {
    match v
    case Scalar(_) =>
      assert ValueTokens(v) + rest == rest;
    case Str(pieces) =>
      assert (ValueTokens(v) + rest)[1..] == rest;
    case Arr(_, elements) =>
      if |stack| == MAX_NESTING {
        TooDeep(v, rest, stack);
      } else {
        RunElements(elements, [Punct(CLOSE_BRACKET)] + rest, stack + [None]);
        RunArray(v, rest, stack);
      }
    case Obj(_, members) =>
      if |stack| == MAX_NESTING {
        TooDeep(v, rest, stack);
      } else {
        RunMembers(members, [Punct(CLOSE_BRACE)] + rest, stack, {});
        RunObject(v, rest, stack);
      }
  }

  lemma RunPunct(u: CodeUnit, rest: seq<Token>, stack: Stack)
    ensures Run([Punct(u)] + rest, stack) ==
      match Step(Punct(u), None, stack) { case Rejected => Rejected case Passed(after) => Run(rest, after) }
  {
    assert ([Punct(u)] + rest)[1..] == rest;
  }

  lemma TooDeep(v: Value, rest: seq<Token>, stack: Stack)
    requires (v.Arr? || v.Obj?) && |stack| == MAX_NESTING
    ensures Run(ValueTokens(v) + rest, stack) == Rejected && Bad(v, |stack|)
  {
    if v.Arr? {
      ArrayTokens(v, rest);
      RunPunct(OPEN_BRACKET, ElementTokens(v.elements) + ([Punct(CLOSE_BRACKET)] + rest), stack);
    } else {
      ObjectTokens(v, rest);
      RunPunct(OPEN_BRACE, MemberTokens(v.members) + ([Punct(CLOSE_BRACE)] + rest), stack);
    }
  }

  lemma ArrayTokens(v: Value, rest: seq<Token>)
    requires v.Arr?
    ensures ValueTokens(v) + rest ==
            [Punct(OPEN_BRACKET)] + (ElementTokens(v.elements) + ([Punct(CLOSE_BRACKET)] + rest))
  {
  }

  lemma ObjectTokens(v: Value, rest: seq<Token>)
    requires v.Obj?
    ensures ValueTokens(v) + rest ==
            [Punct(OPEN_BRACE)] + (MemberTokens(v.members) + ([Punct(CLOSE_BRACE)] + rest))
  {
  }

  /** A closing mark takes off what its opening mark put on the stack. */
  lemma RunClosing(u: CodeUnit, rest: seq<Token>, stack: Stack, top: Option<set<Text>>)
    requires u == CLOSE_BRACKET || u == CLOSE_BRACE
    ensures Run([Punct(u)] + rest, stack + [top]) == Run(rest, stack)
  {
    RunPunct(u, rest, stack + [top]);
    assert Pop(stack + [top]) == stack;
  }

  /** Opening and closing an array around what its elements do. */
  lemma RunArray(v: Value, rest: seq<Token>, stack: Stack)
    requires v.Arr? && |stack| < MAX_NESTING
    requires var tail := [Punct(CLOSE_BRACKET)] + rest;
      Run(ElementTokens(v.elements) + tail, stack + [None]) ==
      if BadElements(v.elements, |stack| + 1) then Rejected else Run(tail, stack + [None])
    ensures Run(ValueTokens(v) + rest, stack) == if Bad(v, |stack|) then Rejected else Run(rest, stack)
  {
    ArrayTokens(v, rest);
    RunPunct(OPEN_BRACKET, ElementTokens(v.elements) + ([Punct(CLOSE_BRACKET)] + rest), stack);
    RunClosing(CLOSE_BRACKET, rest, stack, None);
    BadArray(v, |stack|);
  }

  lemma BadArray(v: Value, depth: nat)
    requires v.Arr? && depth < MAX_NESTING
    ensures Bad(v, depth) <==> BadElements(v.elements, depth + 1)
  {
    BadElementsMeaning(v.elements, depth + 1);
  }

  /** Opening and closing an object around what its members do. */
  lemma RunObject(v: Value, rest: seq<Token>, stack: Stack)
    requires v.Obj? && |stack| < MAX_NESTING
    requires var tail := [Punct(CLOSE_BRACE)] + rest;
      Run(MemberTokens(v.members) + tail, stack + [Some({})]) ==
      if BadMembers(v.members, {}, |stack| + 1) then Rejected else Run(tail, stack + [Some({} + NamesOf(v.members))])
    ensures Run(ValueTokens(v) + rest, stack) == if Bad(v, |stack|) then Rejected else Run(rest, stack)
  {
    ObjectTokens(v, rest);
    RunPunct(OPEN_BRACE, MemberTokens(v.members) + ([Punct(CLOSE_BRACE)] + rest), stack);
    RunClosing(CLOSE_BRACE, rest, stack, Some({} + NamesOf(v.members)));
    BadObject(v, |stack|);
  }

  lemma BadObject(v: Value, depth: nat)
    requires v.Obj? && depth < MAX_NESTING
    ensures Bad(v, depth) <==> BadMembers(v.members, {}, depth + 1)
  {
    BadMembersMeaning(v.members, {}, depth + 1);
    MembersDeep(v.members, depth + 1);
  }

  lemma {:induction false} RunElements(elements: seq<Element>, rest: seq<Token>, stack: Stack)
    requires ValidElements(elements) && |stack| <= MAX_NESTING && NoColon(rest)
    ensures Run(ElementTokens(elements) + rest, stack) ==
      if BadElements(elements, |stack|) then Rejected else Run(rest, stack)
    decreases elements, 0
  {
    if elements == [] {
      assert ElementTokens(elements) + rest == rest;
    } else {
      var first, more := elements[0].value, elements[1..];
      if more == [] {
        assert ElementTokens(elements) + rest == ValueTokens(first) + rest;
        RunValue(first, rest, stack);
      } else {
        var tail := [Punct(COMMA)] + (ElementTokens(more) + rest);
        assert ElementTokens(elements) + rest == ValueTokens(first) + tail;
        RunValue(first, tail, stack);
        assert tail[1..] == ElementTokens(more) + rest;
        RunElements(more, rest, stack);
      }
    }
  }

  /** One name and its colon: reject a name already seen, else remember it. */
  lemma RunName(name: seq<Piece>, rest: seq<Token>, stack: Stack, seen: set<Text>)
    requires ValidPieces(name)
    ensures Run(NameTokens(name) + rest, stack + [Some(seen)]) ==
      if Meaning(name) in seen then Rejected else Run(rest, stack + [Some(seen + {Meaning(name)})])
  {
    KeyOfLiteral(name);
    var tokens := NameTokens(name) + rest;
    var open := stack + [Some(seen)];
    assert tokens[1..][1..] == rest;
    assert open[|open| - 1 := Some(seen + {Meaning(name)})] == stack + [Some(seen + {Meaning(name)})];
  }

  lemma {:induction false} RunMember(m: Member, rest: seq<Token>, stack: Stack, seen: set<Text>)
    requires ValidMember(m) && |stack| < MAX_NESTING && NoColon(rest)
    ensures Run(NameTokens(m.name) + (ValueTokens(m.element.value) + rest), stack + [Some(seen)]) ==
      if Meaning(m.name) in seen || Bad(m.element.value, |stack| + 1) then Rejected
      else Run(rest, stack + [Some(seen + {Meaning(m.name)})])
    decreases m, 0
  {
    assert ValidElement(m.element);
    RunName(m.name, ValueTokens(m.element.value) + rest, stack, seen);
    RunValue(m.element.value, rest, stack + [Some(seen + {Meaning(m.name)})]);
  }

  lemma {:induction false} RunMembers(members: seq<Member>, rest: seq<Token>, stack: Stack, seen: set<Text>)
    requires ValidMembers(members) && |stack| < MAX_NESTING && NoColon(rest)
    ensures Run(MemberTokens(members) + rest, stack + [Some(seen)]) ==
      if BadMembers(members, seen, |stack| + 1) then Rejected else Run(rest, stack + [Some(seen + NamesOf(members))])
    decreases members, 0
  {
    if members == [] {
      assert MemberTokens(members) + rest == rest;
      assert seen + NamesOf(members) == seen;
    } else {
      var m, more := members[0], members[1..];
      if more == [] {
        RunMember(m, rest, stack, seen);
        RunLast(members, rest, stack, seen);
      } else {
        RunMember(m, [Punct(COMMA)] + (MemberTokens(more) + rest), stack, seen);
        RunMembers(more, rest, stack, seen + {Meaning(m.name)});
        RunOn(members, rest, stack, seen, MemberTokens(more) + rest);
      }
    }
  }

  /** The last member, and nothing behind it. */
  lemma RunLast(members: seq<Member>, rest: seq<Token>, stack: Stack, seen: set<Text>)
    requires |members| == 1
    requires var m := members[0];
      Run(NameTokens(m.name) + (ValueTokens(m.element.value) + rest), stack + [Some(seen)]) ==
      (if Meaning(m.name) in seen || Bad(m.element.value, |stack| + 1) then Rejected
       else Run(rest, stack + [Some(seen + {Meaning(m.name)})]))
    ensures Run(MemberTokens(members) + rest, stack + [Some(seen)]) ==
      if BadMembers(members, seen, |stack| + 1) then Rejected else Run(rest, stack + [Some(seen + NamesOf(members))])
  {
    var m := members[0];
    assert MemberTokens(members) + rest == NameTokens(m.name) + (ValueTokens(m.element.value) + rest);
    NamesOn(members, seen);
    assert seen + {Meaning(m.name)} + NamesOf(members[1..]) == seen + {Meaning(m.name)};
  }

  /** A member, its comma, and what the run does over the members behind it. */
  lemma RunOn(members: seq<Member>, rest: seq<Token>, stack: Stack, seen: set<Text>, after: seq<Token>)
    requires |members| > 1 && after == MemberTokens(members[1..]) + rest
    requires var m, more := members[0], members[1..];
      var open := stack + [Some(seen + {Meaning(m.name)})];
      && Run(NameTokens(m.name) + (ValueTokens(m.element.value) + ([Punct(COMMA)] + after)), stack + [Some(seen)]) ==
         (if Meaning(m.name) in seen || Bad(m.element.value, |stack| + 1) then Rejected
          else Run([Punct(COMMA)] + after, open))
      && Run(after, open) ==
         (if BadMembers(more, seen + {Meaning(m.name)}, |stack| + 1) then Rejected
          else Run(rest, stack + [Some(seen + {Meaning(m.name)} + NamesOf(more))]))
    ensures Run(MemberTokens(members) + rest, stack + [Some(seen)]) ==
      if BadMembers(members, seen, |stack| + 1) then Rejected else Run(rest, stack + [Some(seen + NamesOf(members))])
  {
    var name := Meaning(members[0].name);
    MemberTokensSplit(members, rest);
    RunPunct(COMMA, after, stack + [Some(seen + {name})]);
    NamesOn(members, seen);
  }

  lemma NamesOn(members: seq<Member>, seen: set<Text>)
    requires members != []
    ensures seen + NamesOf(members) == seen + {Meaning(members[0].name)} + NamesOf(members[1..])
  {
  }

  lemma MemberTokensSplit(members: seq<Member>, rest: seq<Token>)
    requires |members| > 1
    ensures MemberTokens(members) + rest ==
      NameTokens(members[0].name)
      + (ValueTokens(members[0].element.value) + ([Punct(COMMA)] + (MemberTokens(members[1..]) + rest)))
  {
    var name, value := NameTokens(members[0].name), ValueTokens(members[0].element.value);
    var more := MemberTokens(members[1..]);
    assert MemberTokens(members) == name + value + [Punct(COMMA)] + more;
    Rightwards(name, value, [Punct(COMMA)], more, rest);
  }

  lemma Rightwards<T>(a: seq<T>, b: seq<T>, c: seq<T>, d: seq<T>, e: seq<T>)
    ensures (a + b + c + d) + e == a + (b + (c + (d + e)))
  {
  }

  /** For every printed JSON text: the flat loop rejects it exactly when some
      object in its tree repeats a name or the tree nests too deep. */
  lemma CheckIsExact(before: Text, v: Value, after: Text)
    requires Valid(v) && IsSilent(before) && IsSilent(after)
    ensures Run(Tokens(before + Print(v) + after), []).Rejected? <==> HasDuplicate(v) || Nesting(v) > MAX_NESTING
  {
    assert before + Print(v) + after == before + (Print(v) + (after + []));
    SkipSilent(before, Print(v) + (after + []));
    LexValue(v, after + []);
    SkipSilent(after, []);
    RunValue(v, [], []);
  }
}
