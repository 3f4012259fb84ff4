/**
 The catalog entry for a refused grounding write, whose recipe carries text of the
 backend: exactly when it overflows the response budget.
 */
module ForbiddenErrors {
  import opened Basics
  import opened Utf16
  import opened JsonText
  import opened DetailClamp
  import opened ErrorBudget
  import opened ErrorGuarantees
  import opened WireBounds

  const FORBIDDEN: Text := Ascii("forbidden").text
  const SCOPE_PREFIX: Text := Ascii("Token missing scope: ").text
  const GITHUB: Text := Ascii("github:").text
  const PR_MERGE: Text := Ascii("github:pr_merge").text

  const HEAD: Text := Ascii("a team admin must re-mint ").text + Ascii("the token with the scopes (").text
  const TAIL: Text := Ascii("); existing tokens ").text + Ascii("never gain new scopes").text
  const HINT_START: Text :=
    Ascii(". PR merged outside ").text + Ascii("agent-tasks, task ").text + Ascii("not moved? Do not ").text
  const HINT_END: Text :=
    Ascii("retry task_merge; ").text + Ascii("ask the operator to ").text + Ascii("close it in the UI.").text
  const HINT: Text := HINT_START + HINT_END

  function ToLineEnd(t: Text): Text {
    if t == [] || IsLineTerminator(t[0]) then [] else [t[0]] + ToLineEnd(t[1..])
  }

  /** `/^Token missing scope: (.*)/.exec(message)?.[1]`. */
  function MissingScope(message: Text): Option<Text> {
    if SCOPE_PREFIX <= message then Some(ToLineEnd(message[|SCOPE_PREFIX|..])) else None
  }

  predicate Includes(t: Text, part: Text) {
    exists k :: 0 <= k <= |t| && part <= t[k..]
  }

  /** What stands behind the scopes in the recipe. */
  function RecipeEnd(scopes: Text): Text {
    if Includes(scopes, PR_MERGE) then TAIL + HINT else TAIL
  }

  function ScopesRecipe(scopes: Text): Text {
    HEAD + scopes + RecipeEnd(scopes)
  }

  function PreconditionsRecipe(preconditions: Text): Text {
    Ascii("no detail sent; this verb is refused for: ").text + preconditions + Ascii(" (see workflow_primer)").text
  }

  /** `preconditions` is what the hand-written table holds for the calling verb. */
  function GroundingForbidden(body: seq<Entry>, message: Text, preconditions: Option<Text>): Option<TeachingError> {
    var sent := match Get(body, Ascii("message").text) { case Some(String(m)) => m case _ => [] };
    if sent != [] then
      match MissingScope(sent)
      case Some(scopes) =>
        if Includes(scopes, GITHUB) then Some(BuildTeachingError(FORBIDDEN, message, ScopesRecipe(scopes), [], None))
        else None
      case None => None
    else
      match preconditions
      case Some(p) =>
        Some(BuildTeachingError(FORBIDDEN, message, PreconditionsRecipe(p), [Ascii("workflow_primer").text], None))
      case None => None
  }

  // ---- Exactly when it overflows ----

  /** A bare error overflows exactly when its code and recipe leave no room. */
  lemma BareOverflow(code: Text, message: Text, recipe: Text)
    ensures var r := BuildTeachingError(code, message, recipe, [], None);
      if 110 + Cost(code) + Cost(Clamp(recipe, RECIPE_BUDGET)) > ERROR_BUDGET
      then r.code == OVERFLOW_CODE && r.message == [] &&
           Wire(r) == 110 + Cost(OVERFLOW_CODE) + Cost(Clamp(recipe, RECIPE_BUDGET))
      else r.code == code && Wire(r) <= ERROR_BUDGET
  {
    var e := Draft(code, message, recipe, [], None);
    BudgetHolds(e);
    OverflowWithoutDetail(e);
    BareSize(e.(message := []));
    BareSize(e.(message := [], code := OVERFLOW_CODE));
    assert Cost([]) == 0;
  }

  /** How many code points of the scopes a recipe that is cut short keeps. */
  const SCOPES_KEPT: nat := 184

  /** By how much the escapes of the scopes' first code points lengthen them. */
  function Added(scopes: Text): int {
    var cps := CodePoints(scopes);
    var k := Min(SCOPES_KEPT, |cps|);
    |EscapeAll(cps[..k])| - k
  }

  /** What the escapes may add before the recipe leaves no room. */
  const ROOM: nat := 841

  lemma {:induction false} CodePointsAfter(a: Text, b: Text)
    requires PlainText(a)
    ensures CodePoints(a + b) == CodePoints(a) + CodePoints(b)
  {
    if a == [] {
      assert a + b == b;
    } else {
      assert (a + b)[..1] == a[..1] && (a + b)[1..] == a[1..] + b;
      CodePointsAfter(a[1..], b);
    }
  }

  lemma {:induction false} CodePointsBefore(a: Text, b: Text)
    requires PlainText(b)
    ensures CodePoints(a + b) == CodePoints(a) + CodePoints(b)
  {
    if a == [] {
      assert a + b == b;
    } else {
      var n := if |a| >= 2 && IsHigh(a[0]) && IsLow(a[1]) then 2 else 1;
      assert (a + b)[..n] == a[..n] && (a + b)[n..] == a[n..] + b;
      CodePointsBefore(a[n..], b);
    }
  }

  lemma {:induction false} PlainStart(t: Text, k: nat)
    requires PlainText(t) && k <= |t|
    ensures |CodePoints(t)| == |t| && |EscapeAll(CodePoints(t)[..k])| == k
  {
    PlainCost(t);
    if k > 0 {
      var rest := CodePoints(t[1..]);
      PlainStart(t[1..], k - 1);
      assert CodePoints(t)[..k] == [t[..1]] + rest[..k - 1];
      assert IsPlain(t[..1]);
    }
  }

  lemma HeadIsPlain(a: string, b: string)
    requires a == "a team admin must re-mint " && b == "the token with the scopes ("
    ensures PlainText(Ascii(a).text) && PlainText(Ascii(b).text) && |a| + |b| == 53
  {
    PlainLiteral(a);
    PlainLiteral(b);
  }

  lemma TailIsPlain(a: string, b: string)
    requires a == "); existing tokens " && b == "never gain new scopes"
    ensures PlainText(Ascii(a).text) && PlainText(Ascii(b).text) && |a| + |b| == 40
  {
    PlainLiteral(a);
    PlainLiteral(b);
  }

  lemma HintStartIsPlain(a: string, b: string, c: string)
    requires a == ". PR merged outside " && b == "agent-tasks, task " && c == "not moved? Do not "
    ensures PlainText(Ascii(a).text) && PlainText(Ascii(b).text) && PlainText(Ascii(c).text) && |a| + |b| + |c| == 56
  {
    PlainLiteral(a);
    PlainLiteral(b);
    PlainLiteral(c);
  }

  lemma HintEndIsPlain(a: string, b: string, c: string)
    requires a == "retry task_merge; " && b == "ask the operator to " && c == "close it in the UI."
    ensures PlainText(Ascii(a).text) && PlainText(Ascii(b).text) && PlainText(Ascii(c).text) && |a| + |b| + |c| == 57
  {
    PlainLiteral(a);
    PlainLiteral(b);
    PlainLiteral(c);
  }

  lemma HeadParts()
    ensures PlainText(HEAD) && |HEAD| == 53
  {
    HeadIsPlain("a team admin must re-mint ", "the token with the scopes (");
  }

  lemma TailParts()
    ensures PlainText(TAIL) && |TAIL| == 40
  {
    TailIsPlain("); existing tokens ", "never gain new scopes");
  }

  lemma HintStartParts()
    ensures PlainText(HINT_START) && |HINT_START| == 56
  {
    HintStartIsPlain(". PR merged outside ", "agent-tasks, task ", "not moved? Do not ");
  }

  lemma HintEndParts()
    ensures PlainText(HINT_END) && |HINT_END| == 57
  {
    HintEndIsPlain("retry task_merge; ", "ask the operator to ", "close it in the UI.");
  }

  lemma RecipeParts(scopes: Text)
    ensures PlainText(HEAD) && |HEAD| == 53
    ensures PlainText(RecipeEnd(scopes)) && |RecipeEnd(scopes)| in {40, 153}
  {
    HeadParts();
    TailParts();
    HintStartParts();
    HintEndParts();
  }

  /** The cost of a plain head, some text and a plain end behind one another. */
  lemma SandwichCost(head: Text, middle: Text, end: Text)
    requires PlainText(head) && PlainText(end)
    ensures CodePoints(head + middle + end) == CodePoints(head) + CodePoints(middle) + CodePoints(end)
    ensures Cost(head + middle + end) == |head| + Cost(middle) + |end|
  {
    CodePointsBefore(head + middle, end);
    CodePointsAfter(head, middle);
    EscapeAppend(CodePoints(head) + CodePoints(middle), CodePoints(end));
    EscapeAppend(CodePoints(head), CodePoints(middle));
    PlainCost(head);
    PlainCost(end);
  }

  lemma StartOfThree<T>(a: seq<T>, b: seq<T>, c: seq<T>, k: nat)
    requires k <= |b| + |c|
    ensures var m := Min(k, |b|); (a + b + c)[..|a| + k] == a + (b[..m] + c[..k - m])
  {
  }

  predicate AreCodePoints(cps: seq<Text>) {
    forall cp :: cp in cps ==> IsCodePoint(cp)
  }

  lemma StartCost(h: seq<Text>, c: seq<Text>, t: seq<Text>, k: nat)
    requires AreCodePoints(h) && AreCodePoints(c) && AreCodePoints(t) && k <= |c| + |t|
    ensures AreCodePoints((h + c + t)[..|h| + k])
    ensures var m := Min(k, |c|);
      |EscapeAll((h + c + t)[..|h| + k])| == |EscapeAll(h)| + |EscapeAll(c[..m])| + |EscapeAll(t[..k - m])|
  {
    var m := Min(k, |c|);
    StartOfThree(h, c, t, k);
    EscapeAppend(h, c[..m] + t[..k - m]);
    EscapeAppend(c[..m], t[..k - m]);
  }

  /** The cost of their first `|head| + k` code points, for a `k` that reaches past neither end. */
  lemma SandwichStart(head: Text, c: seq<Text>, end: Text, k: nat)
    requires PlainText(head) && PlainText(end) && AreCodePoints(c) && k <= |c| + |end|
    ensures var cps, m := CodePoints(head) + c + CodePoints(end), Min(k, |c|);
      && |head| + k <= |cps| && AreCodePoints(cps[..|head| + k])
      && |EscapeAll(cps[..|head| + k])| == |head| + |EscapeAll(c[..m])| + k - m
  {
    PlainCost(head);
    PlainCost(end);
    PlainStart(end, k - Min(k, |c|));
    StartCost(CodePoints(head), c, CodePoints(end), k);
  }

  lemma CutRecipeCost(scopes: Text)
    requires 53 + |CodePoints(scopes)| + |RecipeEnd(scopes)| > RECIPE_BUDGET
    ensures Cost(Clamp(ScopesRecipe(scopes), RECIPE_BUDGET)) == RECIPE_BUDGET + Added(scopes)
  {
    var c, end := CodePoints(scopes), RecipeEnd(scopes);
    RecipeParts(scopes);
    SandwichCost(HEAD, scopes, end);
    PlainCost(HEAD);
    PlainCost(end);
    ClampCost(ScopesRecipe(scopes), RECIPE_BUDGET);
    SandwichStart(HEAD, c, end, SCOPES_KEPT);
  }

  lemma WholeRecipeCost(scopes: Text)
    requires 53 + |CodePoints(scopes)| + |RecipeEnd(scopes)| <= RECIPE_BUDGET
    ensures Cost(Clamp(ScopesRecipe(scopes), RECIPE_BUDGET)) <= RECIPE_BUDGET + Added(scopes)
    ensures Added(scopes) <= ROOM
  {
    var end := RecipeEnd(scopes);
    RecipeParts(scopes);
    SandwichCost(HEAD, scopes, end);
    PlainCost(HEAD);
    PlainCost(end);
    ClampCost(ScopesRecipe(scopes), RECIPE_BUDGET);
    AddedWhole(scopes);
  }

  lemma AddedWhole(scopes: Text)
    requires |CodePoints(scopes)| <= 147
    ensures Added(scopes) == Cost(scopes) - |CodePoints(scopes)| <= 735
  {
    var c := CodePoints(scopes);
    assert c[..|c|] == c;
  }

  /** The clamped recipe leaves no room exactly when the escapes add too much. */
  lemma RecipeCost(scopes: Text)
    ensures Cost(Clamp(ScopesRecipe(scopes), RECIPE_BUDGET)) > ERROR_BUDGET - 110 - 9 <==> Added(scopes) > ROOM
    ensures Added(scopes) > ROOM ==> Cost(Clamp(ScopesRecipe(scopes), RECIPE_BUDGET)) == RECIPE_BUDGET + Added(scopes)
  {
    if 53 + |CodePoints(scopes)| + |RecipeEnd(scopes)| > RECIPE_BUDGET {
      CutRecipeCost(scopes);
    } else {
      WholeRecipeCost(scopes);
    }
  }

  /** For every body that names a missing github scope: the error overflows exactly when
      the escapes in the first 184 code points of the scopes add more than 841
      characters, and then has 371 besides these; otherwise it fits under its own code. */
  lemma ScopesOverflow(body: seq<Entry>, message: Text, preconditions: Option<Text>, sent: Text, scopes: Text)
    requires Get(body, Ascii("message").text) == Some(String(sent))
    requires MissingScope(sent) == Some(scopes) && Includes(scopes, GITHUB)
    ensures GroundingForbidden(body, message, preconditions).Some?
    ensures var r := GroundingForbidden(body, message, preconditions).value;
      if Added(scopes) > ROOM
      then r.code == OVERFLOW_CODE && r.message == [] && Wire(r) == 371 + Added(scopes)
      else r.code == FORBIDDEN && Wire(r) <= ERROR_BUDGET
  {
    TheScopesEntry(body, message, preconditions, sent, scopes);
    ScopesOutcome(message, scopes);
  }

  lemma TheScopesEntry(body: seq<Entry>, message: Text, preconditions: Option<Text>, sent: Text, scopes: Text)
    requires Get(body, Ascii("message").text) == Some(String(sent))
    requires MissingScope(sent) == Some(scopes) && Includes(scopes, GITHUB)
    ensures GroundingForbidden(body, message, preconditions) ==
            Some(BuildTeachingError(FORBIDDEN, message, ScopesRecipe(scopes), [], None))
  {
    assert |SCOPE_PREFIX| > 0;
  }

  lemma ScopesOutcome(message: Text, scopes: Text)
    ensures var r := BuildTeachingError(FORBIDDEN, message, ScopesRecipe(scopes), [], None);
      if Added(scopes) > ROOM
      then r.code == OVERFLOW_CODE && r.message == [] && Wire(r) == 371 + Added(scopes)
      else r.code == FORBIDDEN && Wire(r) <= ERROR_BUDGET
  {
    BareOverflow(FORBIDDEN, message, ScopesRecipe(scopes));
    RecipeCost(scopes);
    ForbiddenCost("forbidden");
    OverflowCodeCost("error_budget_overflow");
  }

  lemma ForbiddenCost(code: string)
    requires code == "forbidden"
    ensures Cost(Ascii(code).text) == 9
  {
    PlainLiteral(code);
    PlainCost(Ascii(code).text);
  }

  lemma OverflowCodeCost(code: string)
    requires code == "error_budget_overflow"
    ensures Cost(Ascii(code).text) == 21
  {
    PlainLiteral(code);
    PlainCost(Ascii(code).text);
  }

  /** A code point that is neither a control character nor half of a surrogate pair. */
  predicate IsPrintable(cp: Text)
    requires IsCodePoint(cp)
  {
    !IsLoneSurrogate(cp) && cp[0] >= 0x20
  }

  predicate Printable(t: Text) {
    forall cp :: cp in CodePoints(t) ==> IsPrintable(cp)
  }

  /** A printable code point costs at most one unit more than one. */
  lemma {:induction false} PrintableCost(cps: seq<Text>)
    requires forall cp :: cp in cps ==> IsCodePoint(cp) && IsPrintable(cp)
    ensures |EscapeAll(cps)| <= 2 * |cps|
  {
    if cps != [] {
      assert cps[0] in cps;
      PrintableCost(cps[1..]);
    }
  }

  /** Scopes of printable characters always fit, quotes and backslashes among them and
      those outside ASCII. */
  lemma PrintableScopesFit(body: seq<Entry>, message: Text, preconditions: Option<Text>, sent: Text, scopes: Text)
    requires Get(body, Ascii("message").text) == Some(String(sent))
    requires MissingScope(sent) == Some(scopes) && Includes(scopes, GITHUB) && Printable(scopes)
    ensures GroundingForbidden(body, message, preconditions).Some?
    ensures var r := GroundingForbidden(body, message, preconditions).value;
      r.code == FORBIDDEN && Wire(r) <= ERROR_BUDGET
  {
    PrintableCost(CodePoints(scopes)[..Min(SCOPES_KEPT, |CodePoints(scopes)|)]);
    ScopesOverflow(body, message, preconditions, sent, scopes);
  }

  // ---- A body that overflows ----

  function Controls(n: nat): Text {
    if n == 0 then [] else [0x01] + Controls(n - 1)
  }

  lemma {:induction false} ControlsCost(n: nat)
    ensures |Controls(n)| == n && |CodePoints(Controls(n))| == n && Cost(Controls(n)) == 6 * n
  {
    if n > 0 {
      ControlsCost(n - 1);
      assert Controls(n)[1..] == Controls(n - 1) && Controls(n)[..1] == [0x01];
      assert |Escape([0x01])| == 6;
    }
  }

  lemma {:induction false} ControlsToLineEnd(n: nat)
    ensures ToLineEnd(Controls(n)) == Controls(n)
  {
    if n > 0 {
      ControlsToLineEnd(n - 1);
      assert Controls(n)[1..] == Controls(n - 1);
    }
  }

  lemma {:induction false} PlainToLineEnd(a: Text, b: Text)
    requires PlainText(a)
    ensures ToLineEnd(a + b) == a + ToLineEnd(b)
  {
    if a == [] {
      assert a + b == b;
    } else {
      PlainToLineEnd(a[1..], b);
      assert (a + b)[1..] == a[1..] + b;
    }
  }

  lemma ControlsAdd()
    ensures Added(GITHUB + Controls(177)) == 885
  {
    GithubIsPlain("github:");
    ControlsCost(177);
    SandwichCost(GITHUB, Controls(177), []);
    PlainStart(GITHUB, 0);
    assert GITHUB + Controls(177) + [] == GITHUB + Controls(177);
    var cps := CodePoints(GITHUB + Controls(177));
    assert |cps| == SCOPES_KEPT && cps[..SCOPES_KEPT] == cps;
  }

  function OverflowingMessage(): Text {
    SCOPE_PREFIX + (GITHUB + Controls(177))
  }

  function ForbiddenBody(message: Text): (body: seq<Entry>)
    ensures Get(body, Ascii("message").text) == Some(String(message))
  {
    var body := [Entry(Ascii("error").text, String(FORBIDDEN)), Entry(Ascii("message").text, String(message))];
    assert |Ascii("error").text| == 5 && |Ascii("message").text| == 7;
    assert body[1..] == [body[1]];
    body
  }

  /** What the 403 body of this message becomes has the overflow code and is too long,
      although the entry is one of the catalog. */
  lemma ForbiddenCanOverflow(preconditions: Option<Text>)
    ensures var body := ForbiddenBody(OverflowingMessage());
      var r := GroundingForbidden(body, OverflowingMessage(), preconditions);
      r.Some? && r.value.code == OVERFLOW_CODE && Wire(r.value) == 1256 > ERROR_BUDGET
  {
    var sent, scopes := OverflowingMessage(), GITHUB + Controls(177);
    OverflowingScopes();
    ControlsAdd();
    ScopesOverflow(ForbiddenBody(sent), sent, preconditions, sent, scopes);
  }

  lemma OverflowingScopes()
    ensures MissingScope(OverflowingMessage()) == Some(GITHUB + Controls(177))
    ensures Includes(GITHUB + Controls(177), GITHUB)
  {
    var scopes := GITHUB + Controls(177);
    assert OverflowingMessage()[|SCOPE_PREFIX|..] == scopes;
    GithubIsPlain("github:");
    PlainToLineEnd(GITHUB, Controls(177));
    ControlsToLineEnd(177);
    assert scopes[0..] == scopes;
  }

  lemma GithubIsPlain(github: string)
    requires github == "github:"
    ensures PlainText(Ascii(github).text)
  {
    PlainLiteral(github);
  }
}
