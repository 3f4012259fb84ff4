/**
 The response budget of the teaching-error layer: whatever text a backend sends,
 an error is degraded in fixed stages until its wire form fits.
 */
module ErrorBudget {
  import opened Basics
  import opened Utf16
  import opened JsonText
  import opened DetailClamp

  const ERROR_BUDGET: nat := 1200
  const MESSAGE_BUDGET: nat := 300
  const RECIPE_BUDGET: nat := 240

  const OVERFLOW_CODE: Text := Ascii("error_budget_overflow").text
  const TOTAL_FAILED: Text := Ascii("totalFailed").text
  const TOTAL_MISSING: Text := Ascii("totalMissing").text
  const TOTAL_ISSUES: Text := Ascii("totalIssues").text

  datatype TeachingError = TeachingError(
    code: Text, message: Text, recipe: Text, allowedNext: seq<Text>, detail: Option<seq<Entry>>)

  function Fields(e: TeachingError): seq<Entry> {
    [Entry(Ascii("code").text, String(e.code)), Entry(Ascii("message").text, String(e.message)),
     Entry(Ascii("recipe").text, String(e.recipe)), Entry(Ascii("allowedNext").text, Verbs(e.allowedNext))]
    + match e.detail
      case None => []
      case Some(detail) => [Entry(Ascii("detail").text, Object(detail))]
  }

  function Verbs(names: seq<Text>): Json {
    Array(seq(|names|, i requires 0 <= i < |names| => String(names[i])))
  }

  function RefusalEntries(error: Json): seq<Entry> {
    [Entry(Ascii("ok").text, Bool(false)), Entry(Ascii("error").text, error)]
  }

  function ToJson(e: TeachingError): Json {
    Object(RefusalEntries(Object(Fields(e))))
  }

  /** The size of an error on the wire. */
  function Wire(e: TeachingError): nat {
    |Stringify(ToJson(e), 0)|
  }

  // ---- Wire size as a function of the message ----

  /** What a text costs inside a string literal. */
  function Cost(t: Text): nat {
    |EscapeAll(CodePoints(t))|
  }

  lemma {:induction false} ReplaceValue(entries: seq<Entry>, i: nat, value: Json, indent: nat)
    requires i < |entries|
    ensures |Members(entries[i := Entry(entries[i].key, value)], indent)| + |Stringify(entries[i].value, indent)| ==
            |Members(entries, indent)| + |Stringify(value, indent)|
  {
    var replaced := entries[i := Entry(entries[i].key, value)];
    if i == 0 {
      assert replaced[1..] == entries[1..];
    } else {
      assert replaced[1..] == entries[1..][i - 1 := Entry(entries[i].key, value)];
      ReplaceValue(entries[1..], i - 1, value, indent);
    }
  }

  lemma ReplaceInObject(entries: seq<Entry>, i: nat, value: Json, indent: nat)
    requires i < |entries|
    ensures var replaced := entries[i := Entry(entries[i].key, value)];
      |Stringify(Object(replaced), indent)| + |Stringify(entries[i].value, indent + 2)| ==
      |Stringify(Object(entries), indent)| + |Stringify(value, indent + 2)|
  {
    ReplaceValue(entries, i, value, indent + 2);
  }

  lemma RefusalSize(a: Json, b: Json)
    ensures |Stringify(Object(RefusalEntries(a)), 0)| + |Stringify(b, 2)| ==
            |Stringify(Object(RefusalEntries(b)), 0)| + |Stringify(a, 2)|
  {
    var entries := RefusalEntries(a);
    ReplaceInObject(entries, 1, b, 0);
    assert entries[1 := Entry(entries[1].key, b)] == RefusalEntries(b);
  }

  /** The wire size is that of the same error with an empty message plus the
      message's own escaped cost. */
  lemma WireSplits(e: TeachingError)
    ensures Wire(e) == Wire(e.(message := [])) + Cost(e.message)
  {
    var bare := e.(message := []);
    assert Fields(e) == Fields(bare)[1 := Entry(Ascii("message").text, String(e.message))];
    ReplaceInObject(Fields(bare), 1, String(e.message), 2);
    RefusalSize(Object(Fields(e)), Object(Fields(bare)));
  }

  // ---- The cost of a clamped message ----

  lemma {:induction false} EscapeAppend(a: seq<Text>, b: seq<Text>)
    requires (forall cp :: cp in a ==> IsCodePoint(cp)) && (forall cp :: cp in b ==> IsCodePoint(cp))
    ensures EscapeAll(a + b) == EscapeAll(a) + EscapeAll(b)
  {
    if a == [] {
      assert a + b == b;
    } else {
      assert (a + b)[1..] == a[1..] + b;
      EscapeAppend(a[1..], b);
    }
  }

  lemma CutCost(cps: seq<Text>, i: nat, j: nat)
    requires i <= j <= |cps| && forall cp :: cp in cps ==> IsCodePoint(cp)
    ensures |EscapeAll(cps[..i])| + (j - i) <= |EscapeAll(cps[..j])|
  {
    assert cps[..j] == cps[..i] + cps[i..j];
    EscapeAppend(cps[..i], cps[i..j]);
  }

  lemma DotsCost()
    ensures |EscapeAll(DOTS)| == 3
  {
    var one: Text := [DOT];
    assert IsPlain(one);
    assert DOTS[1..] == [one, one];
    assert DOTS[1..][1..] == [one];
    assert EscapeAll(DOTS[1..][1..]) == one;
  }

  lemma ClampCost(message: Text, k: nat)
    ensures var cps := CodePoints(message);
      Cost(Clamp(message, k)) ==
      if |cps| <= k then Cost(message) else |EscapeAll(cps[..Kept(cps, k)])| + 3
  {
    var cps := CodePoints(message);
    ClampCodePoints(message, k);
    if k < |cps| {
      EscapeAppend(cps[..Kept(cps, k)], DOTS);
      DotsCost();
    }
  }

  /** A larger clamp budget never costs less, except when the jump to the full
      text replaces the marker by a text shorter than it. */
  lemma ClampCostMonotone(message: Text, i: nat, j: nat)
    requires i <= j
    requires j < |CodePoints(message)| || |CodePoints(message)| >= 3
    ensures Cost(Clamp(message, i)) <= Cost(Clamp(message, j))
  {
    var cps := CodePoints(message);
    ClampCost(message, i);
    ClampCost(message, j);
    if i < |cps| {
      if j < |cps| {
        CutCost(cps, Kept(cps, i), Kept(cps, j));
      } else {
        CutCost(cps, Kept(cps, i), |cps|);
        assert cps[..|cps|] == cps;
      }
    }
  }

  // ---- Shortening the message ----

  predicate FitsWithMessage(e: TeachingError, candidate: Text) {
    Wire(e.(message := candidate)) <= ERROR_BUDGET
  }

  predicate FitsAt(e: TeachingError, k: nat) {
    FitsWithMessage(e, Clamp(e.message, k))
  }

  /** The largest clamp budget up to `k` that fits, or -1. */
  function LongestFit(e: TeachingError, k: int): (best: int)
    requires -1 <= k
    ensures -1 <= best <= k
    ensures best >= 0 ==> FitsAt(e, best)
    ensures forall j :: best < j <= k ==> !FitsAt(e, j)
    decreases k
  {
    if k < 0 then -1 else if FitsAt(e, k) then k else LongestFit(e, k - 1)
  }

  /** The error with the longest clamp of its message that fits, else with none. */
  function Trimmed(e: TeachingError): TeachingError {
    var best := LongestFit(e, |CodePoints(e.message)|);
    e.(message := if best < 0 then [] else Clamp(e.message, best))
  }

  /** When a binary search over clamp budgets goes wrong: a message of one or two
      code points fits whole although the three-dot marker does not. */
  predicate SearchMisses(e: TeachingError) {
    && 1 <= |CodePoints(e.message)| <= 2
    && FitsWithMessage(e, e.message) && !FitsWithMessage(e, TRUNCATION_MARKER)
  }

  lemma FitsAtMonotone(e: TeachingError, i: nat, j: nat)
    requires i <= j && FitsAt(e, j)
    requires j < |CodePoints(e.message)| || |CodePoints(e.message)| >= 3
    ensures FitsAt(e, i)
  {
    ClampCostMonotone(e.message, i, j);
    WireSplits(e.(message := Clamp(e.message, i)));
    WireSplits(e.(message := Clamp(e.message, j)));
  }

  lemma ShortClamp(message: Text, k: nat)
    requires k < |CodePoints(message)| <= 3
    ensures Clamp(message, k) == TRUNCATION_MARKER
  {
    var cps := CodePoints(message);
    assert Join(cps[..0]) + TRUNCATION_MARKER == TRUNCATION_MARKER;
  }

  lemma FullClamp(message: Text)
    ensures Clamp(message, |CodePoints(message)|) == message
  {
  }

  lemma SearchDone(e: TeachingError, lo: nat)
    requires lo <= |CodePoints(e.message)| + 1
    requires lo > 0 ==> FitsAt(e, lo - 1)
    requires lo <= |CodePoints(e.message)| ==> !FitsAt(e, lo)
    requires !SearchMisses(e)
    ensures LongestFit(e, |CodePoints(e.message)|) == lo - 1 || e.message == []
  {
    var n := |CodePoints(e.message)|;
    var best := LongestFit(e, n);
    FullClamp(e.message);
    if lo <= best {
      if best < n || n >= 3 {
        FitsAtMonotone(e, lo, best);
      } else if lo < n {
        ShortClamp(e.message, lo);
      }
    }
  }

  method TrimMessageForBudget(e: TeachingError) returns (r: TeachingError)
    ensures !SearchMisses(e) ==> r == Trimmed(e)
    ensures SearchMisses(e) ==> r.message == [] && Trimmed(e) == e
  {
    var codepointCount := |CodePoints(e.message)|;
    var lo, hi := 0, codepointCount;
    var best: Text := [];
    while lo <= hi
      invariant 0 <= lo <= hi + 1 <= codepointCount + 1
      invariant best == if lo == 0 then [] else Clamp(e.message, lo - 1)
      invariant lo > 0 ==> FitsAt(e, lo - 1)
      invariant hi < codepointCount ==> !FitsAt(e, hi + 1)
      invariant SearchMisses(e) ==> lo == 0
    {
      var mid := (lo + hi) / 2;
      var candidate := Clamp(e.message, mid);
      if FitsWithMessage(e, candidate) {
        if SearchMisses(e) { ShortClamp(e.message, mid); }
        best := candidate;
        lo := mid + 1;
      } else {
        hi := mid - 1;
      }
    }
    FullClamp(e.message);
    if !SearchMisses(e) { SearchDone(e, lo); }
    r := e.(message := best);
  }

  // ---- Minimizing the detail ----

  predicate IsTotalMarker(key: Text) {
    key == TOTAL_FAILED || key == TOTAL_MISSING || key == TOTAL_KEYS || key == TOTAL_ISSUES
  }

  predicate IsMarkerEntry(e: Entry) {
    IsTotalMarker(e.key) && e.value.Number?
  }

  function Markers(detail: seq<Entry>): (r: seq<Entry>)
    ensures forall e :: e in r <==> e in detail && IsMarkerEntry(e)
  {
    if detail == [] then []
    else if IsMarkerEntry(detail[0]) then [detail[0]] + Markers(detail[1..])
    else Markers(detail[1..])
  }

  /** Assigning `__proto__` sets the prototype and adds no property. */
  predicate IsData(e: Entry) {
    !IsMarkerEntry(e) && e.key != Ascii("__proto__").text
  }

  function NonMarkers(detail: seq<Entry>): (r: seq<Entry>)
    ensures forall e :: e in r <==> e in detail && IsData(e)
  {
    if detail == [] then []
    else if IsData(detail[0]) then [detail[0]] + NonMarkers(detail[1..])
    else NonMarkers(detail[1..])
  }

  /** The object spread `{ ...base, ...over }`. */
  function Spread(base: seq<Entry>, over: seq<Entry>): seq<Entry>
    decreases over
  {
    if over == [] then base
    else Spread(Put(base, over[0].key, over[0].value), over[1..])
  }

  function ReclampHarder(detail: seq<Entry>): seq<Entry> {
    Spread(ClampEntries(NonMarkers(detail), 0, HARD), Markers(detail))
  }

  function Carried(detail: seq<Entry>, key: Text): seq<Entry> {
    match Get(detail, key)
    case Some(Number(n)) => [Entry(key, Number(n))]
    case _ => []
  }

  const OMITTED := Entry(Ascii("omitted").text, Bool(true))
  const REASON_TEXT: Text := Ascii("detail exceeded ").text + Ascii("the error budget").text
  const REASON := Entry(Ascii("reason").text, String(REASON_TEXT))

  /** The fixed-size object that stands in for a detail that does not fit. */
  function Summary(detail: seq<Entry>): seq<Entry> {
    [OMITTED, REASON]
    + (Carried(detail, TOTAL_FAILED) + (Carried(detail, TOTAL_MISSING) + (Carried(detail, TOTAL_ISSUES)
       + if Carried(detail, TOTAL_KEYS) != [] then Carried(detail, TOTAL_KEYS)
         else [Entry(TOTAL_KEYS, Count(|detail|))])))
  }

  function Reclamped(e: TeachingError): TeachingError {
    match e.detail
    case None => e
    case Some(detail) => e.(detail := Some(ReclampHarder(detail)))
  }

  function Minimized(e: TeachingError): TeachingError {
    match e.detail
    case None => e
    case Some(detail) => e.(detail := Some(Summary(detail)))
  }

  /** The size below which no message can bring a minimized error. */
  function Floor(e: TeachingError): nat {
    Wire(Minimized(e).(message := []))
  }

  function EnforceErrorBudget(e: TeachingError): TeachingError {
    if Wire(e) <= ERROR_BUDGET then e
    else if e.detail.Some? && Wire(Reclamped(e)) <= ERROR_BUDGET then Reclamped(e)
    else
      var minimized := Minimized(e);
      if Wire(minimized) <= ERROR_BUDGET then minimized
      else
        var trimmed := Trimmed(minimized);
        if Wire(trimmed) <= ERROR_BUDGET then trimmed else trimmed.(code := OVERFLOW_CODE)
  }

  /** An error with its own texts clamped, before the budget is enforced. */
  function Draft(code: Text, message: Text, recipe: Text, allowedNext: seq<Text>,
                 detail: Option<seq<Entry>>): TeachingError {
    TeachingError(code, Clamp(message, MESSAGE_BUDGET), Clamp(recipe, RECIPE_BUDGET), allowedNext, detail)
  }

  function BuildTeachingError(code: Text, message: Text, recipe: Text, allowedNext: seq<Text>,
                              detail: Option<seq<Entry>>): TeachingError {
    EnforceErrorBudget(Draft(code, message, recipe, allowedNext, detail))
  }
}
