/**
 The detail of a refused task_advance, and the one true count that degrading can lose.
 */
module AdvanceErrors {
  import opened Basics
  import opened Utf16
  import opened JsonText
  import opened DetailClamp
  import opened ErrorBudget
  import opened ErrorGuarantees
  import opened CatalogErrors
  import opened ForbiddenErrors

  const TOTAL_CHOICES: Text := Ascii("totalChoices").text

  function Choices(body: seq<Entry>): seq<Text> {
    match Get(body, Ascii("choices").text)
    case Some(Array(items)) => Texts(items)
    case _ => []
  }

  /** A text of the body, clamped, or nothing. */
  function ClampedText(body: seq<Entry>, key: Text): seq<Entry> {
    match Get(body, key)
    case Some(String(s)) => [Entry(key, String(Clamp(s, NORMAL.entryChars)))]
    case _ => []
  }

  /** The finish target can also be null: a finish that is refused too. */
  function FinishTarget(body: seq<Entry>): seq<Entry> {
    var key := Ascii("finishTarget").text;
    if Get(body, key) == Some(Null) then [Entry(key, Null)] else ClampedText(body, key)
  }

  /** What stands in front of the choices: up to three entries. */
  function Where(body: seq<Entry>): seq<Entry> {
    ClampedText(body, Ascii("from").text) + ClampedText(body, Ascii("requested").text) + FinishTarget(body)
  }

  function ChoicesEntry(body: seq<Entry>): Entry {
    var choices := Choices(body);
    Entry(Ascii("choices").text,
          Array(seq(Min(NORMAL.arrayClamp, |choices|), i requires 0 <= i < Min(NORMAL.arrayClamp, |choices|) =>
            String(Clamp(choices[i], NORMAL.entryChars)))))
  }

  function CountEntry(body: seq<Entry>): Entry {
    Entry(TOTAL_CHOICES, Count(|Choices(body)|))
  }

  function AdvanceDetail(body: seq<Entry>): seq<Entry> {
    Where(body) + [ChoicesEntry(body), CountEntry(body)]
  }

  // ---- What happens to the count ----

  /** A short key that is neither the count's nor a marker's. */
  predicate IsOther(key: Text) {
    && key != TOTAL_CHOICES && !IsTotalMarker(key) && key != Ascii("__proto__").text
    && |key| <= HARD.entryChars
  }

  lemma OtherKey(name: string)
    requires name in {"from", "requested", "finishTarget", "choices"}
    ensures IsOther(Ascii(name).text)
  {
    var key := Ascii(name).text;
    assert |TOTAL_FAILED| == 11 && |TOTAL_MISSING| == 12 && |TOTAL_ISSUES| == 11 && |TOTAL_KEYS| == 9;
    assert |TOTAL_CHOICES| == 12 && |Ascii("__proto__").text| == 9;
    assert key[0] in {'f' as int, 'r' as int, 'c' as int};
    assert TOTAL_MISSING[0] == 't' as int && TOTAL_KEYS[0] == 't' as int && TOTAL_CHOICES[0] == 't' as int;
    assert Ascii("__proto__").text[0] == '_' as int;
  }

  lemma WhereKeys(body: seq<Entry>)
    ensures |Where(body)| <= 3
    ensures forall i :: 0 <= i < |Where(body)| ==> IsOther(Where(body)[i].key)
    ensures IsOther(ChoicesEntry(body).key)
  {
    OtherKey("from");
    OtherKey("requested");
    OtherKey("finishTarget");
    OtherKey("choices");
  }

  lemma CountIsNoMarker()
    ensures !IsTotalMarker(TOTAL_CHOICES) && TOTAL_CHOICES != Ascii("__proto__").text && |TOTAL_CHOICES| == 12
  {
    assert |TOTAL_FAILED| == 11 && |TOTAL_MISSING| == 12 && |TOTAL_ISSUES| == 11 && |TOTAL_KEYS| == 9;
    assert TOTAL_MISSING[5] == 'M' as int && TOTAL_CHOICES[5] == 'C' as int;
    assert |Ascii("__proto__").text| == 9;
  }

  /** A detail that holds the count last, behind entries of other keys. */
  predicate EndsInCount(detail: seq<Entry>, n: nat) {
    && detail != [] && detail[|detail| - 1] == Entry(TOTAL_CHOICES, Count(n))
    && forall i :: 0 <= i < |detail| - 1 ==> IsOther(detail[i].key)
  }

  lemma DetailEndsInCount(body: seq<Entry>)
    ensures EndsInCount(AdvanceDetail(body), |Choices(body)|) && 2 <= |AdvanceDetail(body)| <= 5
  {
    WhereKeys(body);
  }

  lemma {:induction false} NothingSetAside(detail: seq<Entry>)
    requires forall i :: 0 <= i < |detail| ==> !IsTotalMarker(detail[i].key) && detail[i].key != Ascii("__proto__").text
    ensures Markers(detail) == [] && NonMarkers(detail) == detail
  {
    if detail != [] {
      NothingSetAside(detail[1..]);
    }
  }

  lemma ReclampIsPlain(detail: seq<Entry>, n: nat)
    requires EndsInCount(detail, n)
    ensures ReclampHarder(detail) == ClampEntries(detail, 0, HARD)
  {
    CountIsNoMarker();
    NothingSetAside(detail);
  }

  /** No other key is renamed to the count's. */
  lemma OtherStaysOther(entries: seq<Entry>, key: Text)
    requires IsOther(key)
    ensures FreshName(entries, Clamp(key, HARD.entryChars)) != TOTAL_CHOICES
  {
    FreshEnd(entries, key);
    assert Last(TOTAL_CHOICES) == 's' as int;
  }

  lemma KeptOthers(detail: seq<Entry>, n: nat, k: nat)
    requires EndsInCount(detail, n) && k < |detail|
    ensures !HasKey(FirstEntries(detail, k, 0, HARD), TOTAL_CHOICES)
  {
    NothingOverwritten(detail, k, 0, HARD);
    var kept := FirstEntries(detail, k, 0, HARD);
    forall i | 0 <= i < k
      ensures kept[i].key != TOTAL_CHOICES
    {
      assert IsClampOf(kept, detail, i, 0, HARD);
      OtherStaysOther(kept[..i], detail[i].key);
    }
  }

  lemma CountNotInherited()
    ensures TOTAL_CHOICES !in INHERITED
  {
    forall name | name in INHERITED
      ensures name != TOTAL_CHOICES
    {
      assert TOTAL_CHOICES[0] == 't' as int && TOTAL_CHOICES[2] == 't' as int;
    }
  }

  /** The harder clamp keeps three entries: the count, if it is one of them. */
  lemma ReclampOfCount(detail: seq<Entry>, n: nat)
    requires EndsInCount(detail, n)
    ensures Get(ReclampHarder(detail), TOTAL_CHOICES) == if |detail| <= 3 then Some(Count(n)) else None
  {
    ReclampIsPlain(detail, n);
    CountIsNoMarker();
    if |detail| <= 3 {
      var k := |detail| - 1;
      var before := FirstEntries(detail, k, 0, HARD);
      KeptOthers(detail, n, k);
      CountNotInherited();
      NothingOverwritten(detail, k + 1, 0, HARD);
      GetMember(FirstEntries(detail, k + 1, 0, HARD), Entry(TOTAL_CHOICES, Count(n)));
    } else {
      KeptOthers(detail, n, 3);
    }
  }

  lemma SummaryOfCount(detail: seq<Entry>, n: nat)
    requires EndsInCount(detail, n)
    ensures Get(Summary(detail), TOTAL_CHOICES) == None
  {
    CountIsNoMarker();
    forall e | e in Summary(detail)
      ensures e.key != TOTAL_CHOICES
    {
      assert |OMITTED.key| == 7 && |REASON.key| == 6;
    }
  }

  /** The number of choices reaches the caller exactly when nothing had to be degraded,
      or the harder clamp was enough and the detail has at most three entries. */
  lemma ChoicesCountSurvives(code: Text, message: Text, recipe: Text, verbs: seq<Text>, body: seq<Entry>)
    ensures var e := Draft(code, message, recipe, verbs, Some(AdvanceDetail(body)));
      var r := BuildTeachingError(code, message, recipe, verbs, Some(AdvanceDetail(body)));
      && r.detail.Some?
      && Get(r.detail.value, TOTAL_CHOICES) ==
         if Wire(e) <= ERROR_BUDGET || (Wire(Reclamped(e)) <= ERROR_BUDGET && |AdvanceDetail(body)| <= 3)
         then Some(Count(|Choices(body)|)) else None
  {
    DetailEndsInCount(body);
    CountOutcome(Draft(code, message, recipe, verbs, Some(AdvanceDetail(body))), |Choices(body)|);
  }

  lemma {:induction false} LastOfDetail(detail: seq<Entry>, n: nat)
    requires EndsInCount(detail, n)
    ensures Get(detail, TOTAL_CHOICES) == Some(Count(n))
  {
    if |detail| > 1 {
      assert IsOther(detail[0].key);
      LastOfDetail(detail[1..], n);
    }
  }

  lemma CountOutcome(e: TeachingError, n: nat)
    requires e.detail.Some? && EndsInCount(e.detail.value, n)
    ensures var r := EnforceErrorBudget(e);
      && r.detail.Some?
      && Get(r.detail.value, TOTAL_CHOICES) ==
         if Wire(e) <= ERROR_BUDGET || (Wire(Reclamped(e)) <= ERROR_BUDGET && |e.detail.value| <= 3)
         then Some(Count(n)) else None
  {
    var detail := e.detail.value;
    DetailStages(e);
    LastOfDetail(detail, n);
    ReclampOfCount(detail, n);
    SummaryOfCount(detail, n);
    assert Reclamped(e).detail == Some(ReclampHarder(detail)) && Minimized(e).detail == Some(Summary(detail));
  }

  /** A message of control characters is enough to lose the count, whatever else is sent. */
  lemma ChoicesCountCanBeLost(code: Text, recipe: Text, verbs: seq<Text>, body: seq<Entry>)
    ensures var r := BuildTeachingError(code, Controls(300), recipe, verbs, Some(AdvanceDetail(body)));
      r.detail.Some? && Get(r.detail.value, TOTAL_CHOICES) == None
  {
    var e := Draft(code, Controls(300), recipe, verbs, Some(AdvanceDetail(body)));
    ControlsCost(300);
    assert Clamp(Controls(300), MESSAGE_BUDGET) == Controls(300);
    WireSplits(e);
    WireSplits(Reclamped(e));
    ChoicesCountSurvives(code, Controls(300), recipe, verbs, body);
  }
}
