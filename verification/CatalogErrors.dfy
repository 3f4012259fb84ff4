/**
 The catalog entries: code, recipe and verbs around untrusted text. They are
 parameters here; what matters about them is what they cost on the wire.
 */
module CatalogErrors {
  import opened Basics
  import opened Utf16
  import opened JsonText
  import opened DetailClamp
  import opened ErrorBudget
  import opened ErrorGuarantees
  import opened WireBounds

  /** A catalog entry whose code, clamped recipe and verbs leave room always fits,
      whatever the backend put into its message and detail. */
  lemma CatalogFits(code: Text, message: Text, recipe: Text, verbs: seq<Text>, detail: Option<seq<Entry>>)
    requires SmallVerbs(verbs) && (detail.Some? ==> NumbersFit(detail.value))
    requires Cost(code) + Cost(Clamp(recipe, RECIPE_BUDGET)) + |verbs| * (VERB_COST + 10) <= ERROR_BUDGET - 500
    ensures var r := BuildTeachingError(code, message, recipe, verbs, detail);
      Wire(r) <= ERROR_BUDGET && r.code == code
  {
    var e := Draft(code, message, recipe, verbs, detail);
    FloorAtMost(e);
    BudgetHolds(e);
  }

  /** So does every entry with a plain recipe, at most six verbs and a short code. */
  lemma PlainRecipeFits(code: Text, message: Text, recipe: Text, verbs: seq<Text>, detail: Option<seq<Entry>>)
    requires Cost(code) <= 150 && PlainText(recipe) && |verbs| <= 6 && SmallVerbs(verbs)
    requires detail.Some? ==> NumbersFit(detail.value)
    ensures var r := BuildTeachingError(code, message, recipe, verbs, detail);
      Wire(r) <= ERROR_BUDGET && r.code == code
  {
    PlainClampCost(recipe, RECIPE_BUDGET);
    CatalogFits(code, message, recipe, verbs, detail);
  }

  // ---- Where the search for the longest message is not exact ----

  /** The error with a code of `n` letters and the one-letter message "a". */
  function Padded(n: nat): TeachingError {
    TeachingError(Letters(n), Letters(1), [], [], None)
  }

  function Letters(n: nat): Text {
    seq(n, _ => 'a' as int)
  }

  lemma PaddedSize(n: nat)
    ensures Wire(Padded(n).(message := [])) == Wire(Padded(0).(message := [])) + n
  {
    var bare, padded := Padded(0).(message := []), Padded(n).(message := []);
    PlainCost(Letters(n));
    PlainCost(Letters(0));
    assert Fields(padded) == Fields(bare)[0 := Entry(Ascii("code").text, String(Letters(n)))];
    ReplaceInObject(Fields(bare), 0, String(Letters(n)), 2);
    RefusalSize(Object(Fields(padded)), Object(Fields(bare)));
  }

  /** The search for the longest fitting clamp is not exact on every error: one
      with a code of just the right length fits with its message "a", but the
      search only tries the marker, which is longer, and drops the message. */
  lemma SearchCanMiss()
    ensures exists n: nat :: SearchMisses(Padded(n)) && Trimmed(Padded(n)).message == Letters(1)
  {
    var base := Wire(Padded(0).(message := []));
    PlainCost(Letters(0));
    FloorAtMost(Padded(0));
    var n := ERROR_BUDGET - 1 - base;
    var e := Padded(n);
    PaddedSize(n);
    PlainCost(Letters(1));
    PlainCost(TRUNCATION_MARKER);
    WireSplits(e);
    WireSplits(e.(message := TRUNCATION_MARKER));
    assert e.(message := e.message) == e;
    FullClamp(e.message);
    assert SearchMisses(e);
  }

  // ---- precondition_failed ----

  const CORRECTIVES: map<Text, Text> := map[
    Ascii("branchPresent").text := Ascii("record the branch via task_submit_pr").text,
    Ascii("prPresent").text := Ascii("create the PR then task_submit_pr").text,
    Ascii("ciGreen").text := Ascii("wait for CI to pass on the PR").text,
    Ascii("prMerged").text := Ascii("merge the PR first").text]

  function FieldText(f: Json, key: Text, default: Text): Text {
    if f.Object? then
      match Get(f.entries, key)
      case Some(String(s)) => s
      case _ => default
    else default
  }

  /** The `message` property of one failed rule. Looking a rule up in the table of
      correctives also finds what every object inherits: a function, which JSON
      leaves out, or for `__proto__` an object without properties. */
  function RuleMessage(rule: Text, message: Text): seq<Entry> {
    if rule in CORRECTIVES then [Entry(Ascii("message").text, String(CORRECTIVES[rule]))]
    else if rule == Ascii("__proto__").text then [Entry(Ascii("message").text, Object([]))]
    else if rule in INHERITED then []
    else [Entry(Ascii("message").text, String(Clamp(message, NORMAL.entryChars)))]
  }

  function FailedRule(f: Json): Json {
    var rule := FieldText(f, Ascii("rule").text, Ascii("unknown").text);
    var error := FieldText(f, Ascii("error").text, []);
    Object([Entry(Ascii("rule").text, String(Clamp(rule, NORMAL.entryChars)))]
           + RuleMessage(rule, FieldText(f, Ascii("message").text, []))
           + if error == [] then [] else [Entry(Ascii("error").text, String(Clamp(error, NORMAL.entryChars)))])
  }

  /** The failed gates a body lists; none when it lists them in no array. */
  function Failed(body: seq<Entry>): seq<Json> {
    match Get(body, Ascii("failed").text)
    case Some(Array(items)) => items
    case _ => []
  }

  /** None when an entry is null: reading its rule throws. */
  function PreconditionDetail(body: seq<Entry>): Option<seq<Entry>> {
    var failed := Failed(body);
    if Null in failed then None
    else Some([Entry(Ascii("failed").text, Array(seq(Min(NORMAL.arrayClamp, |failed|),
                 i requires 0 <= i < Min(NORMAL.arrayClamp, |failed|) => FailedRule(failed[i])))),
               Entry(TOTAL_FAILED, Count(|failed|))])
  }

  // ---- low_confidence ----

  function Texts(items: seq<Json>): (r: seq<Text>)
    ensures |r| <= |items|
  {
    if items == [] then []
    else (if items[0].String? then [items[0].text] else []) + Texts(items[1..])
  }

  function Details(body: seq<Entry>): seq<Entry> {
    match Get(body, Ascii("details").text)
    case Some(Object(entries)) => entries
    case _ => []
  }

  /** The missing fields the details name; none when they name them in no array. */
  function MissingFields(details: seq<Entry>): seq<Text> {
    match Get(details, Ascii("missing").text)
    case Some(Array(items)) => Texts(items)
    case _ => []
  }

  function LowConfidenceDetail(body: seq<Entry>): seq<Entry> {
    var details := Details(body);
    var missing := MissingFields(details);
    Carried(details, Ascii("score").text) + (Carried(details, Ascii("threshold").text)
    + [Entry(Ascii("missing").text, Array(seq(Min(NORMAL.arrayClamp, |missing|),
         i requires 0 <= i < Min(NORMAL.arrayClamp, |missing|) => String(Clamp(missing[i], NORMAL.entryChars))))),
       Entry(TOTAL_MISSING, Count(|missing|))])
  }

  // ---- Their true counts ----

  lemma BuildKeepsCount(code: Text, message: Text, recipe: Text, verbs: seq<Text>, detail: seq<Entry>, key: Text,
                        n: nat)
    requires DistinctKeys(detail) && IsTotalMarker(key) && Entry(key, Count(n)) in detail
    ensures var r := BuildTeachingError(code, message, recipe, verbs, Some(detail));
      r.detail.Some? && Get(r.detail.value, key) == Some(Count(n))
  {
    GetMember(detail, Entry(key, Count(n)));
    MarkersSurvive(Draft(code, message, recipe, verbs, Some(detail)), key, Count(n).numeral);
  }

  /** However many gates failed, totalFailed reaches the caller as their number. */
  lemma FailedCountSurvives(code: Text, message: Text, recipe: Text, verbs: seq<Text>, body: seq<Entry>)
    ensures PreconditionDetail(body).Some? <==> Null !in Failed(body)
    ensures PreconditionDetail(body).Some? ==>
      var r := BuildTeachingError(code, message, recipe, verbs, PreconditionDetail(body));
      r.detail.Some? && Get(r.detail.value, TOTAL_FAILED) == Some(Count(|Failed(body)|))
  {
    if PreconditionDetail(body).Some? {
      FailedCountIn(code, message, recipe, verbs, body, Failed(body));
    }
  }

  lemma FailedCountIn(code: Text, message: Text, recipe: Text, verbs: seq<Text>, body: seq<Entry>, failed: seq<Json>)
    requires failed == Failed(body) && PreconditionDetail(body).Some?
    ensures var r := BuildTeachingError(code, message, recipe, verbs, PreconditionDetail(body));
      r.detail.Some? && Get(r.detail.value, TOTAL_FAILED) == Some(Count(|failed|))
  {
    var detail := PreconditionDetail(body).value;
    assert |TOTAL_FAILED| != |Ascii("failed").text|;
    assert detail[1] == Entry(TOTAL_FAILED, Count(|failed|));
    BuildKeepsCount(code, message, recipe, verbs, detail, TOTAL_FAILED, |failed|);
  }

  /** Keys of pairwise different lengths are distinct. */
  lemma LengthsTellApart(a: seq<Entry>, b: seq<Entry>, c: Entry, d: Entry)
    requires |a| <= 1 && (a != [] ==> |a[0].key| == 5)
    requires |b| <= 1 && (b != [] ==> |b[0].key| == 9)
    requires |c.key| == 7 && |d.key| == 12
    ensures DistinctKeys(a + (b + [c, d]))
  {
    var all := a + (b + [c, d]);
    forall i, j | 0 <= i < j < |all|
      ensures |all[i].key| != |all[j].key|
    {
    }
  }

  lemma CarriedKey(detail: seq<Entry>, key: Text)
    ensures |Carried(detail, key)| <= 1 && (Carried(detail, key) != [] ==> Carried(detail, key)[0].key == key)
  {
  }

  lemma LowConfidenceKeys(body: seq<Entry>)
    ensures DistinctKeys(LowConfidenceDetail(body))
  {
    var details, detail := Details(body), LowConfidenceDetail(body);
    CarriedKey(details, Ascii("score").text);
    CarriedKey(details, Ascii("threshold").text);
    LengthsTellApart(Carried(details, Ascii("score").text), Carried(details, Ascii("threshold").text),
                     detail[|detail| - 2], detail[|detail| - 1]);
    assert detail[|detail| - 2..] == [detail[|detail| - 2], detail[|detail| - 1]];
  }

  /** However many fields were missing, totalMissing reaches the caller as their number. */
  lemma MissingCountSurvives(code: Text, message: Text, recipe: Text, verbs: seq<Text>, body: seq<Entry>)
    ensures var r := BuildTeachingError(code, message, recipe, verbs, Some(LowConfidenceDetail(body)));
      r.detail.Some? && Get(r.detail.value, TOTAL_MISSING) == Some(Count(|MissingFields(Details(body))|))
  {
    LowConfidenceKeys(body);
    BuildKeepsCount(code, message, recipe, verbs, LowConfidenceDetail(body), TOTAL_MISSING,
                    |MissingFields(Details(body))|);
  }
}
