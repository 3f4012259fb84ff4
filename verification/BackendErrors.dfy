/**
 Errors built from a backend body that no catalog entry knows: the generic degrade
 path, and the count of the issues in it.
 */
module BackendErrors {
  import opened Basics
  import opened Utf16
  import opened JsonText
  import opened DetailClamp
  import opened ErrorBudget
  import opened ErrorGuarantees
  import opened WireBounds

  const CODE_BUDGET: nat := 60
  const ISSUES_CLAMP: nat := 3
  const ISSUE_BUDGET: nat := 40
  const ENTRY_BUDGET: nat := NORMAL.entryChars

  // ---- A zod failure in the body ----

  function JoinWith(parts: seq<Text>, separator: Text): Text {
    if parts == [] then []
    else if |parts| == 1 then parts[0]
    else parts[0] + separator + JoinWith(parts[1..], separator)
  }

  /** A string or number as itself, anything else as a visible placeholder. */
  function Render(v: Json): Text {
    match v
    case String(s) => s
    case Number(n) => n
    case _ => Ascii("?").text
  }

  function Rendered(items: seq<Json>): seq<Text> {
    seq(|items|, i requires 0 <= i < |items| => Render(items[i]))
  }

  function ClampedField(issue: seq<Entry>, key: Text): seq<Entry> {
    match Get(issue, key)
    case Some(String(s)) => [Entry(key, String(Clamp(s, ISSUE_BUDGET)))]
    case _ => []
  }

  /** The allowed values of an enum mismatch, in either of zod's wire forms. */
  function EnumOptions(issue: seq<Entry>): seq<Json> {
    match (Get(issue, Ascii("code").text), Get(issue, Ascii("options").text), Get(issue, Ascii("values").text))
    case (Some(String(code)), options, values) =>
      if code == Ascii("invalid_enum_value").text && options.Some? && options.value.Array? then options.value.items
      else if code == Ascii("invalid_value").text && values.Some? && values.value.Array? then values.value.items
      else []
    case _ => []
  }

  function SummarizeZodIssue(issue: Json): seq<Entry> {
    var i := if issue.Object? then issue.entries else [];
    var path := match Get(i, Ascii("path").text)
      case Some(Array(segments)) =>
        if segments == [] then []
        else [Entry(Ascii("path").text, String(Clamp(JoinWith(Rendered(segments), Ascii(".").text), ISSUE_BUDGET)))]
      case _ => [];
    var allowed := JoinWith(Rendered(EnumOptions(i)), Ascii("|").text);
    path + ClampedField(i, Ascii("code").text) + ClampedField(i, Ascii("message").text)
    + if allowed == [] then [] else [Entry(Ascii("allowed").text, String(Clamp(allowed, ENTRY_BUDGET)))]
  }

  function Summaries(issues: seq<Json>): seq<seq<Entry>> {
    seq(|issues|, i requires 0 <= i < |issues| => SummarizeZodIssue(issues[i]))
  }

  /** Summaries that say something, in order; empty ones never take a place. */
  function Telling(summaries: seq<seq<Entry>>): seq<Json> {
    if summaries == [] then []
    else (if summaries[0] == [] then [] else [Object(summaries[0])]) + Telling(summaries[1..])
  }

  function UsableIssues(issues: seq<Json>): seq<Json> {
    Telling(Summaries(issues))
  }

  function WithoutStack(body: seq<Entry>): seq<Entry> {
    if body == [] then []
    else (if body[0].key == Ascii("stack").text then [] else [body[0]]) + WithoutStack(body[1..])
  }

  function IssuesDetail(issues: seq<Json>): seq<Entry> {
    var usable := UsableIssues(issues);
    [Entry(Ascii("issues").text, Array(usable[..Min(ISSUES_CLAMP, |usable|)])), Entry(TOTAL_ISSUES, Count(|issues|))]
  }

  function DeriveGenericDetailSource(details: Option<Json>, bodyError: Option<Json>): Option<Json> {
    if details.Some? && details.value.Object? then details
    else
      match bodyError
      case Some(Object(body)) =>
        (match Get(body, Ascii("issues").text)
         case Some(Array(issues)) =>
           if UsableIssues(issues) != [] then Some(Object(IssuesDetail(issues))) else Some(Object(WithoutStack(body)))
         case _ => Some(Object(WithoutStack(body))))
      case _ => details
  }

  function ClampGenericDetail(details: Option<Json>): Option<seq<Entry>> {
    match details
    case Some(Object(entries)) =>
      var out := ClampEntries(entries, 0, NORMAL);
      if out == [] then None else Some(out)
    case _ => None
  }

  const PRIMER_RECIPE: Text :=
    Ascii("call workflow_primer ").text + Ascii("for the full ").text + Ascii("lifecycle reference and ").text
    + Ascii("today's known traps").text
  const PRIMER: Text := Ascii("workflow_primer").text

  /** The backend's own code when it sent one, else the status. */
  function DegradeCode(status: nat, bodyError: Option<Json>): Text {
    match bodyError
    case Some(String(s)) => if s != [] then Clamp(s, CODE_BUDGET) else Ascii("http_").text + Digits(status)
    case _ => Ascii("http_").text + Digits(status)
  }

  function GenericDegrade(status: nat, message: Text, details: Option<Json>, bodyError: Option<Json>): TeachingError {
    BuildTeachingError(DegradeCode(status, bodyError), message, PRIMER_RECIPE, [PRIMER],
                       ClampGenericDetail(DeriveGenericDetailSource(details, bodyError)))
  }

  // ---- Every degraded error fits ----

  /** What an optional part of a parsed body can hold. */
  predicate GenuinePart(v: Option<Json>) {
    v.Some? ==> Genuine(v.value)
  }

  lemma {:induction false} WithoutStackFits(body: seq<Entry>)
    ensures |WithoutStack(body)| <= |body| && forall e :: e in WithoutStack(body) ==> e in body
  {
    if body != [] {
      WithoutStackFits(body[1..]);
    }
  }

  lemma GenuineFits(entries: seq<Entry>)
    requires Genuine(Object(entries))
    ensures NumbersFit(entries)
  {
    forall e | e in entries && e.value.Number?
      ensures |e.value.numeral| <= NUMERAL_LIMIT
    {
      assert Genuine(e.value);
    }
  }

  lemma IssuesFit(body: seq<Entry>, issues: seq<Json>)
    requires Genuine(Object(body)) && Get(body, Ascii("issues").text) == Some(Array(issues))
    ensures NumbersFit(IssuesDetail(issues))
  {
    assert Genuine(Array(issues));
  }

  lemma SourceFits(details: Option<Json>, bodyError: Option<Json>)
    requires GenuinePart(details) && GenuinePart(bodyError)
    ensures var source := DeriveGenericDetailSource(details, bodyError);
      source.Some? && source.value.Object? ==> NumbersFit(source.value.entries)
  {
    if details.Some? && details.value.Object? {
      GenuineFits(details.value.entries);
    } else if bodyError.Some? && bodyError.value.Object? {
      var body := bodyError.value.entries;
      GenuineFits(body);
      WithoutStackFits(body);
      match Get(body, Ascii("issues").text)
      case Some(Array(issues)) => IssuesFit(body, issues);
      case _ =>
    }
  }

  lemma ClampFits(entries: seq<Entry>)
    requires NumbersFit(entries)
    ensures NumbersFit(ClampEntries(entries, 0, NORMAL))
  {
    var n := Min(NORMAL.keyClamp, |entries|);
    var kept := FirstEntries(entries, n, 0, NORMAL);
    NothingOverwritten(entries, n, 0, NORMAL);
    forall e | e in kept && e.value.Number?
      ensures |e.value.numeral| <= NUMERAL_LIMIT
    {
      var i :| 0 <= i < n && kept[i] == e;
      assert IsClampOf(kept, entries, i, 0, NORMAL);
      KeptNumberFits(entries, i);
    }
  }

  lemma KeptNumberFits(entries: seq<Entry>, i: nat)
    requires NumbersFit(entries) && i < |entries|
    ensures var v := ClampValue(entries[i].value, 1, NORMAL); v.Number? ==> |v.numeral| <= NUMERAL_LIMIT
  {
    assert entries[i] in entries;
  }

  lemma ShortTextCost(t: Text, n: nat)
    requires |CodePoints(t)| <= n
    ensures Cost(t) <= 6 * n
  {
  }

  lemma CodeCost(status: nat, bodyError: Option<Json>)
    requires status < 1000
    ensures Cost(DegradeCode(status, bodyError)) <= 360
  {
    match bodyError
    case Some(String(s)) =>
      ClampKeepsWellFormed(s, CODE_BUDGET);
      StatusCode(status);
      ShortTextCost(DegradeCode(status, bodyError), 60);
    case _ =>
      StatusCode(status);
      ShortTextCost(DegradeCode(status, bodyError), 60);
  }

  lemma StatusCode(status: nat)
    requires status < 1000
    ensures |CodePoints(Ascii("http_").text + Digits(status))| <= 8
  {
    assert Pow10(3) == 1000 by { assert Pow10(1) == 10 && Pow10(2) == 100; }
    DigitsLength(status, 3);
  }

  lemma PrimerStart(a: string, b: string)
    requires a == "call workflow_primer " && b == "for the full "
    ensures PlainText(Ascii(a).text) && PlainText(Ascii(b).text)
  {
    PlainLiteral(a);
    PlainLiteral(b);
  }

  lemma PrimerMiddle(b: string)
    requires b == "lifecycle reference and "
    ensures PlainText(Ascii(b).text)
  {
    PlainLiteral(b);
  }

  lemma PrimerEnd(c: string)
    requires c == "today's known traps"
    ensures PlainText(Ascii(c).text)
  {
    PlainLiteral(c);
  }

  lemma PrimerVerb(verb: string)
    requires verb == "workflow_primer"
    ensures PlainText(Ascii(verb).text)
  {
    PlainLiteral(verb);
  }

  lemma PrimerCosts()
    ensures Cost(Clamp(PRIMER_RECIPE, RECIPE_BUDGET)) <= RECIPE_BUDGET && SmallVerbs([PRIMER])
  {
    PrimerStart("call workflow_primer ", "for the full ");
    PrimerMiddle("lifecycle reference and ");
    PrimerEnd("today's known traps");
    PrimerVerb("workflow_primer");
    PlainClampCost(PRIMER_RECIPE, RECIPE_BUDGET);
    PlainCost(PRIMER);
  }

  /** For every status, message and body a backend can send, the degraded error
      is within the budget and carries its own code. */
  lemma DegradeFits(status: nat, message: Text, details: Option<Json>, bodyError: Option<Json>)
    requires status < 1000 && GenuinePart(details) && GenuinePart(bodyError)
    ensures var r := GenericDegrade(status, message, details, bodyError);
      Wire(r) <= ERROR_BUDGET && r.code == DegradeCode(status, bodyError)
  {
    var source := DeriveGenericDetailSource(details, bodyError);
    var e := Draft(DegradeCode(status, bodyError), message, PRIMER_RECIPE, [PRIMER], ClampGenericDetail(source));
    SourceFits(details, bodyError);
    if source.Some? && source.value.Object? {
      ClampFits(source.value.entries);
    }
    CodeCost(status, bodyError);
    PrimerCosts();
    FloorAtMost(e);
    BudgetHolds(e);
  }

  // ---- The number of issues ----

  lemma IssueNames()
    ensures Ascii("issues").text !in INHERITED && TOTAL_ISSUES !in INHERITED && TOTAL_ISSUES != Ascii("issues").text
  {
    assert TOTAL_ISSUES[0] == 't' as int && TOTAL_ISSUES[2] == 't' as int;
    assert Ascii("issues").text[0] == 'i' as int && Ascii("issues").text[2] == 's' as int;
  }

  lemma IssuesDetailKeepsCount(issues: seq<Json>)
    ensures var out := ClampEntries(IssuesDetail(issues), 0, NORMAL);
      && DistinctKeys(out) && |out| == 2
      && Get(out, TOTAL_ISSUES) == Some(Count(|issues|))
  {
    var source := IssuesDetail(issues);
    var out := ClampEntries(source, 0, NORMAL);
    NothingOverwritten(source, 2, 0, NORMAL);
    assert out == FirstEntries(source, 2, 0, NORMAL);
    assert IsClampOf(out, source, 0, 0, NORMAL) && IsClampOf(out, source, 1, 0, NORMAL);
    IssueNames();
    assert out[0].key == Ascii("issues").text;
    assert out[1] == Entry(TOTAL_ISSUES, Count(|issues|));
    GetMember(out, out[1]);
  }

  lemma DegradeKeepsMarker(status: nat, message: Text, source: seq<Entry>, bodyError: Option<Json>, key: Text, n: Text)
    requires var out := ClampEntries(source, 0, NORMAL);
      DistinctKeys(out) && IsTotalMarker(key) && Get(out, key) == Some(Number(n))
    ensures var r := BuildTeachingError(DegradeCode(status, bodyError), message, PRIMER_RECIPE, [PRIMER],
                                        ClampGenericDetail(Some(Object(source))));
      r.detail.Some? && Get(r.detail.value, key) == Some(Number(n))
  {
    var out := ClampEntries(source, 0, NORMAL);
    assert out != [];
    MarkersSurvive(Draft(DegradeCode(status, bodyError), message, PRIMER_RECIPE, [PRIMER], Some(out)), key, n);
  }

  lemma IssuesAreTheSource(details: Option<Json>, body: seq<Entry>, issues: seq<Json>)
    requires !(details.Some? && details.value.Object?)
    requires Get(body, Ascii("issues").text) == Some(Array(issues)) && UsableIssues(issues) != []
    ensures DeriveGenericDetailSource(details, Some(Object(body))) == Some(Object(IssuesDetail(issues)))
  {
  }

  /** However many issues the body listed, and whatever else had to be cut, the
      caller reads their true number. */
  lemma IssueCountSurvives(status: nat, message: Text, details: Option<Json>, body: seq<Entry>, issues: seq<Json>)
    requires !(details.Some? && details.value.Object?)
    requires Get(body, Ascii("issues").text) == Some(Array(issues)) && UsableIssues(issues) != []
    ensures var r := GenericDegrade(status, message, details, Some(Object(body)));
      r.detail.Some? && Get(r.detail.value, TOTAL_ISSUES) == Some(Count(|issues|))
  {
    var source := IssuesDetail(issues);
    IssuesAreTheSource(details, body, issues);
    IssuesDetailKeepsCount(issues);
    DegradeKeepsMarker(status, message, source, Some(Object(body)), TOTAL_ISSUES, Count(|issues|).numeral);
  }

  lemma {:induction false} TellingWhenAnyIs(summaries: seq<seq<Entry>>)
    ensures Telling(summaries) != [] <==> exists i :: 0 <= i < |summaries| && summaries[i] != []
  {
    if summaries != [] {
      TellingWhenAnyIs(summaries[1..]);
      if i :| 1 <= i < |summaries| && summaries[i] != [] {
        assert summaries[1..][i - 1] == summaries[i];
      }
    }
  }

  /** Issues that say nothing never push a telling one out. */
  lemma UsableWhenAnyIs(issues: seq<Json>)
    ensures UsableIssues(issues) != [] <==> exists i :: 0 <= i < |issues| && SummarizeZodIssue(issues[i]) != []
  {
    TellingWhenAnyIs(Summaries(issues));
    assert forall i :: 0 <= i < |issues| ==> Summaries(issues)[i] == SummarizeZodIssue(issues[i]);
  }
}
