/**
 An upper bound for the part of an error no degrade stage can shrink.
 */
module WireBounds {
  import opened Basics
  import opened Utf16
  import opened JsonText
  import opened DetailClamp
  import opened ErrorBudget

  predicate PlainText(t: Text) {
    forall i :: 0 <= i < |t| ==> IsPlainUnit(t[i])
  }

  predicate PlainChars(s: string) {
    forall i :: 0 <= i < |s| ==> ' ' <= s[i] <= '~' && s[i] != '"' && s[i] != '\\'
  }

  /** Printable ASCII other than quote and backslash costs one unit a character. */
  lemma {:induction false} PlainCost(t: Text)
    requires PlainText(t)
    ensures Cost(t) == |t| == |CodePoints(t)|
  {
    if t != [] {
      PlainCost(t[1..]);
      assert CodePoints(t) == [t[..1]] + CodePoints(t[1..]);
      assert IsPlain(t[..1]);
    }
  }

  lemma PlainLiteral(s: string)
    requires PlainChars(s)
    ensures PlainText(Ascii(s).text)
  {
    forall i | 0 <= i < |s|
      ensures IsPlainUnit(Ascii(s).text[i])
    {
      assert Ascii(s).text[i] == s[i] as int;
    }
  }

  lemma PlainClampCost(t: Text, k: nat)
    requires PlainText(t) && k >= 3
    ensures Cost(Clamp(t, k)) <= k
  {
    PlainCost(t);
    ClampCost(t, k);
    var cps := CodePoints(t);
    if k < |cps| {
      CutCost(cps, k - 3, |cps|);
      assert cps[..|cps|] == cps;
    }
  }

  /** The exact size of an error with neither detail nor verbs. */
  lemma BareSize(e: TeachingError)
    requires e.detail.None? && e.allowedNext == []
    ensures Wire(e) == 110 + Cost(e.code) + Cost(e.message) + Cost(e.recipe)
  {
    var fields := Fields(e);
    FieldNames();
    FourExactly(fields);
    StringSize(e.code, 4);
    StringSize(e.message, 4);
    StringSize(e.recipe, 4);
    assert fields[3].value == Array([]);
    RefusalExactly(fields);
  }

  lemma FourExactly(entries: seq<Entry>)
    requires |entries| == 4 && forall i :: 0 <= i < 4 ==> PlainText(entries[i].key)
    ensures |Members(entries, 4)| ==
      39 + |entries[0].key| + |entries[1].key| + |entries[2].key| + |entries[3].key|
      + |Stringify(entries[0].value, 4)| + |Stringify(entries[1].value, 4)|
      + |Stringify(entries[2].value, 4)| + |Stringify(entries[3].value, 4)|
  {
    MemberSize(entries, 4);
    MemberSize(entries[1..], 4);
    MemberSize(entries[2..], 4);
    MemberSize(entries[3..], 4);
    assert entries[1..][1..] == entries[2..] && entries[2..][1..] == entries[3..] && entries[3..][1..] == [];
  }

  lemma RefusalExactly(fields: seq<Entry>)
    requires fields != []
    ensures |Stringify(Object(RefusalEntries(Object(fields))), 0)| == 35 + |Members(fields, 4)|
  {
    var entries := RefusalEntries(Object(fields));
    FieldNames();
    MemberSize(entries, 2);
    MemberSize(entries[1..], 2);
    assert entries[1..][1..] == [];
  }

  lemma FieldNames()
    ensures PlainText(Ascii("code").text) && PlainText(Ascii("message").text) && PlainText(Ascii("recipe").text)
    ensures PlainText(Ascii("allowedNext").text) && PlainText(Ascii("ok").text) && PlainText(Ascii("error").text)
  {
    PlainLiteral("code");
    PlainLiteral("message");
    PlainLiteral("recipe");
    PlainLiteral("allowedNext");
    PlainLiteral("ok");
    PlainLiteral("error");
  }

  lemma MemberSize(entries: seq<Entry>, indent: nat)
    requires entries != [] && PlainText(entries[0].key)
    ensures |Members(entries, indent)| ==
      |entries[0].key| + |Stringify(entries[0].value, indent)| + indent + (if |entries| > 1 then 6 else 5)
      + |Members(entries[1..], indent)|
  {
    PlainCost(entries[0].key);
  }

  lemma FirstMember(entries: seq<Entry>, indent: nat)
    requires entries != []
    ensures |Members(entries, indent)| <=
      Cost(entries[0].key) + |Stringify(entries[0].value, indent)| + indent + 6 + |Members(entries[1..], indent)|
  {
  }

  lemma MembersStep(entries: seq<Entry>, key: Text, value: Json, indent: nat)
    requires entries != [] && entries[0] == Entry(key, value) && PlainText(key)
    ensures |Members(entries, indent)| <= |key| + |Stringify(value, indent)| + indent + 6
        + |Members(entries[1..], indent)|
  {
    PlainCost(key);
    FirstMember(entries, indent);
  }

  /** No verb name is longer than this on the wire. */
  const VERB_COST: nat := 40

  predicate SmallVerbs(names: seq<Text>) {
    forall t :: t in names ==> Cost(t) <= VERB_COST
  }

  lemma FirstElement(items: seq<Json>, indent: nat)
    requires items != []
    ensures |Elements(items, indent)| <= |Stringify(items[0], indent)| + indent + 2 + |Elements(items[1..], indent)|
  {
  }

  lemma {:induction false} ElementsAtMost(names: seq<Text>)
    requires SmallVerbs(names)
    ensures |Elements(Verbs(names).items, 6)| <= |names| * (VERB_COST + 10)
  {
    if names != [] {
      var items := Verbs(names).items;
      ElementsAtMost(names[1..]);
      assert names[0] in names;
      assert items[1..] == Verbs(names[1..]).items;
      FirstElement(items, 6);
    }
  }

  /** What a detail the engine can hold always satisfies at its top level. */
  predicate NumbersFit(detail: seq<Entry>) {
    |detail| < LENGTH_LIMIT && forall e :: e in detail && e.value.Number? ==> |e.value.numeral| <= NUMERAL_LIMIT
  }

  /** An entry of the kind a summary is made of. */
  predicate IsLight(e: Entry) {
    && PlainText(e.key) && |e.key| <= 12
    && match e.value
       case Bool(_) => true
       case Number(n) => |n| <= NUMERAL_LIMIT
       case String(s) => PlainText(s) && |e.key| + |s| <= 39
       case _ => false
  }

  lemma LightEntry(entries: seq<Entry>, e: Entry)
    requires IsLight(e) && entries != [] && entries[0] == e
    ensures |Members(entries, 6)| <= 55 + |Members(entries[1..], 6)|
  {
    MembersStep(entries, e.key, e.value, 6);
    if e.value.String? {
      PlainCost(e.value.text);
    }
  }

  predicate AllLight(entries: seq<Entry>) {
    forall e :: e in entries ==> IsLight(e)
  }

  lemma {:induction false} LightMembers(entries: seq<Entry>)
    requires AllLight(entries)
    ensures |Members(entries, 6)| <= |entries| * 55
  {
    if entries != [] {
      LightMembers(entries[1..]);
      LightEntry(entries, entries[0]);
    }
  }

  lemma NumberIsLight(key: string, n: Text)
    requires PlainChars(key) && |key| <= 12 && |n| <= NUMERAL_LIMIT
    ensures IsLight(Entry(Ascii(key).text, Number(n)))
  {
    PlainLiteral(key);
  }

  lemma CountIsLight(key: Text, n: Text)
    requires IsTotalMarker(key) && |n| <= NUMERAL_LIMIT
    ensures IsLight(Entry(key, Number(n)))
  {
    FailedIsLight(n);
    MissingIsLight(n);
    IssuesIsLight(n);
    KeysIsLight(n);
  }

  lemma FailedIsLight(n: Text)
    requires |n| <= NUMERAL_LIMIT
    ensures IsLight(Entry(TOTAL_FAILED, Number(n)))
  {
    NumberIsLight("totalFailed", n);
  }

  lemma MissingIsLight(n: Text)
    requires |n| <= NUMERAL_LIMIT
    ensures IsLight(Entry(TOTAL_MISSING, Number(n)))
  {
    NumberIsLight("totalMissing", n);
  }

  lemma IssuesIsLight(n: Text)
    requires |n| <= NUMERAL_LIMIT
    ensures IsLight(Entry(TOTAL_ISSUES, Number(n)))
  {
    NumberIsLight("totalIssues", n);
  }

  lemma KeysIsLight(n: Text)
    requires |n| <= NUMERAL_LIMIT
    ensures IsLight(Entry(TOTAL_KEYS, Number(n)))
  {
    NumberIsLight("totalKeys", n);
  }

  lemma ReasonIsPlain(start: string, end: string)
    requires start == "detail exceeded " && end == "the error budget"
    ensures PlainText(Ascii(start).text) && PlainText(Ascii(end).text)
  {
    PlainLiteral(start);
    PlainLiteral(end);
  }

  lemma StringIsLight(key: string, s: Text)
    requires PlainChars(key) && |key| <= 7 && PlainText(s) && |s| == 32
    ensures IsLight(Entry(Ascii(key).text, String(s)))
  {
    PlainLiteral(key);
  }

  lemma ReasonIsLight()
    ensures IsLight(REASON)
  {
    ReasonIsPlain("detail exceeded ", "the error budget");
    StringIsLight("reason", REASON_TEXT);
  }

  lemma OmittedIsLight()
    ensures IsLight(OMITTED)
  {
    PlainLiteral("omitted");
  }

  lemma SummaryIsLight(detail: seq<Entry>)
    requires NumbersFit(detail)
    ensures AllLight(Summary(detail)) && |Summary(detail)| <= 6
  {
    forall e | e in Summary(detail)
      ensures IsLight(e)
    {
      OmittedIsLight();
      ReasonIsLight();
      if e != OMITTED && e != REASON {
        CountIsLight(e.key, e.value.numeral);
      }
    }
  }

  lemma ObjectSize(entries: seq<Entry>, indent: nat)
    ensures |Stringify(Object(entries), indent)| <= indent + 3 + |Members(entries, indent + 2)|
  {
  }

  lemma LightObject(entries: seq<Entry>)
    requires AllLight(entries) && |entries| <= 6
    ensures |Stringify(Object(entries), 4)| <= 337
  {
    LightMembers(entries);
    ObjectSize(entries, 4);
  }

  lemma SummarySize(detail: seq<Entry>)
    requires NumbersFit(detail)
    ensures |Stringify(Object(Summary(detail)), 4)| <= 337
  {
    SummaryIsLight(detail);
    LightObject(Summary(detail));
  }

  function DetailField(detail: Option<seq<Entry>>): seq<Entry> {
    match detail
    case None => []
    case Some(d) => [Entry(Ascii("detail").text, Object(d))]
  }

  lemma DetailFieldSize(e: TeachingError)
    requires e.detail.Some? ==> NumbersFit(e.detail.value)
    ensures |Members(DetailField(Minimized(e).detail), 4)| <= 353
  {
    if e.detail.Some? {
      SummarySize(e.detail.value);
      PlainLiteral("detail");
      MembersStep(DetailField(Minimized(e).detail), Ascii("detail").text, Object(Summary(e.detail.value)), 4);
    }
  }

  /** The size of four properties in front of some others. */
  lemma FourMembers(entries: seq<Entry>, rest: seq<Entry>)
    requires |entries| == 4 && forall e :: e in entries ==> PlainText(e.key)
    ensures |Members(entries + rest, 4)| <=
      40 + |entries[0].key| + |entries[1].key| + |entries[2].key| + |entries[3].key|
      + |Stringify(entries[0].value, 4)| + |Stringify(entries[1].value, 4)|
      + |Stringify(entries[2].value, 4)| + |Stringify(entries[3].value, 4)| + |Members(rest, 4)|
  {
    var all := entries + rest;
    MembersStep(all, entries[0].key, entries[0].value, 4);
    MembersStep(all[1..], entries[1].key, entries[1].value, 4);
    MembersStep(all[2..], entries[2].key, entries[2].value, 4);
    MembersStep(all[3..], entries[3].key, entries[3].value, 4);
    assert all[1..][1..] == all[2..] && all[2..][1..] == all[3..] && all[3..][1..] == rest;
  }

  lemma VerbsSize(names: seq<Text>)
    requires SmallVerbs(names)
    ensures |Stringify(Verbs(names), 4)| <= 7 + |names| * (VERB_COST + 10)
  {
    ElementsAtMost(names);
  }

  lemma StringSize(s: Text, indent: nat)
    ensures |Stringify(String(s), indent)| == Cost(s) + 2
  {
  }

  function FixedFields(m: TeachingError): seq<Entry> {
    Fields(m.(detail := None))
  }

  lemma FixedFieldNames(m: TeachingError)
    ensures |FixedFields(m)| == 4
    ensures forall i :: 0 <= i < 4 ==> PlainText(FixedFields(m)[i].key) && |FixedFields(m)[i].key| <= 11
    ensures Fields(m) == FixedFields(m) + DetailField(m.detail)
  {
    PlainLiteral("code");
    PlainLiteral("message");
    PlainLiteral("recipe");
    PlainLiteral("allowedNext");
  }

  lemma FieldsSize(m: TeachingError)
    requires m.message == [] && SmallVerbs(m.allowedNext)
    ensures |Members(Fields(m), 4)| <=
      97 + Cost(m.code) + Cost(m.recipe) + |m.allowedNext| * (VERB_COST + 10) + |Members(DetailField(m.detail), 4)|
  {
    FixedFieldNames(m);
    FourMembers(FixedFields(m), DetailField(m.detail));
    VerbsSize(m.allowedNext);
    StringSize(m.code, 4);
    StringSize(m.message, 4);
    StringSize(m.recipe, 4);
  }

  lemma RefusalAtMost(fields: seq<Entry>)
    requires fields != []
    ensures |Stringify(Object(RefusalEntries(Object(fields))), 0)| <= 50 + |Members(fields, 4)|
  {
    var entries := RefusalEntries(Object(fields));
    PlainLiteral("ok");
    PlainLiteral("error");
    ObjectSize(entries, 0);
    ObjectSize(fields, 2);
    MembersStep(entries, Ascii("ok").text, Bool(false), 2);
    MembersStep(entries[1..], Ascii("error").text, Object(fields), 2);
    assert entries[1..][1..] == [];
  }

  /** The floor of an error is bounded by its code, recipe and verbs alone. */
  lemma FloorAtMost(e: TeachingError)
    requires e.detail.Some? ==> NumbersFit(e.detail.value)
    requires SmallVerbs(e.allowedNext)
    ensures Floor(e) <= 500 + Cost(e.code) + Cost(e.recipe) + |e.allowedNext| * (VERB_COST + 10)
  {
    var m := Minimized(e).(message := []);
    DetailFieldSize(e);
    FieldsSize(m);
    RefusalAtMost(Fields(m));
  }
}
