/**
 The true counts of a generic detail: the one on top, which always reaches the
 caller, and those of nested objects, which the harder clamp derives once more.
 */
module NestedCounts {
  import opened Basics
  import opened Utf16
  import opened JsonText
  import opened DetailClamp
  import opened ErrorBudget
  import opened ErrorGuarantees
  import opened WireBounds
  import opened BackendErrors

  // ---- The count on top ----

  /** A detail that lost keys tells the caller how many the body had, however
      much else is cut. */
  lemma KeyCountSurvives(status: nat, message: Text, details: Option<Json>, bodyError: Option<Json>,
                         source: seq<Entry>)
    requires DeriveGenericDetailSource(details, bodyError) == Some(Object(source))
    requires |source| > NORMAL.keyClamp
    ensures var r := GenericDegrade(status, message, details, bodyError);
      r.detail.Some? && Get(r.detail.value, TOTAL_KEYS) == Some(Count(|source|))
  {
    EntriesSurvive(source, 0, NORMAL);
    NothingOverwritten(source, NORMAL.keyClamp, 0, NORMAL);
    PutKeepsDistinct(FirstEntries(source, NORMAL.keyClamp, 0, NORMAL), TOTAL_KEYS, Count(|source|));
    DegradeKeepsMarker(status, message, source, bodyError, TOTAL_KEYS, Count(|source|).numeral);
  }

  // ---- The count of one nested object ----

  /** What the usual clamp and the harder one behind it make of a value. */
  function Twice(v: Json, depth: nat): Json {
    ClampValue(ClampValue(v, depth, NORMAL), depth, HARD)
  }

  /** Some entry the usual clamp keeps bears the marker's own name. */
  predicate NamesTheMarker(inner: seq<Entry>) {
    exists i :: 0 <= i < Min(NORMAL.keyClamp, |inner|) && inner[i].key == TOTAL_KEYS
  }

  /** The number of properties the usual clamp leaves, its marker among them. */
  function Shrunk(inner: seq<Entry>): nat {
    if |inner| <= NORMAL.keyClamp then |inner|
    else if NamesTheMarker(inner) then NORMAL.keyClamp
    else NORMAL.keyClamp + 1
  }

  predicate CountStaysTrue(inner: seq<Entry>)
    ensures CountStaysTrue(inner) <==> Shrunk(inner) == |inner|
  {
    |inner| <= NORMAL.keyClamp || (|inner| == NORMAL.keyClamp + 1 && !NamesTheMarker(inner))
  }

  /** The count an object carries. */
  function OwnCount(v: Json): Option<Json> {
    match v
    case Object(entries) => Get(entries, TOTAL_KEYS)
    case _ => None
  }

  lemma ShrunkSize(inner: seq<Entry>, depth: nat)
    ensures |ClampEntries(inner, depth, NORMAL)| == Shrunk(inner)
  {
    NothingOverwritten(inner, Min(NORMAL.keyClamp, |inner|), depth, NORMAL);
    EntriesSurvive(inner, depth, NORMAL);
  }

  lemma CountIsOwnSize(entries: seq<Entry>, depth: nat)
    ensures var r := ClampEntries(entries, depth, HARD);
      if |entries| <= HARD.keyClamp then |r| == |entries| else Get(r, TOTAL_KEYS) == Some(Count(|entries|))
  {
    NothingOverwritten(entries, Min(HARD.keyClamp, |entries|), depth, HARD);
  }

  lemma TwiceObject(inner: seq<Entry>, depth: nat)
    requires depth <= MAX_DEPTH
    ensures Twice(Object(inner), depth) == Object(ClampEntries(ClampEntries(inner, depth, NORMAL), depth, HARD))
  {
  }

  lemma CountIsTrue(a: nat, b: nat)
    ensures Count(a) == Count(b) <==> a == b
  {
    if Count(a) == Count(b) {
      DigitsInjective(a, b);
    }
  }

  /** After both clamps an object of more than three keys carries the size the first
      one left it, which is its own exactly in the two cases named; a smaller
      object loses nothing. */
  lemma NestedCount(inner: seq<Entry>, depth: nat)
    requires depth <= MAX_DEPTH
    ensures Twice(Object(inner), depth).Object?
    ensures var shown := Twice(Object(inner), depth);
      if |inner| <= HARD.keyClamp then |shown.entries| == |inner|
      else
        && OwnCount(shown) == Some(Count(Shrunk(inner)))
        && (OwnCount(shown) == Some(Count(|inner|)) <==> CountStaysTrue(inner))
  {
    TwiceObject(inner, depth);
    ShrunkSize(inner, depth);
    CountIsOwnSize(ClampEntries(inner, depth, NORMAL), depth);
    CountIsTrue(Shrunk(inner), |inner|);
  }

  // ---- Where a nested object is found again ----

  /** What stands at place `i` of an array or object. */
  function Child(v: Json, i: nat): Option<Json> {
    match v
    case Array(items) => if i < |items| then Some(items[i]) else None
    case Object(entries) => if i < |entries| then Some(entries[i].value) else None
    case _ => None
  }

  function At(v: Json, path: seq<nat>): Option<Json> {
    if path == [] then Some(v)
    else match Child(v, path[0])
      case Some(child) => At(child, path[1..])
      case None => None
  }

  function CountAt(v: Json, path: seq<nat>): Option<Json> {
    match At(v, path)
    case Some(found) => OwnCount(found)
    case None => None
  }

  /** The harder clamp keeps place `i`, and no marker is written over it. */
  predicate KeepsPlace(v: Json, i: nat) {
    match v
    case Array(items) => i < Min(HARD.arrayClamp, |items|)
    case Object(entries) => i < Min(HARD.keyClamp, |entries|) && entries[i].key != TOTAL_KEYS
    case _ => false
  }

  predicate KeepsPath(v: Json, path: seq<nat>)
    ensures KeepsPath(v, path) ==> At(v, path).Some?
  {
    path == [] || (KeepsPlace(v, path[0]) && KeepsPath(Child(v, path[0]).value, path[1..]))
  }

  /** One clamp keeps the places of its first entries, each with its own clamped
      value, and gives none but a marker's own name to a marker. */
  lemma EntryKept(entries: seq<Entry>, i: nat, depth: nat, limits: Limits)
    requires i < Min(limits.keyClamp, |entries|) && entries[i].key != TOTAL_KEYS
    ensures var r := ClampEntries(entries, depth, limits);
      && i < |r| && r[i].value == ClampValue(entries[i].value, depth + 1, limits)
      && r[i].key != TOTAL_KEYS
      && (IsTotalMarker(r[i].key) ==> IsTotalMarker(entries[i].key))
  {
    var n := Min(limits.keyClamp, |entries|);
    var kept := FirstEntries(entries, n, depth, limits);
    NothingOverwritten(entries, n, depth, limits);
    assert IsClampOf(kept, entries, i, depth, limits);
    NameKept(kept[..i], entries[i].key, limits.entryChars);
  }

  /** A clamped name is the name itself or ends with a dot or a digit: never
      another name's marker. */
  lemma NameKept(before: seq<Entry>, key: Text, maxChars: nat)
    ensures var name := FreshName(before, Clamp(key, maxChars));
      IsTotalMarker(name) ==> name == key
  {
    MarkerEnds();
    ClampEnd(key, maxChars);
    FreshEnd(before, Clamp(key, maxChars));
  }

  lemma MarkerEnds()
    ensures forall key :: IsTotalMarker(key) ==> key != [] && Last(key) > 0x39
  {
    assert Last(TOTAL_FAILED) == 'd' as int && Last(TOTAL_MISSING) == 'g' as int;
    assert Last(TOTAL_KEYS) == 's' as int && Last(TOTAL_ISSUES) == 's' as int;
  }

  lemma ChildKept(v: Json, i: nat, depth: nat)
    requires depth <= MAX_DEPTH && KeepsPlace(v, i)
    ensures Child(Twice(v, depth), i) == Some(Twice(Child(v, i).value, depth + 1))
  {
    if v.Object? {
      EntryKept(v.entries, i, depth, NORMAL);
      EntryKept(ClampEntries(v.entries, depth, NORMAL), i, depth, HARD);
    }
  }

  // ---- The entries of the detail itself ----

  lemma NotTheMarker(key: Text)
    requires !IsTotalMarker(key)
    ensures key != TOTAL_KEYS
  {
  }

  /** How many entries in front of entry `k` the harder clamp treats as data. */
  function PlaceOf(detail: seq<Entry>, k: nat): nat {
    |NonMarkers(detail[..Min(k, |detail|)])|
  }

  lemma PlaceStep(detail: seq<Entry>, k: nat)
    requires 0 < k <= |detail|
    ensures PlaceOf(detail, k) == PlaceOf(detail[1..], k - 1) + if IsData(detail[0]) then 1 else 0
  {
    assert detail[..k][0] == detail[0] && detail[..k][1..] == detail[1..][..k - 1];
  }

  lemma {:induction false} PlaceAmongData(detail: seq<Entry>, k: nat)
    requires k < |detail| && IsData(detail[k])
    ensures PlaceOf(detail, k) < |NonMarkers(detail)| && NonMarkers(detail)[PlaceOf(detail, k)] == detail[k]
  {
    if k > 0 {
      PlaceStep(detail, k);
      PlaceAmongData(detail[1..], k - 1);
    }
  }

  lemma {:induction false} SpreadSpares(base: seq<Entry>, over: seq<Entry>, i: nat)
    requires i < |base| && !IsTotalMarker(base[i].key) && forall e :: e in over ==> IsTotalMarker(e.key)
    ensures i < |Spread(base, over)| && Spread(base, over)[i] == base[i]
    decreases over
  {
    if over != [] {
      SpreadSpares(Put(base, over[0].key, over[0].value), over[1..], i);
    }
  }

  /** What a clamp and the markers put back leave of the entry at place `i`. */
  lemma PlaceSurvives(rest: seq<Entry>, over: seq<Entry>, i: nat, depth: nat, limits: Limits)
    requires i < Min(limits.keyClamp, |rest|) && !IsTotalMarker(rest[i].key)
    requires forall e :: e in over ==> IsTotalMarker(e.key)
    ensures var r := Spread(ClampEntries(rest, depth, limits), over);
      i < |r| && r[i].value == ClampValue(rest[i].value, depth + 1, limits)
  {
    NotTheMarker(rest[i].key);
    EntryKept(rest, i, depth, limits);
    SpreadSpares(ClampEntries(rest, depth, limits), over, i);
  }

  /** The first three data entries keep their places under the harder clamp. */
  lemma DataEntryKept(detail: seq<Entry>, k: nat, top: nat)
    requires k < |detail| && IsData(detail[k]) && !IsTotalMarker(detail[k].key)
    requires PlaceOf(detail, k) < HARD.keyClamp && top == 0
    ensures Child(Object(ReclampHarder(detail)), PlaceOf(detail, k)) == Some(ClampValue(detail[k].value, top + 1, HARD))
  {
    PlaceAmongData(detail, k);
    PlaceSurvives(NonMarkers(detail), Markers(detail), PlaceOf(detail, k), top, HARD);
  }

  lemma NameIsNotInherited(entries: seq<Entry>, i: nat, depth: nat, limits: Limits)
    requires i < Min(limits.keyClamp, |entries|) && entries[i].key != TOTAL_KEYS
    requires i < |ClampEntries(entries, depth, limits)|
    ensures ClampEntries(entries, depth, limits)[i].key !in INHERITED
  {
    var n := Min(limits.keyClamp, |entries|);
    var kept := FirstEntries(entries, n, depth, limits);
    NothingOverwritten(entries, n, depth, limits);
    assert IsClampOf(kept, entries, i, depth, limits);
    NameKept(kept[..i], entries[i].key, limits.entryChars);
  }

  lemma NameIsData(e: Entry)
    requires e.key !in INHERITED && !IsTotalMarker(e.key)
    ensures IsData(e)
  {
  }

  lemma ClampedIsData(entries: seq<Entry>, k: nat, depth: nat, limits: Limits)
    requires k < Min(limits.keyClamp, |entries|) && !IsTotalMarker(entries[k].key)
    ensures var r := ClampEntries(entries, depth, limits);
      && k < |r| && r[k].value == ClampValue(entries[k].value, depth + 1, limits)
      && IsData(r[k]) && !IsTotalMarker(r[k].key)
  {
    NotTheMarker(entries[k].key);
    EntryKept(entries, k, depth, limits);
    NameIsNotInherited(entries, k, depth, limits);
    NameIsData(ClampEntries(entries, depth, limits)[k]);
  }

  /** Entry `k` of a generic detail's source, found again after both clamps. */
  lemma SourceEntryKept(source: seq<Entry>, detail: seq<Entry>, k: nat, top: nat)
    requires top == 0 && detail == ClampEntries(source, top, NORMAL)
    requires k < Min(NORMAL.keyClamp, |source|) && !IsTotalMarker(source[k].key)
    requires PlaceOf(detail, k) < HARD.keyClamp
    ensures Child(Object(ReclampHarder(detail)), PlaceOf(detail, k)) == Some(Twice(source[k].value, top + 1))
  {
    ClampedIsData(source, k, top, NORMAL);
    DataEntryKept(detail, k, top);
  }

  lemma CountOneDown(v: Json, i: nat, path: seq<nat>, child: Json)
    requires Child(v, i) == Some(child)
    ensures CountAt(v, [i] + path) == CountAt(child, path)
  {
    assert ([i] + path)[1..] == path;
  }

  lemma {:induction false} CountBelow(v: Json, path: seq<nat>, depth: nat, inner: seq<Entry>)
    requires depth + |path| <= MAX_DEPTH && KeepsPath(v, path)
    requires At(v, path) == Some(Object(inner)) && |inner| > HARD.keyClamp
    ensures CountAt(Twice(v, depth), path) == Some(Count(Shrunk(inner)))
    decreases |path|
  {
    if path == [] {
      NestedCount(inner, depth);
    } else {
      var child := Child(v, path[0]).value;
      CountBelow(child, path[1..], depth + 1, inner);
      ChildKept(v, path[0], depth);
      CountOneDown(Twice(v, depth), path[0], path[1..], Twice(child, depth + 1));
      assert [path[0]] + path[1..] == path;
    }
  }

  /** The object at `path` below entry `k`, found again with the count of the first clamp. */
  lemma NestedCountFound(source: seq<Entry>, detail: seq<Entry>, k: nat, path: seq<nat>, inner: seq<Entry>, top: nat)
    requires top == 0 && detail == ClampEntries(source, top, NORMAL)
    requires k < Min(NORMAL.keyClamp, |source|) && !IsTotalMarker(source[k].key)
    requires PlaceOf(detail, k) < HARD.keyClamp
    requires |path| < MAX_DEPTH && KeepsPath(source[k].value, path)
    requires At(source[k].value, path) == Some(Object(inner)) && |inner| > HARD.keyClamp
    ensures CountAt(Object(ReclampHarder(detail)), [PlaceOf(detail, k)] + path) == Some(Count(Shrunk(inner)))
  {
    SourceEntryKept(source, detail, k, top);
    CountBelow(source[k].value, path, top + 1, inner);
    CountOneDown(Object(ReclampHarder(detail)), PlaceOf(detail, k), path, Twice(source[k].value, top + 1));
  }

  /** Which count the caller reads at a nested object when the harder clamp is the
      stage that makes the error fit, and exactly when it is the object's own. */
  lemma NestedCountReported(e: TeachingError, source: seq<Entry>, k: nat, path: seq<nat>, inner: seq<Entry>)
    requires e.detail == Some(ClampEntries(source, 0, NORMAL))
    requires Wire(e) > ERROR_BUDGET && Wire(Reclamped(e)) <= ERROR_BUDGET
    requires k < Min(NORMAL.keyClamp, |source|) && !IsTotalMarker(source[k].key)
    requires PlaceOf(e.detail.value, k) < HARD.keyClamp
    requires |path| < MAX_DEPTH && KeepsPath(source[k].value, path)
    requires At(source[k].value, path) == Some(Object(inner)) && |inner| > HARD.keyClamp
    ensures EnforceErrorBudget(e).detail.Some?
    ensures var count := CountAt(Object(EnforceErrorBudget(e).detail.value), [PlaceOf(e.detail.value, k)] + path);
      && count == Some(Count(Shrunk(inner)))
      && (count == Some(Count(|inner|)) <==> CountStaysTrue(inner))
  {
    NestedCountFound(source, e.detail.value, k, path, inner, 0);
    CountIsTrue(Shrunk(inner), |inner|);
    DetailStages(e);
  }

  // ---- A body whose nested count is misreported ----

  function Filler(n: nat): (t: Text)
    ensures |t| == n && PlainText(t)
  {
    seq(n, _ => 'x' as int)
  }

  function Letter(i: nat): Text
    requires i < 26
  {
    ['a' as int + i]
  }

  /** Entries under the names a, b, c and so on, all with the same value. */
  function Lettered(n: nat, value: Json): (entries: seq<Entry>)
    requires n <= 26
    ensures |entries| == n
    ensures forall i :: 0 <= i < n ==> entries[i] == Entry(Letter(i), value)
  {
    if n == 0 then [] else Lettered(n - 1, value) + [Entry(Letter(n - 1), value)]
  }

  lemma LetterNotInherited(i: nat)
    requires i < 26
    ensures Letter(i) !in INHERITED
  {
    forall inherited | inherited in INHERITED
      ensures inherited != Letter(i)
    {
      assert |inherited| > 1;
    }
  }

  lemma LetterIsFree(n: nat, value: Json)
    requires n < 26
    ensures !HasKey(Lettered(n, value), Letter(n))
  {
  }

  lemma OneMoreLetter(n: nat, value: Json, maxChars: nat)
    requires n < 26 && maxChars >= 1
    ensures PutFresh(Lettered(n, value), Clamp(Letter(n), maxChars), value) == Lettered(n + 1, value)
  {
    LetterIsFree(n, value);
    LetterNotInherited(n);
  }

  /** Such names are clamped to themselves. */
  lemma {:induction false} LettersKept(entries: seq<Entry>, n: nat, value: Json, shown: Json,
                                       depth: nat, limits: Limits)
    requires n <= |entries| && n <= 26 && limits.entryChars >= 1
    requires forall i :: 0 <= i < n ==> entries[i] == Entry(Letter(i), value)
    requires shown == ClampValue(value, depth + 1, limits)
    ensures FirstEntries(entries, n, depth, limits) == Lettered(n, shown)
    decreases n
  {
    if n > 0 {
      LettersKept(entries, n - 1, value, shown, depth, limits);
      OneMoreLetter(n - 1, shown, limits.entryChars);
      LastEntry(entries, n, Letter(n - 1), shown, depth, limits);
    }
  }

  lemma LastEntry(entries: seq<Entry>, n: nat, key: Text, shown: Json, depth: nat, limits: Limits)
    requires 0 < n <= |entries| && entries[n - 1].key == key
    requires ClampValue(entries[n - 1].value, depth + 1, limits) == shown
    ensures FirstEntries(entries, n, depth, limits) ==
            PutFresh(FirstEntries(entries, n - 1, depth, limits), Clamp(key, limits.entryChars), shown)
  {
  }

  lemma ConsBehind<T>(s: seq<T>, x: T)
    requires s != []
    ensures [s[0]] + (s[1..] + [x]) == s + [x]
  {
  }

  lemma {:induction false} PutBehind(entries: seq<Entry>, key: Text, value: Json)
    requires forall i :: 0 <= i < |entries| ==> entries[i].key != key
    ensures Put(entries, key, value) == entries + [Entry(key, value)]
  {
    if entries != [] {
      PutBehind(entries[1..], key, value);
      ConsBehind(entries, Entry(key, value));
    }
  }

  /** A clamped object of more lettered entries than the limit. */
  lemma LetteredClamp(entries: seq<Entry>, value: Json, shown: Json, depth: nat, limits: Limits)
    requires limits.keyClamp < |entries| && limits.keyClamp <= 26 && limits.entryChars >= 1
    requires forall i :: 0 <= i < limits.keyClamp ==> entries[i] == Entry(Letter(i), value)
    requires shown == ClampValue(value, depth + 1, limits)
    ensures ClampEntries(entries, depth, limits) ==
            Lettered(limits.keyClamp, shown) + [Entry(TOTAL_KEYS, Count(|entries|))]
  {
    LettersKept(entries, limits.keyClamp, value, shown, depth, limits);
    assert |TOTAL_KEYS| == 9;
    PutBehind(Lettered(limits.keyClamp, shown), TOTAL_KEYS, Count(|entries|));
  }

  lemma OneKeyClamp(value: Json, shown: Json, depth: nat, limits: Limits)
    requires shown == ClampValue(value, depth + 1, limits) && limits.keyClamp >= 1 && limits.entryChars >= 1
    ensures ClampEntries(Lettered(1, value), depth, limits) == Lettered(1, shown)
  {
    LettersKept(Lettered(1, value), 1, value, shown, depth, limits);
  }

  /** A clamped object of one key with an object under it. */
  lemma OneObjectClamp(inner: seq<Entry>, value: Json, shown: Json, once: Json, depth: nat, limits: Limits)
    requires depth < MAX_DEPTH && 1 <= limits.keyClamp < |inner| && limits.keyClamp <= 26 && limits.entryChars >= 1
    requires forall i :: 0 <= i < limits.keyClamp ==> inner[i] == Entry(Letter(i), value)
    requires shown == ClampValue(value, depth + 2, limits)
    requires once == Object(Lettered(limits.keyClamp, shown) + [Entry(TOTAL_KEYS, Count(|inner|))])
    ensures ClampEntries(Lettered(1, Object(inner)), depth, limits) == Lettered(1, once)
  {
    LetteredClamp(inner, value, shown, depth + 1, limits);
    OneKeyClamp(Object(inner), once, depth, limits);
  }

  /** A body with one key, and under it an object of twenty keys with the same text. */
  function WideBody(text: Text): seq<Entry> {
    Lettered(1, Object(Lettered(20, String(text))))
  }

  /** That object with the twelve keys the usual clamp leaves it, and its count. */
  function Once(text: Text): seq<Entry> {
    Lettered(12, String(text)) + [Entry(TOTAL_KEYS, Count(20))]
  }

  /** The same with the three keys the harder clamp leaves, and the count it takes for true. */
  function Harder(text: Text): seq<Entry> {
    Lettered(3, String(Clamp(text, HARD.entryChars))) + [Entry(TOTAL_KEYS, Count(13))]
  }

  lemma WideBodyOnce(text: Text, top: nat)
    requires top == 0 && |text| == NORMAL.entryChars
    ensures ClampEntries(WideBody(text), top, NORMAL) == Lettered(1, Object(Once(text)))
  {
    OneObjectClamp(Lettered(20, String(text)), String(text), String(text), Object(Once(text)), top, NORMAL);
  }

  lemma WideBodyHarder(text: Text, top: nat)
    requires top == 0
    ensures ClampEntries(Lettered(1, Object(Once(text))), top, HARD) == Lettered(1, Object(Harder(text)))
  {
    OneObjectClamp(Once(text), String(text), String(Clamp(text, HARD.entryChars)), Object(Harder(text)), top, HARD);
  }

  lemma LetterIsNoMarker(value: Json)
    ensures var detail := Lettered(1, value); NonMarkers(detail) == detail && Markers(detail) == []
  {
    var detail := Lettered(1, value);
    assert |Letter(0)| == 1 && |Ascii("__proto__").text| == 9;
    assert |TOTAL_FAILED| > 1 && |TOTAL_MISSING| > 1 && |TOTAL_KEYS| > 1 && |TOTAL_ISSUES| > 1;
    assert detail == [Entry(Letter(0), value)] && detail[1..] == [];
  }

  lemma WideBodyReclamped(text: Text, top: nat)
    requires top == 0
    ensures ReclampHarder(Lettered(1, Object(Once(text)))) == Lettered(1, Object(Harder(text)))
  {
    LetterIsNoMarker(Object(Once(text)));
    WideBodyHarder(text, top);
  }

  // ---- Its size before and after the harder clamp ----

  predicate IsLetterOf(e: Entry, value: Json) {
    |e.key| == 1 && PlainText(e.key) && e.value == value
  }

  lemma LetterSize(entries: seq<Entry>, value: Json, indent: nat)
    requires |entries| > 1 && IsLetterOf(entries[0], value)
    ensures |Members(entries, indent)| == 7 + |Stringify(value, indent)| + indent + |Members(entries[1..], indent)|
  {
    MemberSize(entries, indent);
  }

  lemma {:induction false} LettersSize(entries: seq<Entry>, n: nat, value: Json, indent: nat, each: nat)
    requires n < |entries| && each == 7 + |Stringify(value, indent)| + indent
    requires forall i :: 0 <= i < n ==> IsLetterOf(entries[i], value)
    ensures |Members(entries, indent)| == n * each + |Members(entries[n..], indent)|
  {
    if n == 0 {
      assert entries[0..] == entries;
    } else {
      LettersSize(entries[1..], n - 1, value, indent, each);
      LetterSize(entries, value, indent);
      assert entries[1..][n - 1..] == entries[n..];
      assert n * each == (n - 1) * each + each;
    }
  }

  lemma LetteredSize(n: nat, value: Json, last: Entry, indent: nat, each: nat)
    requires n <= 26 && each == 7 + |Stringify(value, indent)| + indent
    ensures |Members(Lettered(n, value) + [last], indent)| == n * each + |Members([last], indent)|
  {
    var entries := Lettered(n, value) + [last];
    assert entries[n..] == [last];
    LettersSize(entries, n, value, indent, each);
  }

  lemma CountSize(n: nat, indent: nat)
    requires n < LENGTH_LIMIT
    ensures |Members([Entry(TOTAL_KEYS, Count(n))], indent)| <= 30 + indent
  {
    var entries := [Entry(TOTAL_KEYS, Count(n))];
    KeysIsLight(Count(n).numeral);
    MemberSize(entries, indent);
    assert entries[1..] == [];
  }

  lemma OnceIsLong(text: Text)
    requires Cost(text) == 60
    ensures |Members(Once(text), 8)| >= 924
  {
    StringSize(text, 8);
    LetteredSize(12, String(text), Entry(TOTAL_KEYS, Count(20)), 8, 77);
  }

  lemma HarderIsShort(text: Text)
    requires PlainText(text)
    ensures |Members(Harder(text), 8)| <= 149
  {
    var shown := Clamp(text, HARD.entryChars);
    PlainClampCost(text, HARD.entryChars);
    StringSize(shown, 8);
    LetteredSize(3, String(shown), Entry(TOTAL_KEYS, Count(13)), 8, 17 + Cost(shown));
    CountSize(13, 8);
  }

  lemma MembersAtLeast(entries: seq<Entry>, indent: nat)
    requires entries != []
    ensures |Members(entries, indent)| >= |Stringify(entries[0].value, indent)| + |Members(entries[1..], indent)|
  {
  }

  lemma {:induction false} MemberAtLeast(entries: seq<Entry>, i: nat, indent: nat)
    requires i < |entries|
    ensures |Members(entries, indent)| >= |Stringify(entries[i].value, indent)|
  {
    MembersAtLeast(entries, indent);
    if i > 0 {
      MemberAtLeast(entries[1..], i - 1, indent);
    }
  }

  lemma ObjectAtLeast(entries: seq<Entry>, indent: nat)
    ensures |Stringify(Object(entries), indent)| >= |Members(entries, indent + 2)|
  {
  }

  /** A detail of one key with an object in it, in both directions. */
  lemma OneKeySize(entries: seq<Entry>)
    ensures var size := |Stringify(Object(Lettered(1, Object(entries))), 4)|;
      |Members(entries, 8)| <= size <= |Members(entries, 8)| + 29
  {
    var detail := Lettered(1, Object(entries));
    ObjectAtLeast(entries, 6);
    ObjectAtLeast(detail, 4);
    MemberAtLeast(detail, 0, 6);
    ObjectSize(entries, 6);
    ObjectSize(detail, 4);
    MemberSize(detail, 6);
    assert detail[1..] == [];
  }

  function WideError(detail: seq<Entry>): TeachingError {
    Draft(DegradeCode(400, None), Filler(MESSAGE_BUDGET), PRIMER_RECIPE, [PRIMER], Some(detail))
  }

  lemma FillerCost(n: nat)
    ensures Clamp(Filler(n), n) == Filler(n) && Cost(Filler(n)) == n
  {
    PlainCost(Filler(n));
  }

  /** As it is the error is over the budget. */
  lemma WideErrorIsLong(entries: seq<Entry>)
    requires |Members(entries, 8)| >= 924
    ensures Wire(WideError(Lettered(1, Object(entries)))) > ERROR_BUDGET
  {
    var e := WideError(Lettered(1, Object(entries)));
    var bare := e.(message := []);
    FillerCost(MESSAGE_BUDGET);
    WireSplits(e);
    RefusalExactly(Fields(bare));
    OneKeySize(entries);
    MemberAtLeast(Fields(bare), 4, 4);
  }

  /** With the harder clamp it fits. */
  lemma WideErrorFits(entries: seq<Entry>)
    requires |Members(entries, 8)| <= 149
    ensures Wire(WideError(Lettered(1, Object(entries)))) <= ERROR_BUDGET
  {
    var e := WideError(Lettered(1, Object(entries)));
    var bare := e.(message := []);
    FillerCost(MESSAGE_BUDGET);
    WireSplits(e);
    StatusCode(400);
    ShortTextCost(e.code, 8);
    PrimerCosts();
    OneKeySize(entries);
    DetailSize(Lettered(1, Object(entries)));
    FieldsSize(bare);
    RefusalAtMost(Fields(bare));
  }

  lemma DetailSize(detail: seq<Entry>)
    ensures |Members(DetailField(Some(detail)), 4)| <= 16 + |Stringify(Object(detail), 4)|
  {
    PlainLiteral("detail");
    MembersStep(DetailField(Some(detail)), Ascii("detail").text, Object(detail), 4);
  }

  lemma WideErrorReclamped(detail: seq<Entry>, harder: seq<Entry>)
    requires ReclampHarder(detail) == harder
    requires Wire(WideError(detail)) > ERROR_BUDGET && Wire(WideError(harder)) <= ERROR_BUDGET
    ensures EnforceErrorBudget(WideError(detail)) == WideError(harder)
  {
    assert Reclamped(WideError(detail)) == WideError(harder);
  }

  lemma WideBodyDegraded(body: seq<Entry>, detail: seq<Entry>)
    requires ClampEntries(body, 0, NORMAL) == detail && detail != []
    ensures GenericDegrade(400, Filler(MESSAGE_BUDGET), Some(Object(body)), None) ==
            EnforceErrorBudget(WideError(detail))
  {
  }

  lemma WideOutcome(body: seq<Entry>, once: seq<Entry>, harder: seq<Entry>)
    requires ClampEntries(body, 0, NORMAL) == Lettered(1, Object(once))
    requires ReclampHarder(Lettered(1, Object(once))) == Lettered(1, Object(harder))
    requires |Members(once, 8)| >= 924 && |Members(harder, 8)| <= 149
    ensures GenericDegrade(400, Filler(MESSAGE_BUDGET), Some(Object(body)), None) ==
            WideError(Lettered(1, Object(harder)))
  {
    WideErrorIsLong(once);
    WideErrorFits(harder);
    WideErrorReclamped(Lettered(1, Object(once)), Lettered(1, Object(harder)));
    WideBodyDegraded(body, Lettered(1, Object(once)));
  }

  lemma WideBodyOutcome(text: Text)
    requires |text| == NORMAL.entryChars && PlainText(text)
    ensures GenericDegrade(400, Filler(MESSAGE_BUDGET), Some(Object(WideBody(text))), None) ==
            WideError(Lettered(1, Object(Harder(text))))
  {
    WideBodyOnce(text, 0);
    WideBodyReclamped(text, 0);
    PlainCost(text);
    OnceIsLong(text);
    HarderIsShort(text);
    WideOutcome(WideBody(text), Once(text), Harder(text));
  }

  lemma UnderTheKey(value: Json)
    ensures At(Object(Lettered(1, value)), [0]) == Some(value)
  {
    var path: seq<nat> := [0];
    assert path[1..] == [];
  }

  lemma HarderCount(text: Text)
    ensures OwnCount(Object(Harder(text))) == Some(Count(13))
  {
    var marker := Entry(TOTAL_KEYS, Count(13));
    assert |TOTAL_KEYS| == 9;
    assert Harder(text)[3] == marker;
    GetMember(Harder(text), marker);
  }

  /** A 400 whose body has twenty keys under one, each with a text of sixty plain
      characters: the caller is told of thirteen. */
  lemma NestedCountMisreported(text: Text)
    requires |text| == NORMAL.entryChars && PlainText(text)
    ensures At(Object(WideBody(text)), [0]) == Some(Object(Lettered(20, String(text))))
    ensures var r := GenericDegrade(400, Filler(MESSAGE_BUDGET), Some(Object(WideBody(text))), None);
      r.detail.Some? && CountAt(Object(r.detail.value), [0]) == Some(Count(13)) != Some(Count(20))
  {
    UnderTheKey(Object(Lettered(20, String(text))));
    WideBodyOutcome(text);
    UnderTheKey(Object(Harder(text)));
    HarderCount(text);
    CountIsTrue(13, 20);
  }
}
