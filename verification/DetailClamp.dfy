/**
 Clamping of untrusted error details: strings by code points, arrays by items,
 objects by keys, without ever writing one property over another.
 */
module DetailClamp {
  import opened Basics
  import opened Utf16
  import opened JsonText

  datatype Limits = Limits(arrayClamp: nat, keyClamp: nat, entryChars: nat)

  const NORMAL := Limits(5, 12, 60)
  const HARD := Limits(2, 3, 20)
  const MAX_DEPTH: nat := 3
  const TRUNCATION_MARKER: Text := [DOT, DOT, DOT]
  const DOTS: seq<Text> := [[DOT], [DOT], [DOT]]
  const TOO_DEEP: Text := Ascii("[detail nested too deep, truncated]").text
  const TOTAL_KEYS: Text := Ascii("totalKeys").text

  // ---- Strings ----

  function Clamp(value: Text, maxChars: nat): Text {
    if |value| <= maxChars then value
    else
      var cps := CodePoints(value);
      if |cps| <= maxChars then value
      else Join(cps[..Kept(cps, maxChars)]) + TRUNCATION_MARKER
  }

  /** How many code points a truncating clamp keeps in front of the marker. */
  function Kept(cps: seq<Text>, maxChars: nat): (k: nat)
    requires maxChars < |cps|
    ensures k <= |cps|
  {
    Max(0, maxChars - 3)
  }

  /** A clamp cuts between code points: what it keeps is read back as the same
      code points, so no surrogate pair is ever split. */
  lemma ClampCodePoints(value: Text, maxChars: nat)
    ensures var cps := CodePoints(value);
      CodePoints(Clamp(value, maxChars)) ==
      if |cps| <= maxChars then cps else cps[..Kept(cps, maxChars)] + DOTS
  {
    var cps := CodePoints(value);
    if maxChars < |cps| {
      CodePointsCanonical(value);
      CutAndMarked(cps, Kept(cps, maxChars));
    }
  }

  lemma CutAndMarked(cps: seq<Text>, k: nat)
    requires Canonical(cps) && k <= |cps|
    ensures CodePoints(Join(cps[..k]) + TRUNCATION_MARKER) == cps[..k] + DOTS
  {
    assert Canonical(cps[..k] + DOTS);
    CodePointsOfJoin(cps[..k] + DOTS);
    JoinAppend(cps[..k], DOTS);
    JoinDots();
  }

  lemma JoinDots()
    ensures Join(DOTS) == TRUNCATION_MARKER
  {
    var one: Text := [DOT];
    assert DOTS[1..] == [one, one];
    assert DOTS[1..][1..] == [one];
    assert Join(DOTS[1..][1..]) == one;
  }

  lemma ClampKeepsWellFormed(value: Text, maxChars: nat)
    ensures |CodePoints(Clamp(value, maxChars))| <= Max(maxChars, 3)
    ensures WellFormed(value) ==> WellFormed(Clamp(value, maxChars))
  {
    ClampCodePoints(value, maxChars);
  }

  // ---- Objects ----

  /** The names `in` finds on every object through `Object.prototype`. */
  const INHERITED: set<Text> := {
    Ascii("constructor").text, Ascii("hasOwnProperty").text, Ascii("isPrototypeOf").text,
    Ascii("propertyIsEnumerable").text,
    Ascii("toLocaleString").text, Ascii("toString").text, Ascii("valueOf").text, Ascii("__proto__").text,
    Ascii("__defineGetter__").text,
    Ascii("__defineSetter__").text, Ascii("__lookupGetter__").text, Ascii("__lookupSetter__").text
  }

  /** Everything `name in out` answers true for. */
  ghost function TakenNames(entries: seq<Entry>): set<Text> {
    (set e | e in entries :: e.key) + INHERITED
  }

  /** The operator `key in out`. */
  predicate Taken(entries: seq<Entry>, key: Text) {
    HasKey(entries, key) || key in INHERITED
  }

  lemma TakenIsNamed(entries: seq<Entry>, key: Text)
    ensures Taken(entries, key) <==> key in TakenNames(entries)
  {
  }

  function Suffixed(key: Text, suffix: nat): Text {
    key + [TILDE] + Digits(suffix)
  }

  ghost function SuffixNames(key: Text, bound: nat): (names: set<Text>)
    requires bound >= 2
    ensures forall name :: name in names ==> exists j :: 2 <= j < bound && name == Suffixed(key, j)
    ensures |names| == bound - 2
  {
    if bound == 2 then {}
    else
      var fewer := SuffixNames(key, bound - 1);
      assert Suffixed(key, bound - 1) !in fewer by {
        if Suffixed(key, bound - 1) in fewer {
          var j :| 2 <= j < bound - 1 && Suffixed(key, bound - 1) == Suffixed(key, j);
          SuffixInjective(key, j, bound - 1);
        }
      }
      fewer + {Suffixed(key, bound - 1)}
  }

  lemma SuffixInjective(key: Text, a: nat, b: nat)
    requires Suffixed(key, a) == Suffixed(key, b)
    ensures a == b
  {
    assert Suffixed(key, a)[|key| + 1..] == Digits(a);
    assert Suffixed(key, b)[|key| + 1..] == Digits(b);
    DigitsInjective(a, b);
  }

  lemma SubsetSize<T>(a: set<T>, b: set<T>)
    requires a <= b
    ensures |a| <= |b|
  {
    assert b == a + (b - a);
  }

  /** Every suffix from 2 up to the bound gives a name already taken. */
  predicate AllTaken(entries: seq<Entry>, key: Text, bound: nat) {
    bound > 2 ==> Taken(entries, Suffixed(key, bound - 1)) && AllTaken(entries, key, bound - 1)
  }

  lemma {:induction false} AllTakenAt(entries: seq<Entry>, key: Text, bound: nat, j: nat)
    requires AllTaken(entries, key, bound) && 2 <= j < bound
    ensures Taken(entries, Suffixed(key, j))
  {
    if j < bound - 1 {
      AllTakenAt(entries, key, bound - 1, j);
    }
  }

  /** Pigeonhole: the suffixes tried so far are all different names, so at most
      as many of them as there are names can be taken. */
  lemma SuffixesRunOut(entries: seq<Entry>, key: Text, bound: nat)
    requires bound >= 2
    requires AllTaken(entries, key, bound)
    ensures bound - 2 <= |TakenNames(entries)|
  {
    SuffixesAreTaken(entries, key, bound);
    SubsetSize(SuffixNames(key, bound), TakenNames(entries));
  }

  lemma {:induction false} SuffixesAreTaken(entries: seq<Entry>, key: Text, bound: nat)
    requires bound >= 2 && AllTaken(entries, key, bound)
    ensures SuffixNames(key, bound) <= TakenNames(entries)
  {
    if bound > 2 {
      SuffixesAreTaken(entries, key, bound - 1);
      TakenIsNamed(entries, Suffixed(key, bound - 1));
    }
  }

  /** The least suffix from `from` on that gives a free name. */
  function FirstFree(entries: seq<Entry>, key: Text, from: nat): (suffix: nat)
    requires from >= 2
    requires AllTaken(entries, key, from)
    ensures suffix >= from && !Taken(entries, Suffixed(key, suffix))
    ensures AllTaken(entries, key, suffix)
    decreases |TakenNames(entries)| + 3 - from
  {
    if !Taken(entries, Suffixed(key, from)) then from
    else
      SuffixesRunOut(entries, key, from + 1);
      FirstFree(entries, key, from + 1)
  }

  /** The name a property gets: its own, or the least free `key~n`. */
  function FreshName(entries: seq<Entry>, key: Text): (name: Text)
    ensures !Taken(entries, name)
    ensures name == key || exists n: nat :: n >= 2 && name == Suffixed(key, n)
  {
    if !Taken(entries, key) then key else Suffixed(key, FirstFree(entries, key, 2))
  }

  function PutFresh(entries: seq<Entry>, key: Text, value: Json): seq<Entry> {
    entries + [Entry(FreshName(entries, key), value)]
  }

  /** A plain property assignment `out[key] = value`. */
  function Put(entries: seq<Entry>, key: Text, value: Json): (r: seq<Entry>)
    ensures Get(r, key) == Some(value)
    ensures forall k :: k != key ==> Get(r, k) == Get(entries, k)
    ensures |r| == if HasKey(entries, key) then |entries| else |entries| + 1
    ensures forall i :: 0 <= i < |entries| && entries[i].key != key ==> r[i] == entries[i]
    ensures forall e :: e in r ==> e in entries || e == Entry(key, value)
  {
    if entries == [] then [Entry(key, value)]
    else if entries[0].key == key then [Entry(key, value)] + entries[1..]
    else
      var rest := Put(entries[1..], key, value);
      assert HasKey(entries, key) ==> HasKey(entries[1..], key) by {
        if HasKey(entries, key) {
          var i :| 0 <= i < |entries| && entries[i].key == key;
          assert entries[1..][i - 1] == entries[i];
        }
      }
      [entries[0]] + rest
  }

  /** The loop that counts up to the first suffix not taken. */
  method FreeSuffix(entries: seq<Entry>, key: Text) returns (suffix: nat)
    ensures suffix >= 2 && !Taken(entries, Suffixed(key, suffix))
    ensures AllTaken(entries, key, suffix)
  {
    suffix := 2;
    ghost var names := |TakenNames(entries)|;
    while Taken(entries, Suffixed(key, suffix))
      invariant suffix >= 2
      invariant AllTaken(entries, key, suffix)
      decreases names + 3 - suffix
    {
      SuffixesRunOut(entries, key, suffix + 1);
      suffix := suffix + 1;
    }
  }

  /** An object literal that is being filled. */
  class Out {
    var entries: seq<Entry>

    constructor ()
      ensures entries == []
    {
      entries := [];
    }

    method SetClampedKey(key: Text, value: Json)
      modifies this
      ensures entries == PutFresh(old(entries), key, value)
    {
      if !Taken(entries, key) {
        entries := entries + [Entry(key, value)];
        return;
      }
      var suffix := FreeSuffix(entries, key);
      FreshIsLeast(entries, key, suffix);
      entries := entries + [Entry(Suffixed(key, suffix), value)];
    }

    method Assign(key: Text, value: Json)
      modifies this
      ensures entries == Put(old(entries), key, value)
    {
      entries := Put(entries, key, value);
    }
  }

  lemma FreshIsLeast(entries: seq<Entry>, key: Text, suffix: nat)
    requires suffix >= 2 && !Taken(entries, Suffixed(key, suffix))
    requires AllTaken(entries, key, suffix)
    ensures FirstFree(entries, key, 2) == suffix
  {
    var least := FirstFree(entries, key, 2);
    if least < suffix { AllTakenAt(entries, key, suffix, least); }
    if suffix < least { AllTakenAt(entries, key, least, suffix); }
  }

  // ---- Values ----

  /** What a clamped detail value is, given at nesting `depth`. */
  function ClampValue(v: Json, depth: nat, limits: Limits): Json
    decreases v, 0
  {
    if depth > MAX_DEPTH then String(TOO_DEEP)
    else
      match v
      case String(s) => String(Clamp(s, limits.entryChars))
      case Array(items) =>
        Array(seq(Min(limits.arrayClamp, |items|), i requires 0 <= i < Min(limits.arrayClamp, |items|) =>
          ClampValue(items[i], depth + 1, limits)))
      case Object(entries) => Object(ClampEntries(entries, depth, limits))
      case _ => v
  }

  function ClampEntries(entries: seq<Entry>, depth: nat, limits: Limits): seq<Entry>
    decreases entries, |entries| + 1
  {
    var kept := FirstEntries(entries, Min(limits.keyClamp, |entries|), depth, limits);
    if |entries| > limits.keyClamp then Put(kept, TOTAL_KEYS, Count(|entries|)) else kept
  }

  function FirstEntries(entries: seq<Entry>, n: nat, depth: nat, limits: Limits): seq<Entry>
    requires n <= |entries|
    decreases entries, n
  {
    if n == 0 then []
    else
      var e := entries[n - 1];
      PutFresh(FirstEntries(entries, n - 1, depth, limits),
               Clamp(e.key, limits.entryChars), ClampValue(e.value, depth + 1, limits))
  }

  method ClampDetailValue(v: Json, depth: nat, limits: Limits) returns (r: Json)
    ensures r == ClampValue(v, depth, limits)
    decreases v, 1
  {
    if depth > MAX_DEPTH {
      return String(TOO_DEEP);
    }
    match v
    case String(s) =>
      r := String(Clamp(s, limits.entryChars));
    case Array(items) =>
      var mapped := [];
      for i := 0 to Min(limits.arrayClamp, |items|)
        invariant |mapped| == i
        invariant forall j :: 0 <= j < i ==> mapped[j] == ClampValue(items[j], depth + 1, limits)
      {
        var x := ClampDetailValue(items[i], depth + 1, limits);
        mapped := mapped + [x];
      }
      r := Array(mapped);
    case Object(entries) =>
      var out := ClampObject(entries, depth, limits);
      r := Object(out);
    case _ =>
      r := v;
  }

  method ClampObject(entries: seq<Entry>, depth: nat, limits: Limits) returns (r: seq<Entry>)
    ensures r == ClampEntries(entries, depth, limits)
    decreases entries, 0
  {
    var out := new Out();
    for i := 0 to Min(limits.keyClamp, |entries|)
      invariant out.entries == FirstEntries(entries, i, depth, limits)
    {
      var x := ClampDetailValue(entries[i].value, depth + 1, limits);
      out.SetClampedKey(Clamp(entries[i].key, limits.entryChars), x);
    }
    if |entries| > limits.keyClamp {
      out.Assign(TOTAL_KEYS, Count(|entries|));
    }
    r := out.entries;
  }

  // ---- What a clamp guarantees ----

  /** Containers nest at most `levels` deep and every part keeps its own limit. */
  predicate WithinLimits(v: Json, levels: nat, limits: Limits)
    decreases v
  {
    match v
    case String(s) => s == TOO_DEEP || |CodePoints(s)| <= Max(limits.entryChars, 3)
    case Array(items) =>
      levels > 0 && |items| <= limits.arrayClamp && forall x :: x in items ==> WithinLimits(x, levels - 1, limits)
    case Object(entries) =>
      && levels > 0 && |entries| <= limits.keyClamp + 1 && DistinctKeys(entries)
      && forall e :: e in entries ==> WithinLimits(e.value, levels - 1, limits)
    case _ => true
  }

  lemma {:induction false} ClampBounds(v: Json, depth: nat, limits: Limits)
    requires depth <= MAX_DEPTH + 1
    ensures WithinLimits(ClampValue(v, depth, limits), MAX_DEPTH + 1 - depth, limits)
    decreases v
  {
    if depth <= MAX_DEPTH {
      match v
      case String(s) => ClampKeepsWellFormed(s, limits.entryChars);
      case Array(items) =>
        forall i | 0 <= i < Min(limits.arrayClamp, |items|)
          ensures WithinLimits(ClampValue(items[i], depth + 1, limits), MAX_DEPTH - depth, limits)
        {
          ClampBounds(items[i], depth + 1, limits);
        }
      case Object(entries) =>
        forall i | 0 <= i < |entries|
          ensures WithinLimits(ClampValue(entries[i].value, depth + 1, limits), MAX_DEPTH - depth, limits)
        {
          ClampBounds(entries[i].value, depth + 1, limits);
        }
        EntriesBounded(entries, depth, limits);
      case _ =>
    }
  }

  lemma EntriesBounded(entries: seq<Entry>, depth: nat, limits: Limits)
    requires depth <= MAX_DEPTH
    requires forall i :: 0 <= i < |entries| ==>
      WithinLimits(ClampValue(entries[i].value, depth + 1, limits), MAX_DEPTH - depth, limits)
    ensures WithinLimits(Object(ClampEntries(entries, depth, limits)), MAX_DEPTH + 1 - depth, limits)
  {
    var n := Min(limits.keyClamp, |entries|);
    var kept := FirstEntries(entries, n, depth, limits);
    var r := ClampEntries(entries, depth, limits);
    NothingOverwritten(entries, n, depth, limits);
    PutKeepsDistinct(kept, TOTAL_KEYS, Count(|entries|));
    forall e | e in r
      ensures WithinLimits(e.value, MAX_DEPTH - depth, limits)
    {
      if e in kept {
        var i :| 0 <= i < n && kept[i] == e;
        assert IsClampOf(kept, entries, i, depth, limits);
      }
    }
  }

  lemma {:induction false} PutKeepsDistinct(entries: seq<Entry>, key: Text, value: Json)
    requires DistinctKeys(entries)
    ensures DistinctKeys(Put(entries, key, value))
  {
    if entries != [] && entries[0].key != key {
      PutKeepsDistinct(entries[1..], key, value);
      var rest := Put(entries[1..], key, value);
      forall j | 0 <= j < |rest|
        ensures rest[j].key != entries[0].key
      {
        assert rest[j] in rest;
      }
      ConsDistinct(entries[0], rest);
    }
  }

  lemma ConsDistinct(e: Entry, rest: seq<Entry>)
    requires DistinctKeys(rest) && forall j :: 0 <= j < |rest| ==> rest[j].key != e.key
    ensures DistinctKeys([e] + rest)
  {
  }

  /** Property `i` of a clamped object is entry `i` of the source, clamped, under
      its clamped name or the first free `~n` variant of it. */
  predicate IsClampOf(kept: seq<Entry>, entries: seq<Entry>, i: nat, depth: nat, limits: Limits)
    requires i < |kept| && i < |entries|
  {
    && kept[i].value == ClampValue(entries[i].value, depth + 1, limits)
    && kept[i].key == FreshName(kept[..i], Clamp(entries[i].key, limits.entryChars))
  }

  lemma PutFreshKeepsDistinct(entries: seq<Entry>, key: Text, value: Json)
    requires DistinctKeys(entries)
    ensures DistinctKeys(PutFresh(entries, key, value))
  {
    forall i | 0 <= i < |entries|
      ensures entries[i].key != FreshName(entries, key)
    {
      assert HasKey(entries, entries[i].key);
    }
  }

  /** Exactly one property per source entry, in order, none written over another. */
  lemma {:induction false} NothingOverwritten(entries: seq<Entry>, n: nat, depth: nat, limits: Limits)
    requires n <= |entries|
    ensures |FirstEntries(entries, n, depth, limits)| == n
    ensures DistinctKeys(FirstEntries(entries, n, depth, limits))
    ensures forall i :: 0 <= i < n ==> IsClampOf(FirstEntries(entries, n, depth, limits), entries, i, depth, limits)
  {
    if n > 0 {
      NothingOverwritten(entries, n - 1, depth, limits);
      OneMoreEntry(entries, n, depth, limits, FirstEntries(entries, n - 1, depth, limits));
    }
  }

  lemma OneMoreEntry(entries: seq<Entry>, n: nat, depth: nat, limits: Limits, before: seq<Entry>)
    requires 0 < n <= |entries| && |before| == n - 1 && DistinctKeys(before)
    requires forall i :: 0 <= i < n - 1 ==> IsClampOf(before, entries, i, depth, limits)
    ensures var kept := PutFresh(before, Clamp(entries[n - 1].key, limits.entryChars),
                                 ClampValue(entries[n - 1].value, depth + 1, limits));
      DistinctKeys(kept) && forall i :: 0 <= i < n ==> IsClampOf(kept, entries, i, depth, limits)
  {
    var key, value := Clamp(entries[n - 1].key, limits.entryChars), ClampValue(entries[n - 1].value, depth + 1, limits);
    PutFreshKeepsDistinct(before, key, value);
    var kept := PutFresh(before, key, value);
    assert kept[..n - 1] == before;
    forall i | 0 <= i < n - 1
      ensures IsClampOf(kept, entries, i, depth, limits)
    {
      assert kept[..i] == before[..i];
      assert IsClampOf(before, entries, i, depth, limits);
    }
  }

  /** A clamped object has one property per kept entry plus the count marker,
      unless a kept entry is itself named totalKeys: then, and only then, the
      marker replaces that entry's value. */
  lemma EntriesSurvive(entries: seq<Entry>, depth: nat, limits: Limits)
    requires limits.entryChars >= |TOTAL_KEYS|
    ensures var n := Min(limits.keyClamp, |entries|);
      var kept := FirstEntries(entries, n, depth, limits);
      var r := ClampEntries(entries, depth, limits);
      && HasKey(kept, TOTAL_KEYS) == (exists i :: 0 <= i < n && entries[i].key == TOTAL_KEYS)
      && (|entries| <= limits.keyClamp ==> r == kept)
      && (|entries| > limits.keyClamp ==>
            && |r| == (if HasKey(kept, TOTAL_KEYS) then n else n + 1)
            && Get(r, TOTAL_KEYS) == Some(Count(|entries|))
            && forall i :: 0 <= i < n && kept[i].key != TOTAL_KEYS ==> r[i] == kept[i])
  {
    var n := Min(limits.keyClamp, |entries|);
    var kept := FirstEntries(entries, n, depth, limits);
    NothingOverwritten(entries, n, depth, limits);
    assert forall i :: 0 <= i < n ==> IsClampOf(kept, entries, i, depth, limits);
    if HasKey(kept, TOTAL_KEYS) {
      var i :| 0 <= i < n && kept[i].key == TOTAL_KEYS;
      NamedTotalKeys(kept, entries, i, depth, limits);
    }
    if exists i :: 0 <= i < n && entries[i].key == TOTAL_KEYS {
      var i :| 0 <= i < n && entries[i].key == TOTAL_KEYS;
      TotalKeysKept(kept, entries, i, depth, limits);
    }
  }

  lemma NamedTotalKeys(kept: seq<Entry>, entries: seq<Entry>, i: nat, depth: nat, limits: Limits)
    requires i < |kept| && i < |entries| && IsClampOf(kept, entries, i, depth, limits)
    requires kept[i].key == TOTAL_KEYS
    ensures entries[i].key == TOTAL_KEYS
  {
    NameIsTotalKeys(kept[..i], entries[i].key, limits.entryChars);
  }

  lemma TotalKeysKept(kept: seq<Entry>, entries: seq<Entry>, i: nat, depth: nat, limits: Limits)
    requires i < |kept| && i < |entries| && IsClampOf(kept, entries, i, depth, limits)
    requires entries[i].key == TOTAL_KEYS && limits.entryChars >= |TOTAL_KEYS|
    ensures HasKey(kept, TOTAL_KEYS)
  {
    if HasKey(kept[..i], TOTAL_KEYS) {
      var j :| 0 <= j < i && kept[..i][j].key == TOTAL_KEYS;
      assert kept[j].key == TOTAL_KEYS;
    } else {
      NotInherited();
      assert kept[i].key == TOTAL_KEYS;
    }
  }

  lemma NotInherited()
    ensures TOTAL_KEYS !in INHERITED
  {
    forall name | name in INHERITED
      ensures name != TOTAL_KEYS
    {
      assert TOTAL_KEYS[0] == 't' as int && TOTAL_KEYS[2] == 't' as int;
    }
  }

  /** Neither truncation nor disambiguation turns another name into totalKeys. */
  lemma NameIsTotalKeys(entries: seq<Entry>, key: Text, maxChars: nat)
    requires FreshName(entries, Clamp(key, maxChars)) == TOTAL_KEYS
    ensures key == TOTAL_KEYS
  {
    var name := Clamp(key, maxChars);
    assert Last(TOTAL_KEYS) == 's' as int;
    ClampEnd(key, maxChars);
    FreshEnd(entries, name);
  }

  function Last(t: Text): CodeUnit
    requires t != []
  {
    t[|t| - 1]
  }

  lemma ClampEnd(key: Text, maxChars: nat)
    ensures var r := Clamp(key, maxChars);
      r == key || (r != [] && Last(r) == DOT)
  {
  }

  lemma FreshEnd(entries: seq<Entry>, key: Text)
    ensures var name := FreshName(entries, key);
      name == key || (name != [] && 0x30 <= Last(name) <= 0x39)
  {
    var name := FreshName(entries, key);
    if name != key {
      var n: nat :| n >= 2 && name == Suffixed(key, n);
      assert Last(name) == Last(Digits(n));
    }
  }
}
