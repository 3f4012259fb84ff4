/**
 What the response budget guarantees about every error: its size, the parts that
 degrading leaves alone, and the true counts on top of its detail.
 */
module ErrorGuarantees {
  import opened Basics
  import opened Utf16
  import opened JsonText
  import opened DetailClamp
  import opened ErrorBudget

  // ---- The budget ----

  /** No stage fits, and neither would an empty message. */
  predicate Overflows(e: TeachingError) {
    && Wire(e) > ERROR_BUDGET
    && (e.detail.Some? ==> Wire(Reclamped(e)) > ERROR_BUDGET)
    && Floor(e) > ERROR_BUDGET
  }

  lemma TrimmedFits(e: TeachingError)
    ensures Wire(Trimmed(e)) <= ERROR_BUDGET <==> Wire(e.(message := [])) <= ERROR_BUDGET
    ensures Wire(e.(message := [])) > ERROR_BUDGET ==> Trimmed(e).message == []
  {
    WireSplits(Trimmed(e));
    assert Trimmed(e).(message := []) == e.(message := []);
  }

  /** Every error fits the budget with its own code, or is exactly the floor of
      itself under the overflow code: nothing is in between. */
  lemma BudgetHolds(e: TeachingError)
    ensures var r := EnforceErrorBudget(e);
      if Overflows(e) then r == Minimized(e).(message := [], code := OVERFLOW_CODE)
      else Wire(r) <= ERROR_BUDGET && r.code == e.code
  {
    TrimmedFits(Minimized(e));
    WireSplits(Minimized(e));
  }

  /** Without a detail the overflow code appears exactly when the fixed part of
      the error is over budget on its own. */
  lemma OverflowWithoutDetail(e: TeachingError)
    requires e.detail.None?
    ensures Overflows(e) <==> Wire(e.(message := [])) > ERROR_BUDGET
  {
    WireSplits(e);
  }

  /** The binary search never meets its bad case on the errors it is called for. */
  lemma SearchIsExactHere(e: TeachingError)
    requires Wire(e) > ERROR_BUDGET
    ensures !SearchMisses(e)
  {
    assert e.(message := e.message) == e;
  }

  /** The stages with the search in place: it computes what they are specified to. */
  method DegradeInStages(e: TeachingError) returns (r: TeachingError)
    ensures r == EnforceErrorBudget(e)
  {
    if Wire(e) <= ERROR_BUDGET {
      return e;
    }
    if e.detail.Some? && Wire(Reclamped(e)) <= ERROR_BUDGET {
      return Reclamped(e);
    }
    var minimized := Minimized(e);
    if Wire(minimized) <= ERROR_BUDGET {
      return minimized;
    }
    SearchIsExactHere(minimized);
    r := TrimMessageForBudget(minimized);
    if Wire(r) > ERROR_BUDGET {
      r := r.(code := OVERFLOW_CODE);
    }
  }

  // ---- What degrading leaves alone ----

  /** Recipe and verbs stay whole, a detail is neither invented nor dropped
      altogether, and the message is a clamp of what it was, or empty. */
  lemma PartsKept(e: TeachingError)
    ensures var r := EnforceErrorBudget(e);
      && r.recipe == e.recipe && r.allowedNext == e.allowedNext
      && r.detail.Some? == e.detail.Some?
      && (r.message == e.message || r.message == [] || exists k: nat :: r.message == Clamp(e.message, k))
      && (WellFormed(e.message) ==> WellFormed(r.message))
  {
    var m := Minimized(e);
    var best := LongestFit(m, |CodePoints(m.message)|);
    if best >= 0 {
      ClampKeepsWellFormed(e.message, best);
    }
  }

  /** A shortened message is the longest of all its clamps that fits. */
  lemma MessageIsLongest(e: TeachingError, k: nat)
    requires !Overflows(e) && EnforceErrorBudget(e).message != e.message
    requires k <= |CodePoints(e.message)| && FitsAt(Minimized(e), k)
    ensures Cost(Clamp(e.message, k)) <= Cost(EnforceErrorBudget(e).message)
  {
    var m := Minimized(e);
    var n := |CodePoints(e.message)|;
    var best := LongestFit(m, n);
    assert k <= best;
    SearchIsExactHere(m);
    if best == n {
      FullClamp(e.message);
    } else {
      ClampCostMonotone(e.message, k, best);
    }
  }

  // ---- The true counts on top of a detail ----

  lemma {:induction false} GetMember(entries: seq<Entry>, e: Entry)
    requires DistinctKeys(entries) && e in entries
    ensures Get(entries, e.key) == Some(e.value)
  {
    if entries[0] != e {
      assert e in entries[1..];
      GetMember(entries[1..], e);
      var i :| 0 <= i < |entries| && entries[i] == e;
      assert entries[0].key != entries[i].key;
    }
  }

  lemma {:induction false} GetAppend(a: seq<Entry>, b: seq<Entry>, key: Text)
    ensures Get(a + b, key) == if HasKey(a, key) then Get(a, key) else Get(b, key)
  {
    if a == [] {
      assert a + b == b;
    } else {
      assert (a + b)[1..] == a[1..] + b;
      GetAppend(a[1..], b, key);
      assert Get(a, key).Some? <==> HasKey(a, key);
    }
  }

  lemma {:induction false} MarkersDistinct(detail: seq<Entry>)
    requires DistinctKeys(detail)
    ensures DistinctKeys(Markers(detail))
  {
    if detail != [] {
      MarkersDistinct(detail[1..]);
      var rest := Markers(detail[1..]);
      forall i | 0 <= i < |rest|
        ensures rest[i].key != detail[0].key
      {
        assert rest[i] in detail[1..];
      }
    }
  }

  lemma {:induction false} GetSpread(base: seq<Entry>, over: seq<Entry>, key: Text)
    requires DistinctKeys(over)
    ensures Get(Spread(base, over), key) == if HasKey(over, key) then Get(over, key) else Get(base, key)
    decreases over
  {
    if over != [] {
      var put := Put(base, over[0].key, over[0].value);
      GetSpread(put, over[1..], key);
      assert Get(over, key).Some? <==> HasKey(over, key);
      assert Get(over[1..], key).Some? <==> HasKey(over[1..], key);
      if over[0].key == key {
        assert !HasKey(over[1..], key);
      }
    }
  }

  /** The harder clamp puts the markers among the detail's own entries back. */
  lemma ReclampKeepsMarker(detail: seq<Entry>, key: Text, n: Text)
    requires DistinctKeys(detail) && IsTotalMarker(key) && Get(detail, key) == Some(Number(n))
    ensures Get(ReclampHarder(detail), key) == Some(Number(n))
  {
    var e := Entry(key, Number(n));
    assert e in Markers(detail);
    MarkersDistinct(detail);
    GetMember(Markers(detail), e);
    GetSpread(ClampEntries(NonMarkers(detail), 0, HARD), Markers(detail), key);
    assert HasKey(Markers(detail), key);
  }

  lemma MarkerNames()
    ensures TOTAL_FAILED != TOTAL_MISSING && TOTAL_FAILED != TOTAL_ISSUES && TOTAL_FAILED != TOTAL_KEYS
    ensures TOTAL_MISSING != TOTAL_ISSUES && TOTAL_MISSING != TOTAL_KEYS && TOTAL_ISSUES != TOTAL_KEYS
  {
    assert TOTAL_FAILED[5] == 'F' as int && TOTAL_ISSUES[5] == 'I' as int;
  }

  lemma GetPastCarried(detail: seq<Entry>, carried: Text, rest: seq<Entry>, key: Text)
    ensures Get(Carried(detail, carried) + rest, key) ==
      if key == carried && Carried(detail, carried) != [] then Get(detail, key) else Get(rest, key)
  {
    GetAppend(Carried(detail, carried), rest, key);
  }

  lemma SummaryKeepsMarker(detail: seq<Entry>, key: Text, n: Text)
    requires IsTotalMarker(key) && Get(detail, key) == Some(Number(n))
    ensures Get(Summary(detail), key) == Some(Number(n))
  {
    MarkerNames();
    var keys := if Carried(detail, TOTAL_KEYS) != [] then Carried(detail, TOTAL_KEYS)
        else [Entry(TOTAL_KEYS, Count(|detail|))];
    var issues := Carried(detail, TOTAL_ISSUES) + keys;
    var missing := Carried(detail, TOTAL_MISSING) + issues;
    assert Carried(detail, key) == [Entry(key, Number(n))];
    if key == TOTAL_KEYS {
      assert keys == Carried(detail, key);
      GetPastCarried(detail, key, [], key);
      assert keys + [] == keys;
    }
    GetPastCarried(detail, TOTAL_ISSUES, keys, key);
    GetPastCarried(detail, TOTAL_MISSING, issues, key);
    GetPastCarried(detail, TOTAL_FAILED, missing, key);
    assert !HasKey([OMITTED, REASON], key);
    GetAppend([OMITTED, REASON], Carried(detail, TOTAL_FAILED) + missing, key);
  }

  lemma DetailStages(e: TeachingError)
    ensures EnforceErrorBudget(e).detail ==
      if Wire(e) <= ERROR_BUDGET then e.detail
      else if e.detail.Some? && Wire(Reclamped(e)) <= ERROR_BUDGET then Reclamped(e).detail
      else Minimized(e).detail
  {
  }

  lemma StageKeepsMarker(e: TeachingError, d: Option<seq<Entry>>, key: Text, n: Text)
    requires e.detail.Some? && DistinctKeys(e.detail.value)
    requires IsTotalMarker(key) && Get(e.detail.value, key) == Some(Number(n))
    requires d in {e.detail, Reclamped(e).detail, Minimized(e).detail}
    ensures d.Some? && Get(d.value, key) == Some(Number(n))
  {
    ReclampKeepsMarker(e.detail.value, key, n);
    SummaryKeepsMarker(e.detail.value, key, n);
  }

  /** A count among the detail's own entries is the same number in whatever detail the
      caller finally gets, through every stage. */
  lemma MarkersSurvive(e: TeachingError, key: Text, n: Text)
    requires e.detail.Some? && DistinctKeys(e.detail.value)
    requires IsTotalMarker(key) && Get(e.detail.value, key) == Some(Number(n))
    ensures EnforceErrorBudget(e).detail.Some?
    ensures Get(EnforceErrorBudget(e).detail.value, key) == Some(Number(n))
  {
    DetailStages(e);
    StageKeepsMarker(e, EnforceErrorBudget(e).detail, key, n);
  }
}
