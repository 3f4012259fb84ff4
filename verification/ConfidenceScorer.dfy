/**
 The scorer as it runs: flags first, then points, missing fields and findings
 added one by one, and both merges updating entries in place.
 */
module ConfidenceScorer {
  import opened Basics
  import opened SpecSections
  import opened Trimming
  import opened Confidence

  predicate DistinctCodes(findings: seq<Finding>) {
    forall j, k :: 0 <= j < k < |findings| ==> findings[j].code != findings[k].code
  }

  /** `byCode` leads from every code to the one entry that has it. */
  predicate IsIndex(byCode: map<Code, nat>, findings: seq<Finding>) {
    && (forall k :: 0 <= k < |findings| ==> findings[k].code in byCode && byCode[findings[k].code] == k)
    && (forall c :: c in byCode ==> byCode[c] < |findings| && findings[byCode[c]].code == c)
  }

  lemma IndexFinds(byCode: map<Code, nat>, findings: seq<Finding>, code: Code)
    requires IsIndex(byCode, findings)
    ensures IndexOf(findings, code) == if code in byCode then byCode[code] else |findings|
  {
    var k := IndexOf(findings, code);
    if code in byCode {
      assert findings[byCode[code]].code == code;
    }
  }

  method IndexByCode(findings: seq<Finding>) returns (byCode: map<Code, nat>)
    requires DistinctCodes(findings)
    ensures IsIndex(byCode, findings)
  {
    byCode := map[];
    for k := 0 to |findings|
      invariant IsIndex(byCode, findings[..k])
    {
      byCode := byCode[findings[k].code := k];
      assert findings[..k + 1] == findings[..k] + [findings[k]];
    }
    assert findings[..|findings|] == findings;
  }

  method MergeCapFindings(base: seq<Finding>, index: map<Code, nat>, caps: seq<Finding>)
    returns (findings: seq<Finding>, byCode: map<Code, nat>)
    requires IsIndex(index, base)
    ensures findings == MergeCaps(base, caps) && IsIndex(byCode, findings)
  {
    findings, byCode := base, index;
    for n := 0 to |caps|
      invariant IsIndex(byCode, findings)
      invariant MergeCaps(findings, caps[n..]) == MergeCaps(base, caps)
    {
      var cap := caps[n];
      assert caps[n..][0] == cap && caps[n..][1..] == caps[n + 1..];
      IndexFinds(byCode, findings, cap.code);
      ghost var merged := MergeCap(findings, cap);
      if cap.code !in byCode {
        byCode := byCode[cap.code := |findings|];
        findings := findings + [cap];
      } else {
        var k := byCode[cap.code];
        if !(forall hint :: hint in cap.suggestion ==> hint in findings[k].suggestion) {
          findings := findings[k := findings[k].(suggestion := findings[k].suggestion + cap.suggestion)];
        }
      }
      assert findings == merged;
    }
  }

  method EscalateFindings(base: seq<Finding>, index: map<Code, nat>, required: seq<Finding>)
    returns (findings: seq<Finding>)
    requires IsIndex(index, base)
    ensures findings == Escalate(base, required)
  {
    findings := base;
    var byCode: map<Code, nat> := index;
    for n := 0 to |required|
      invariant IsIndex(byCode, findings)
      invariant Escalate(findings, required[n..]) == Escalate(base, required)
    {
      var signal := required[n];
      assert required[n..][0] == signal && required[n..][1..] == required[n + 1..];
      IndexFinds(byCode, findings, signal.code);
      ghost var escalated := EscalateOne(findings, signal);
      if signal.code in byCode {
        var k := byCode[signal.code];
        findings := findings[k := findings[k].(severity := Blocking)];
      } else {
        byCode := byCode[signal.code := |findings|];
        findings := findings + [signal];
      }
      assert findings == escalated;
    }
  }

  // ---- Codes of the universal findings ----

  /** Where a code stands among the universal findings; each stands alone. */
  function Rank(code: Code): nat {
    match code
    case MissingTitle => 0
    case MissingDescription => 1
    case MissingGoal => 2
    case MissingAcceptanceCriteria => 3
    case MissingScope => 4
    case MissingOutOfScope => 5
    case MissingDependencies => 6
    case MissingRisk => 7
    case MissingAgentPrompt => 8
    case VagueLanguage => 9
    case NoConcreteAnchors => 10
    case _ => 11
  }

  predicate Ascending(findings: seq<Finding>, from: nat, below: nat) {
    && (forall k :: 0 <= k < |findings| ==> from <= Rank(findings[k].code) < below)
    && (forall j, k :: 0 <= j < k < |findings| ==> Rank(findings[j].code) < Rank(findings[k].code))
  }

  lemma AscendingAppend(a: seq<Finding>, b: seq<Finding>, from: nat, middle: nat, below: nat)
    requires Ascending(a, from, middle) && Ascending(b, middle, below) && from <= middle <= below
    ensures Ascending(a + b, from, below)
  {
  }

  lemma MissFindingsAppend(a: seq<CoreField>, b: seq<CoreField>, violated: bool)
    ensures MissFindings(a + b, violated) == MissFindings(a, violated) + MissFindings(b, violated)
  {
  }

  /** One more field of a higher rank keeps the order. */
  lemma MissAscending(before: seq<CoreField>, present: bool, field: CoreField, violated: bool, from: nat)
    requires from <= Rank(MissCode(field)) && Ascending(MissFindings(before, violated), from, Rank(MissCode(field)))
    ensures Ascending(MissFindings(before + Absent(present, field), violated), from, Rank(MissCode(field)) + 1)
  {
    MissFindingsAppend(before, Absent(present, field), violated);
    AscendingAppend(MissFindings(before, violated), MissFindings(Absent(present, field), violated),
                    from, Rank(MissCode(field)), Rank(MissCode(field)) + 1);
  }

  lemma ProseAscending(title: bool, description: bool, v: bool)
    ensures Ascending(MissFindings(Absent(title, Title) + Absent(description, Description), v), 0, 2)
  {
    MissAscending(Absent(title, Title), description, Description, v, 0);
  }

  /** A section behind fields of lower rank, in the words of the step before it. */
  lemma SectionAscending(before: seq<CoreField>, present: bool, f: SpecField, v: bool, from: nat, rank: nat)
    requires Rank(MissCode(Section(f))) == rank && from <= rank && Ascending(MissFindings(before, v), from, rank)
    ensures Ascending(MissFindings(before + Absent(present, Section(f)), v), from, rank + 1)
  {
    MissAscending(before, present, Section(f), v, from);
  }

  lemma EssentialsAscending(s: Signals, v: bool)
    ensures Ascending(MissFindings(MissingEssentials(s), v), 0, 4)
  {
    var prose := Absent(s.title, Title) + Absent(!IsThin(s), Description);
    ProseAscending(s.title, !IsThin(s), v);
    SectionAscending(prose, Goal in s.present, Goal, v, 0, 2);
    SectionAscending(prose + Absent(Goal in s.present, Section(Goal)),
                     AcceptanceCriteria in s.present, AcceptanceCriteria, v, 0, 3);
  }

  lemma ScopesAscending(s: Signals, v: bool)
    ensures Ascending(MissFindings(Absent(Scope in s.present, Section(Scope))
                                   + Absent(OutOfScope in s.present, Section(OutOfScope)), v), 4, 6)
  {
    SectionAscending(Absent(Scope in s.present, Section(Scope)), OutOfScope in s.present, OutOfScope, v, 4, 5);
  }

  lemma BoundariesAscending(s: Signals, v: bool)
    ensures Ascending(MissFindings(MissingBoundaries(s), v), 4, 9)
  {
    var scopes := Absent(Scope in s.present, Section(Scope)) + Absent(OutOfScope in s.present, Section(OutOfScope));
    var needs := scopes + Absent(Dependencies in s.present, Section(Dependencies));
    ScopesAscending(s, v);
    SectionAscending(scopes, Dependencies in s.present, Dependencies, v, 4, 6);
    SectionAscending(needs, Risk in s.present, Risk, v, 4, 7);
    SectionAscending(needs + Absent(Risk in s.present, Section(Risk)), AgentPrompt in s.present, AgentPrompt, v, 4, 8);
  }

  lemma MissingAscending(s: Signals, v: bool)
    ensures Ascending(MissFindings(Missing(s), v), 0, 9)
  {
    EssentialsAscending(s, v);
    BoundariesAscending(s, v);
    MissFindingsAppend(MissingEssentials(s), MissingBoundaries(s), v);
    AscendingAppend(MissFindings(MissingEssentials(s), v), MissFindings(MissingBoundaries(s), v), 0, 4, 9);
  }

  lemma BuildAscending(s: Signals)
    ensures Ascending(BuildFindings(s), 0, 11)
  {
    var missing := MissFindings(Missing(s), KeystoneViolated(s));
    MissingAscending(s, KeystoneViolated(s));
    AscendingAppend(missing, VagueFindings(s), 0, 9, 10);
    AscendingAppend(missing + VagueFindings(s), UnanchoredFindings(s), 0, 10, 11);
  }

  lemma BuildDistinct(s: Signals)
    ensures DistinctCodes(BuildFindings(s))
  {
    BuildAscending(s);
    var findings := BuildFindings(s);
    forall j, k | 0 <= j < k < |findings|
      ensures findings[j].code != findings[k].code
    {
      assert Rank(findings[j].code) < Rank(findings[k].code);
    }
  }

  // ---- Scoring ----

  /** A scanned section counts as present exactly when some heading fills the field. */
  lemma SectionPresence(sections: map<SpecField, string>, text: string, heading: string -> Heading, f: SpecField)
    requires AreSections(sections, Lines(text), heading)
    ensures (f in sections && Has(sections[f])) <==> HasSection(text, heading, f)
  {
    var lines := Lines(text);
    if f in sections {
      var k :| 0 <= k < |lines| && FillsFirst(lines, heading, k, f);
      assert Fills(lines, heading, k, f);
      TrimmedIsKept(JoinLines(lines[k + 1..SectionEnd(lines, heading, k + 1)]));
    } else {
      FirstBelow(sections, lines, heading, |lines|, f);
    }
  }

  method CalculateConfidence(i: Input, h: Heuristics, tables: Tables) returns (r: Report)
    ensures r == Evaluate(i, h, tables)
  {
    var sections := ExtractSpecSections(Lines(Text(i)), h.heading);
    var present := set f | f in ALL_FIELDS && (Has(TemplateText(i, f)) || (f in sections && Has(sections[f])));
    var s := Observe(i, h).(present := present);
    forall f | f in ALL_FIELDS {
      SectionPresence(sections, Text(i), h.heading, f);
    }
    assert s.present == Observe(i, h).present;
    var earned := AddPoints(s);
    var missing := CollectMissing(s);
    var base := CollectFindings(s, missing);
    var triggered := Triggered(CapRules(s));
    BuildDistinct(s);
    var byCode := IndexByCode(base);
    var findings;
    findings, byCode := MergeCapFindings(base, byCode, CapFindings(triggered));
    findings := EscalateFindings(findings, byCode, RequiredFindings(i, h, tables));
    r := Report(Capped(Max(0, Min(100, earned)), triggered), missing, ComputeSubscores(i, h), findings,
                IsBlocking(findings), TaskTypeOf(i));
  }

  method AddPoints(s: Signals) returns (earned: int)
    ensures earned == Earned(s)
  {
    earned := 0;
    if s.title { earned := earned + W_TITLE; }
    earned := earned + Round(W_DESCRIPTION as real * s.quality);
    if Goal in s.present { earned := earned + W_GOAL; }
    ghost var prose :=
      Points(s.title, W_TITLE) + Round(W_DESCRIPTION as real * s.quality) + Points(Goal in s.present, W_GOAL);
    assert earned == prose;
    if AcceptanceCriteria in s.present {
      earned := earned + W_EVALS;
    } else if s.verification {
      earned := earned + EVALS_PARTIAL;
    }
    ghost var evals := if AcceptanceCriteria in s.present then W_EVALS else Points(s.verification, EVALS_PARTIAL);
    assert earned == prose + evals;
    var boundaries := AddBoundaries(s);
    earned := earned + boundaries;
  }

  method AddBoundaries(s: Signals) returns (earned: int)
    ensures earned == BoundaryPoints(s)
  {
    earned := 0;
    if Scope in s.present { earned := earned + W_SCOPE; }
    if OutOfScope in s.present { earned := earned + W_OUT_OF_SCOPE; }
    if Dependencies in s.present { earned := earned + W_DEPENDENCIES; }
    if Risk in s.present { earned := earned + W_RISK; }
    if AgentPrompt in s.present { earned := earned + W_AGENT_PROMPT; }
  }

  method CollectMissing(s: Signals) returns (missing: seq<CoreField>)
    ensures missing == Missing(s)
  {
    missing := [];
    if !s.title { missing := missing + [Title]; }
    if IsThin(s) { missing := missing + [Description]; }
    if Goal !in s.present { missing := missing + [Section(Goal)]; }
    if AcceptanceCriteria !in s.present { missing := missing + [Section(AcceptanceCriteria)]; }
    assert missing == MissingEssentials(s);
    var boundaries := CollectBoundaries(s);
    missing := missing + boundaries;
  }

  method CollectBoundaries(s: Signals) returns (missing: seq<CoreField>)
    ensures missing == MissingBoundaries(s)
  {
    missing := [];
    if Scope !in s.present { missing := missing + [Section(Scope)]; }
    if OutOfScope !in s.present { missing := missing + [Section(OutOfScope)]; }
    ghost var scopes :=
      Absent(Scope in s.present, Section(Scope)) + Absent(OutOfScope in s.present, Section(OutOfScope));
    assert missing == scopes;
    if Dependencies !in s.present { missing := missing + [Section(Dependencies)]; }
    if Risk !in s.present { missing := missing + [Section(Risk)]; }
    assert missing ==
      scopes + Absent(Dependencies in s.present, Section(Dependencies)) + Absent(Risk in s.present, Section(Risk));
    if AgentPrompt !in s.present { missing := missing + [Section(AgentPrompt)]; }
  }

  method CollectFindings(s: Signals, missing: seq<CoreField>) returns (findings: seq<Finding>)
    requires missing == Missing(s)
    ensures findings == BuildFindings(s)
  {
    findings := CollectMissFindings(missing, KeystoneViolated(s));
    ghost var miss := findings;
    if s.description && AmbiguityRisk(s) < 70 {
      findings := findings + [Finding(VagueLanguage, Warning, false, [Advice(VagueLanguage)])];
    }
    assert findings == miss + VagueFindings(s);
    if s.description && Concreteness(s) == 0 {
      findings := findings + [Finding(NoConcreteAnchors, Warning, false, [Advice(NoConcreteAnchors)])];
    }
  }

  method CollectMissFindings(missing: seq<CoreField>, violated: bool) returns (findings: seq<Finding>)
    ensures findings == MissFindings(missing, violated)
  {
    findings := [];
    for n := 0 to |missing|
      invariant |findings| == n
      invariant forall k :: 0 <= k < n ==> findings[k] == MissFinding(missing[k], violated)
    {
      findings := findings + [MissFinding(missing[n], violated)];
    }
  }
}
