/**
 What the scorer's comments claim, proved of the whole pipeline.
 */
module ConfidenceProperties {
  import opened Basics
  import opened SpecSections
  import opened Trimming
  import opened Confidence
  import opened ConfidenceScorer

  // ---- Merging ----

  /** `after` continues `before`: the same entries under the same codes, none of
      lower severity, no keystone flag changed, no hint lost. */
  predicate Continues(before: seq<Finding>, after: seq<Finding>) {
    && |before| <= |after|
    && forall k :: 0 <= k < |before| ==>
         && after[k].code == before[k].code && after[k].keystone == before[k].keystone
         && NotLower(before[k].severity, after[k].severity)
         && before[k].suggestion <= after[k].suggestion
  }

  predicate NotLower(a: Severity, b: Severity) {
    a == b || a == Info || b == Blocking
  }

  lemma {:induction false} MergeCapsContinues(findings: seq<Finding>, caps: seq<Finding>)
    requires DistinctCodes(findings)
    ensures DistinctCodes(MergeCaps(findings, caps)) && Continues(findings, MergeCaps(findings, caps))
    decreases caps
  {
    if caps != [] {
      var next := MergeCap(findings, caps[0]);
      MergeCapsContinues(next, caps[1..]);
      ContinuesOn(findings, next, MergeCaps(findings, caps));
    }
  }

  lemma {:induction false} EscalateContinues(findings: seq<Finding>, required: seq<Finding>)
    requires DistinctCodes(findings)
    ensures DistinctCodes(Escalate(findings, required)) && Continues(findings, Escalate(findings, required))
    decreases required
  {
    if required != [] {
      var next := EscalateOne(findings, required[0]);
      EscalateContinues(next, required[1..]);
      ContinuesOn(findings, next, Escalate(findings, required));
    }
  }

  lemma ContinuesOn(a: seq<Finding>, b: seq<Finding>, c: seq<Finding>)
    requires Continues(a, b) && Continues(b, c)
    ensures Continues(a, c)
  {
  }

  /** Through both merges, for any table of required signals: codes stay pairwise
      distinct and no entry is lost, reordered or lowered. */
  lemma FindingsStayDistinct(i: Input, h: Heuristics, tables: Tables)
    ensures DistinctCodes(Evaluate(i, h, tables).findings)
    ensures Continues(BuildFindings(Observe(i, h)), Evaluate(i, h, tables).findings)
  {
    var s := Observe(i, h);
    var caps := CapFindings(Triggered(CapRules(s)));
    BuildDistinct(s);
    MergeCapsContinues(BuildFindings(s), caps);
    EscalateContinues(UniversalFindings(s), RequiredFindings(i, h, tables));
    ContinuesOn(BuildFindings(s), UniversalFindings(s), FinalFindings(i, h, tables));
  }

  predicate Surfaces(findings: seq<Finding>, cap: Finding) {
    exists k :: 0 <= k < |findings| && findings[k].code == cap.code &&
      forall hint :: hint in cap.suggestion ==> hint in findings[k].suggestion
  }

  lemma ContinuesSurfacing(a: seq<Finding>, b: seq<Finding>, cap: Finding)
    requires Continues(a, b) && Surfaces(a, cap)
    ensures Surfaces(b, cap)
  {
    var k :| 0 <= k < |a| && a[k].code == cap.code && forall hint :: hint in cap.suggestion ==> hint in a[k].suggestion;
    assert b[k].code == cap.code;
    assert forall hint :: hint in a[k].suggestion ==> hint in b[k].suggestion;
  }

  lemma {:induction false} MergeCapsSurfaces(findings: seq<Finding>, caps: seq<Finding>, cap: Finding)
    requires DistinctCodes(findings) && cap in caps
    ensures Surfaces(MergeCaps(findings, caps), cap)
    decreases caps
  {
    var next := MergeCap(findings, caps[0]);
    MergeCapsContinues(findings, [caps[0]]);
    assert MergeCaps(findings, [caps[0]]) == next by { assert [caps[0]][1..] == []; }
    if cap == caps[0] {
      MergeCapsContinues(next, caps[1..]);
      var k := IndexOf(findings, cap.code);
      assert next[k].code == cap.code;
      assert Surfaces(next, cap);
      ContinuesSurfacing(next, MergeCaps(findings, caps), cap);
    } else {
      assert cap in caps[1..];
      MergeCapsSurfaces(next, caps[1..], cap);
    }
  }

  lemma {:induction false} TriggeredIsFinding(rules: seq<CapRule>, rule: CapRule)
    requires rule in rules && rule.applies
    ensures Finding(rule.code, Warning, false, [Ceiling(rule.cap)]) in CapFindings(Triggered(rules))
  {
    if rules[0] != rule {
      assert rule in rules[1..];
      TriggeredIsFinding(rules[1..], rule);
    }
    if rules[0].applies {
      assert Triggered(rules) == [rules[0]] + Triggered(rules[1..]);
      assert Triggered(rules)[1..] == Triggered(rules[1..]);
    } else {
      assert Triggered(rules) == Triggered(rules[1..]);
    }
  }

  /** Every cap that applies is readable from the findings, ceiling included. */
  lemma CapsSurface(i: Input, h: Heuristics, tables: Tables, rule: CapRule)
    requires rule in CapRules(Observe(i, h)) && rule.applies
    ensures Surfaces(Evaluate(i, h, tables).findings, Finding(rule.code, Warning, false, [Ceiling(rule.cap)]))
  {
    var s := Observe(i, h);
    var cap := Finding(rule.code, Warning, false, [Ceiling(rule.cap)]);
    var caps := CapFindings(Triggered(CapRules(s)));
    TriggeredIsFinding(CapRules(s), rule);
    BuildDistinct(s);
    MergeCapsSurfaces(BuildFindings(s), caps, cap);
    MergeCapsContinues(BuildFindings(s), caps);
    EscalateContinues(UniversalFindings(s), RequiredFindings(i, h, tables));
    ContinuesSurfacing(UniversalFindings(s), FinalFindings(i, h, tables), cap);
  }

  // ---- The blocking flag ----

  /** Keystone entries are those of `before`, escalated only under one of `codes`. */
  predicate KeystonesFrom(before: seq<Finding>, after: seq<Finding>, codes: set<Code>) {
    && |before| <= |after|
    && (forall k :: |before| <= k < |after| ==> !after[k].keystone)
    && (forall k :: 0 <= k < |before| ==>
          && after[k].code == before[k].code && after[k].keystone == before[k].keystone
          && (after[k].severity == before[k].severity || after[k].code in codes))
  }

  lemma {:induction false} CapsKeepKeystones(findings: seq<Finding>, caps: seq<Finding>)
    requires forall c :: c in caps ==> !c.keystone
    ensures KeystonesFrom(findings, MergeCaps(findings, caps), {})
    decreases caps
  {
    if caps != [] {
      assert caps[0] in caps;
      CapsKeepKeystones(MergeCap(findings, caps[0]), caps[1..]);
    }
  }

  function CodesOf(findings: seq<Finding>): set<Code> {
    set f | f in findings :: f.code
  }

  lemma {:induction false} EscalateKeepsKeystones(findings: seq<Finding>, required: seq<Finding>)
    requires forall r :: r in required ==> !r.keystone
    ensures KeystonesFrom(findings, Escalate(findings, required), CodesOf(required))
    decreases required
  {
    if required != [] {
      assert required[0] in required;
      EscalateKeepsKeystones(EscalateOne(findings, required[0]), required[1..]);
      assert CodesOf(required[1..]) <= CodesOf(required);
    }
  }

  lemma {:induction false} UnmetCodes(signals: seq<RequiredSignal>, s: Signals, text: string, h: Heuristics)
    ensures forall f :: f in Unmet(signals, s, text, h) ==>
      !f.keystone && exists k :: 0 <= k < |signals| && signals[k].code == f.code
  {
    if signals != [] {
      UnmetCodes(signals[1..], s, text, h);
      forall f | f in Unmet(signals[1..], s, text, h)
        ensures exists k :: 0 <= k < |signals| && signals[k].code == f.code
      {
        var k :| 0 <= k < |signals[1..]| && signals[1..][k].code == f.code;
        assert signals[k + 1].code == f.code;
      }
    }
  }

  lemma {:induction false} CapFindingsPlain(triggered: seq<CapRule>)
    ensures forall c :: c in CapFindings(triggered) ==> !c.keystone
  {
    if triggered != [] {
      CapFindingsPlain(triggered[1..]);
    }
  }

  /** No type table names the agent-prompt keystone. */
  predicate SparesAgentPrompt(tables: Tables) {
    forall t: TaskType, k: nat :: k < |tables(t)| ==> tables(t)[k].code != MissingAgentPrompt
  }

  lemma ShippedTablesSpareAgentPrompt()
    ensures SparesAgentPrompt(RequiredByType)
  {
  }

  lemma MissingHasCriteria(s: Signals)
    requires AcceptanceCriteria !in s.present
    ensures Section(AcceptanceCriteria) in Missing(s)
  {
    assert Section(AcceptanceCriteria) in MissingEssentials(s);
  }

  /** A keystone finding that blocks is the evals keystone, violated. */
  lemma BaseKeystones(s: Signals)
    ensures forall k :: 0 <= k < |BuildFindings(s)| && BuildFindings(s)[k].keystone ==>
      || BuildFindings(s)[k] == Finding(MissingAgentPrompt, Warning, true, [Advice(MissingAgentPrompt)])
      || (KeystoneViolated(s) && BuildFindings(s)[k].code == MissingAcceptanceCriteria)
    ensures KeystoneViolated(s) ==>
      exists k :: 0 <= k < |BuildFindings(s)| && BuildFindings(s)[k] == MissFinding(Section(AcceptanceCriteria), true)
  {
    BuildStartsWithMisses(s);
    forall k | 0 <= k < |BuildFindings(s)| && BuildFindings(s)[k].keystone
      ensures BuildFindings(s)[k] == Finding(MissingAgentPrompt, Warning, true, [Advice(MissingAgentPrompt)])
           || (KeystoneViolated(s) && BuildFindings(s)[k].code == MissingAcceptanceCriteria)
    {
      KeystoneOfMiss(Missing(s)[k], KeystoneViolated(s));
    }
    if KeystoneViolated(s) {
      MissingHasCriteria(s);
      var k :| 0 <= k < |Missing(s)| && Missing(s)[k] == Section(AcceptanceCriteria);
      assert BuildFindings(s)[k] == MissFinding(Section(AcceptanceCriteria), true);
    }
  }

  lemma BuildStartsWithMisses(s: Signals)
    ensures var findings, missing := BuildFindings(s), Missing(s);
      && |missing| <= |findings|
      && (forall k :: 0 <= k < |missing| ==> findings[k] == MissFinding(missing[k], KeystoneViolated(s)))
      && (forall k :: |missing| <= k < |findings| ==> !findings[k].keystone)
  {
    assert MissFindings(Missing(s), KeystoneViolated(s)) <= BuildFindings(s);
  }

  lemma KeystoneOfMiss(field: CoreField, violated: bool)
    requires MissFinding(field, violated).keystone
    ensures MissFinding(field, violated) == Finding(MissingAgentPrompt, Warning, true, [Advice(MissingAgentPrompt)])
         || (violated && MissFinding(field, violated).code == MissingAcceptanceCriteria)
  {
  }

  lemma KeystonesOn(a: seq<Finding>, b: seq<Finding>, c: seq<Finding>, codes: set<Code>)
    requires KeystonesFrom(a, b, {}) && KeystonesFrom(b, c, codes)
    ensures KeystonesFrom(a, c, codes)
  {
  }

  lemma FinalKeystones(i: Input, h: Heuristics, tables: Tables)
    requires SparesAgentPrompt(tables)
    ensures KeystonesFrom(BuildFindings(Observe(i, h)), FinalFindings(i, h, tables),
                          CodesOf(RequiredFindings(i, h, tables)))
    ensures MissingAgentPrompt !in CodesOf(RequiredFindings(i, h, tables))
  {
    var s := Observe(i, h);
    var triggered := Triggered(CapRules(s));
    CapFindingsPlain(triggered);
    CapsKeepKeystones(BuildFindings(s), CapFindings(triggered));
    RequiredCodes(i, h, tables);
    EscalateKeepsKeystones(UniversalFindings(s), RequiredFindings(i, h, tables));
    KeystonesOn(BuildFindings(s), UniversalFindings(s), FinalFindings(i, h, tables),
                CodesOf(RequiredFindings(i, h, tables)));
  }

  lemma KeystoneBlocks(s: Signals, final: seq<Finding>, codes: set<Code>)
    requires KeystonesFrom(BuildFindings(s), final, codes) && Continues(BuildFindings(s), final)
    requires MissingAgentPrompt !in codes
    ensures IsBlocking(final) <==> KeystoneViolated(s)
  {
    var base := BuildFindings(s);
    BaseKeystones(s);
    if KeystoneViolated(s) {
      var k :| 0 <= k < |base| && base[k] == MissFinding(Section(AcceptanceCriteria), true);
      assert final[k].keystone && NotLower(base[k].severity, final[k].severity);
    }
    if IsBlocking(final) {
      var k :| 0 <= k < |final| && final[k].keystone && final[k].severity == Blocking;
      assert k < |base| && base[k].keystone;
    }
  }

  /** The blocking flag is exactly the evals keystone: no acceptance criteria and
      no verification path, whatever its type requires. A blocked task scores
      at most the keystone cap. */
  lemma BlockingIsKeystone(i: Input, h: Heuristics, tables: Tables)
    requires SparesAgentPrompt(tables)
    ensures Evaluate(i, h, tables).blocking <==> KeystoneViolated(Observe(i, h))
    ensures Evaluate(i, h, tables).blocking ==> Evaluate(i, h, tables).score <= EVALS_KEYSTONE_CAP
  {
    FinalKeystones(i, h, tables);
    FindingsStayDistinct(i, h, tables);
    KeystoneBlocks(Observe(i, h), FinalFindings(i, h, tables), CodesOf(RequiredFindings(i, h, tables)));
    CappedBy(RawScore(Observe(i, h)), CapRules(Observe(i, h)), 2);
  }

  lemma RequiredCodes(i: Input, h: Heuristics, tables: Tables)
    requires SparesAgentPrompt(tables)
    ensures forall f :: f in RequiredFindings(i, h, tables) ==> !f.keystone && f.code != MissingAgentPrompt
  {
    match TaskTypeOf(i)
    case None =>
    case Some(t) => UnmetCodes(tables(t), Observe(i, h), Trim(Text(i)), h);
  }

  // ---- Caps ----

  lemma {:induction false} CappedBy(score: int, rules: seq<CapRule>, k: nat)
    requires k < |rules|
    ensures Capped(score, Triggered(rules)) <= score
    ensures rules[k].applies ==> Capped(score, Triggered(rules)) <= rules[k].cap
  {
    CappedBelow(score, rules);
    if k > 0 {
      if rules[0].applies {
        assert Triggered(rules)[1..] == Triggered(rules[1..]);
        CappedBy(Min(score, rules[0].cap), rules[1..], k - 1);
      } else {
        assert Triggered(rules) == Triggered(rules[1..]);
        CappedBy(score, rules[1..], k - 1);
      }
    } else if rules[0].applies {
      assert Triggered(rules)[1..] == Triggered(rules[1..]);
      CappedBelow(Min(score, rules[0].cap), rules[1..]);
    }
  }

  lemma {:induction false} CappedBelow(score: int, rules: seq<CapRule>)
    ensures Capped(score, Triggered(rules)) <= score
  {
    if rules != [] {
      if rules[0].applies {
        assert Triggered(rules)[1..] == Triggered(rules[1..]);
        CappedBelow(Min(score, rules[0].cap), rules[1..]);
      } else {
        assert Triggered(rules) == Triggered(rules[1..]);
        CappedBelow(score, rules[1..]);
      }
    }
  }

  /** A capped score is the score itself or the cap of a rule that applies. */
  lemma {:induction false} CappedIs(score: int, rules: seq<CapRule>)
    ensures var r := Capped(score, Triggered(rules));
      r == score || exists k :: 0 <= k < |rules| && rules[k].applies && r == rules[k].cap
  {
    if rules != [] {
      var next := if rules[0].applies then Min(score, rules[0].cap) else score;
      if rules[0].applies {
        assert Triggered(rules)[1..] == Triggered(rules[1..]);
      } else {
        assert Triggered(rules) == Triggered(rules[1..]);
      }
      CappedIs(next, rules[1..]);
      var r := Capped(next, Triggered(rules[1..]));
      if r != next {
        var k :| 0 <= k < |rules[1..]| && rules[1..][k].applies && r == rules[1..][k].cap;
        assert rules[k + 1] == rules[1..][k];
      }
    }
  }

  /** Cap layers with fewer triggered rules, over a higher score, give a higher score. */
  lemma FewerCaps(lower: int, higher: int, more: seq<CapRule>, fewer: seq<CapRule>)
    requires lower <= higher && |more| == |fewer|
    requires forall k :: 0 <= k < |more| ==> more[k].cap == fewer[k].cap && (fewer[k].applies ==> more[k].applies)
    ensures Capped(lower, Triggered(more)) <= Capped(higher, Triggered(fewer))
  {
    CappedIs(higher, fewer);
    CappedBelow(lower, more);
    forall k | 0 <= k < |more| {
      CappedBy(lower, more, k);
    }
  }

  // ---- Filling a field ----

  function Filled(i: Input, f: SpecField, text: string): Input {
    var td := match i.template { case None => TemplateData(map[], None) case Some(td) => td };
    i.(template := Some(td.(fields := td.fields[f := text])))
  }

  lemma FilledText(i: Input, f: SpecField, text: string, g: SpecField)
    ensures TemplateText(Filled(i, f, text), g) == if g == f then text else TemplateText(i, g)
  {
  }

  lemma PresentFilled(i: Input, h: Heuristics, f: SpecField, text: string, g: SpecField)
    requires Has(text)
    ensures Present(Filled(i, f, text), h, g) <==> Present(i, h, g) || g == f
  {
    FilledText(i, f, text, g);
    assert Text(Filled(i, f, text)) == Text(i);
  }

  lemma SubstituteFilled(i: Input, f: SpecField, text: string)
    requires f != Goal && f != Context
    ensures Substitute(Filled(i, f, text)) == Substitute(i)
  {
    FilledText(i, f, text, Goal);
    FilledText(i, f, text, Context);
  }

  lemma ObserveFilled(i: Input, h: Heuristics, f: SpecField, text: string)
    requires f != Goal && f != Context && Has(text)
    ensures Observe(Filled(i, f, text), h) == Observe(i, h).(present := Observe(i, h).present + {f})
  {
    SubstituteFilled(i, f, text);
    FieldsFilled(i, h, f, text);
    assert Text(Filled(i, f, text)) == Text(i);
  }

  lemma FieldsFilled(i: Input, h: Heuristics, f: SpecField, text: string)
    requires f != Goal && f != Context && Has(text)
    ensures PresentFields(Filled(i, f, text), h) == PresentFields(i, h) + {f}
  {
    forall g | g in ALL_FIELDS
      ensures g in PresentFields(Filled(i, f, text), h) <==> g in PresentFields(i, h) + {f}
    {
      PresentFilled(i, h, f, text, g);
    }
    assert f in ALL_FIELDS;
  }

  lemma EarnedMore(s: Signals, more: Signals)
    requires more == s.(present := more.present) && s.present <= more.present
    ensures Earned(s) <= Earned(more)
  {
  }

  lemma MorePresent(s: Signals, f: SpecField)
    ensures Score(s) <= Score(s.(present := s.present + {f}))
  {
    var more := s.(present := s.present + {f});
    EarnedMore(s, more);
    FewerCaps(RawScore(s), RawScore(more), CapRules(s), CapRules(more));
  }

  /** Filling acceptance criteria, scope, out-of-scope, dependencies, risk, agent
      prompt or constraints never lowers the final score. */
  lemma FillingNeverLowers(i: Input, h: Heuristics, tables: Tables, f: SpecField, text: string)
    requires f != Goal && f != Context && Has(text)
    ensures Evaluate(i, h, tables).score <= Evaluate(Filled(i, f, text), h, tables).score
  {
    ObserveFilled(i, h, f, text);
    MorePresent(Observe(i, h), f);
  }

  // ---- Deleting the description ----

  function Bare(i: Input): Input {
    i.(description := None)
  }

  lemma ObserveBare(i: Input, h: Heuristics)
    requires Lawful(h)
    ensures var s, bare := Observe(i, h), Observe(Bare(i), h);
      && bare.title == s.title && bare.present <= s.present && 0.0 <= bare.quality <= s.quality <= 1.0
      && !bare.description && !bare.verification && bare.vague == 0 && bare.anchors == 0
      && !bare.testWords && !bare.scopeMarkers
  {
    assert Substitute(Bare(i)) == Substitute(i);
    assert Lines("") == [""];
    assert FenceOf("").None?;
    forall f | f in ALL_FIELDS && Present(Bare(i), h, f)
      ensures Present(i, h, f)
    {
      assert !HasSection("", h.heading, f);
    }
  }

  lemma RoundMonotone(a: real, b: real)
    requires a <= b
    ensures Round(W_DESCRIPTION as real * a) <= Round(W_DESCRIPTION as real * b)
  {
  }

  /** The denominator is fixed: the weights sum to 100, so that a score is a percentage
      before it is kept within bounds, and full marks are for a task that has everything. */
  lemma EarnedWithin(s: Signals)
    requires 0.0 <= s.quality <= 1.0
    ensures 0 <= Earned(s) <= 100 && RawScore(s) == Earned(s)
    ensures Earned(s) == 100 <==>
      && s.title && Round(W_DESCRIPTION as real * s.quality) == W_DESCRIPTION
      && {Goal, AcceptanceCriteria, Scope, OutOfScope, Dependencies, Risk, AgentPrompt} <= s.present
  {
    RoundMonotone(0.0, s.quality);
    RoundMonotone(s.quality, 1.0);
    assert Round(W_DESCRIPTION as real * 0.0) == 0 && Round(W_DESCRIPTION as real * 1.0) == 52;
  }

  lemma EarnedMonotone(less: Signals, more: Signals)
    requires less.title == more.title && less.present <= more.present && less.quality <= more.quality
    requires !less.verification
    ensures Earned(less) <= Earned(more)
  {
    RoundMonotone(less.quality, more.quality);
  }

  /** When the score goes up although text was taken away. */
  predicate EscapesAmbiguity(s: Signals, bare: Signals) {
    && IsAmbiguous(s) && bare.title && AcceptanceCriteria in bare.present && Constraints in bare.present
    && RawScore(bare) > 75
  }

  lemma BareScore(bare: Signals)
    requires !bare.description && !bare.verification && bare.vague == 0 && bare.anchors == 0
    requires !bare.testWords && !bare.scopeMarkers
    ensures Score(bare) <= 80
    ensures Score(bare) > 75 ==>
      bare.title && AcceptanceCriteria in bare.present && Constraints in bare.present && RawScore(bare) > 75
  {
    var rules := CapRules(bare);
    CappedBy(RawScore(bare), rules, 0);
    CappedBy(RawScore(bare), rules, 2);
    CappedBy(RawScore(bare), rules, 5);
    CappedBy(RawScore(bare), rules, 6);
    assert rules[0].applies <==> !bare.title;
    assert rules[2].applies <==> AcceptanceCriteria !in bare.present;
    assert rules[5].applies <==> Constraints !in bare.present;
    assert rules[6].applies;
  }

  lemma ThinIsLow(s: Signals)
    requires IsThin(s)
    ensures RawScore(s) <= 69
  {
    RoundMonotone(s.quality, 0.4);
    assert Round(W_DESCRIPTION as real * 0.4) == 21;
  }

  lemma BareScoreHigh(bare: Signals)
    requires bare.title && AcceptanceCriteria in bare.present && Constraints in bare.present
    requires !bare.description && bare.vague == 0 && !IsThin(bare) && RawScore(bare) > 75
    ensures Score(bare) > 75
  {
    CappedIs(RawScore(bare), CapRules(bare));
  }

  /** Deleting the description never raises the raw score. The final score rises
      exactly when the description was ambiguous, the template alone carries title,
      acceptance criteria and constraints, and it earns more than the escaped cap;
      and then by at most five points. */
  lemma DeletingDescription(i: Input, h: Heuristics, tables: Tables)
    requires Lawful(h)
    ensures var s, bare := Observe(i, h), Observe(Bare(i), h);
      var before, after := Evaluate(i, h, tables).score, Evaluate(Bare(i), h, tables).score;
      && RawScore(bare) <= RawScore(s)
      && (after > before <==> EscapesAmbiguity(s, bare))
      && after <= before + 5
  {
    ObserveBare(i, h);
    LosingText(Observe(i, h), Observe(Bare(i), h));
  }

  lemma LosingText(s: Signals, bare: Signals)
    requires bare.title == s.title && bare.present <= s.present && bare.quality <= s.quality
    requires !bare.description && !bare.verification && bare.vague == 0 && bare.anchors == 0
    requires !bare.testWords && !bare.scopeMarkers
    ensures RawScore(bare) <= RawScore(s)
    ensures Score(bare) > Score(s) <==> EscapesAmbiguity(s, bare)
    ensures Score(bare) <= Score(s) + 5
  {
    EarnedMonotone(bare, s);
    BareScore(bare);
    BareAgainst(s, bare);
    if EscapesAmbiguity(s, bare) {
      if IsThin(bare) { ThinIsLow(bare); }
      BareScoreHigh(bare);
      CappedBy(RawScore(s), CapRules(s), 3);
    }
  }

  /** Every cap of the fuller text but the ambiguity one still applies without it. */
  lemma BareAgainst(s: Signals, bare: Signals)
    requires bare.title == s.title && bare.present <= s.present && bare.quality <= s.quality
    requires !bare.description && !bare.verification && bare.anchors == 0 && !bare.testWords && !bare.scopeMarkers
    requires RawScore(bare) <= RawScore(s)
    ensures Score(bare) <= Score(s) || (IsAmbiguous(s) && Score(s) == 75)
  {
    CappedIs(RawScore(s), CapRules(s));
    CappedBelow(RawScore(bare), CapRules(bare));
    if Score(s) != RawScore(s) {
      var k :| 0 <= k < 7 && CapRules(s)[k].applies && Score(s) == CapRules(s)[k].cap;
      if k != 3 {
        assert CapRules(bare)[k].applies && CapRules(bare)[k].cap == CapRules(s)[k].cap;
        CappedBy(RawScore(bare), CapRules(bare), k);
      }
    }
  }

  // ---- A task that scores higher without its description ----

  const VAGUE_TEXT := "fix improve simple"

  /** A task specified in its template, with three vague words for a description. */
  function Prose(f: SpecField): string {
    Start(f) + Rest(f)
  }

  function Start(f: SpecField): string {
    match f
    case Goal => "Export"
    case Context => "Seen"
    case AcceptanceCriteria => "under"
    case Dependencies => "none"
    case _ => "rows"
  }

  function Rest(f: SpecField): string {
    match f
    case Goal => " 5000 invoices fast:\n- stream rows\n- cap memory"
    case Context => " in exports/job.ts:\n- worker timeouts\n- restarts"
    case AcceptanceCriteria => " ten seconds"
    case Risk => " out of order"
    case _ => ""
  }

  const VAGUE_TASK: Input :=
    Input("Speed up exports", Some(VAGUE_TEXT), Some(TemplateData(map f | f in ALL_FIELDS :: Prose(f), None)), {})

  lemma StartIsWord(f: SpecField)
    ensures Start(f) != "" && !IsSpace(Start(f)[0])
  {
  }

  lemma ProseStarts(f: SpecField)
    ensures Prose(f) != "" && !IsSpace(Prose(f)[0])
  {
    StartIsWord(f);
    assert Prose(f)[0] == Start(f)[0];
  }

  lemma VagueTaskIsFull(i: Input, h: Heuristics)
    requires i.template == VAGUE_TASK.template
    ensures PresentFields(i, h) == ALL_FIELDS
  {
    forall f | f in ALL_FIELDS
      ensures Present(i, h, f)
    {
      assert TemplateText(i, f) == Prose(f);
      ProseStarts(f);
      HeadSurvives(Prose(f));
    }
  }

  lemma VagueTextIsAmbiguous(h: Heuristics)
    requires h.vagueHits(VAGUE_TEXT) >= 3 && h.anchors(VAGUE_TEXT) == 0
    ensures IsAmbiguous(Observe(VAGUE_TASK, h))
  {
    assert Trim(VAGUE_TEXT) == VAGUE_TEXT;
  }

  lemma BareVagueTask(i: Input, h: Heuristics)
    requires i.template == VAGUE_TASK.template && Has(i.title)
    requires Lawful(h) && h.quality(Substitute(i)) >= 0.6
    ensures var s := Observe(i, h); s.title && s.present == ALL_FIELDS && RawScore(s) >= 79
  {
    VagueTaskIsFull(i, h);
    FullScore(Observe(i, h));
  }

  lemma SameSubstitute(i: Input)
    ensures Substitute(Bare(i)) == Substitute(i)
  {
  }

  lemma FullScore(s: Signals)
    requires s.title && 0.6 <= s.quality <= 1.0 && s.present == ALL_FIELDS
    ensures RawScore(s) >= 79
  {
    RoundMonotone(0.6, s.quality);
    assert Round(W_DESCRIPTION as real * 0.6) == 31;
  }

  /** The scorer's comment that deleting text never raises the score is not met: three vague
      terms without an anchor cap this task at 75, which without them scores more. The
      patterns find just that in its description, and its goal and context are rich. */
  lemma DeletingCanRaise(h: Heuristics, tables: Tables)
    requires Lawful(h)
    requires h.vagueHits(VAGUE_TEXT) >= 3 && h.anchors(VAGUE_TEXT) == 0 && h.quality(Substitute(VAGUE_TASK)) >= 0.6
    ensures Evaluate(Bare(VAGUE_TASK), h, tables).score > Evaluate(VAGUE_TASK, h, tables).score
  {
    HeadSurvives(VAGUE_TASK.title);
    VagueTextIsAmbiguous(h);
    RichTemplateRaises(VAGUE_TASK, h, tables);
  }

  /** The same of every task with this template and an ambiguous description. */
  lemma RichTemplateRaises(i: Input, h: Heuristics, tables: Tables)
    requires i.template == VAGUE_TASK.template && Has(i.title)
    requires Lawful(h) && h.quality(Substitute(i)) >= 0.6 && IsAmbiguous(Observe(i, h))
    ensures Evaluate(Bare(i), h, tables).score > Evaluate(i, h, tables).score
  {
    SameSubstitute(i);
    BareVagueTask(Bare(i), h);
    DeletingDescription(i, h, tables);
  }

  /** A scorer that meets these assumptions. */
  const SHARP: Heuristics := Heuristics(
    s => if Trim(s) == "" then 0.0 else 1.0, s => NotHeading, s => false, s => if s == "" then 0 else 3,
    s => 0, s => false, s => false, s => 0, (c, s) => false)

  lemma SubstituteStarts(i: Input, goal: string)
    requires goal == TemplateText(i, Goal) && goal != "" && !IsSpace(goal[0])
    ensures Has(Substitute(i))
  {
    HeadSurvives(goal);
    assert Substitute(i)[0] == goal[0];
    HeadSurvives(Substitute(i));
  }

  lemma SharpIsLawful()
    ensures Lawful(SHARP)
  {
    forall s
      ensures SHARP.quality(Trim(s)) == SHARP.quality(s)
    {
      if Trim(s) != "" { TrimmedIsKept(s); }
    }
  }

  lemma SharpRaises(i: Input, f: SpecField)
    requires i.template == VAGUE_TASK.template && f == Goal
    ensures SHARP.vagueHits(VAGUE_TEXT) >= 3 && SHARP.anchors(VAGUE_TEXT) == 0 && SHARP.quality(Substitute(i)) >= 0.6
  {
    assert TemplateText(i, f) == Prose(f);
    ProseStarts(f);
    SubstituteStarts(i, Prose(f));
  }

  // ---- What does not matter ----

  lemma SameObservation(i: Input, j: Input, h: Heuristics)
    requires i.title == j.title && i.description == j.description
    requires forall f :: TemplateText(i, f) == TemplateText(j, f)
    ensures Observe(i, h) == Observe(j, h)
  {
    assert Substitute(i) == Substitute(j);
    assert Observe(i, h).present == Observe(j, h).present;
  }

  /** The project's template moves the completeness subscore and nothing else. */
  lemma TemplateIndependent(i: Input, h: Heuristics, tables: Tables, other: set<SpecField>)
    ensures var a, b := Evaluate(i, h, tables), Evaluate(i.(templateFields := other), h, tables);
      b == a.(subscores := a.subscores.(completeness := Completeness(Observe(i, h), other)))
  {
    var j := i.(templateFields := other);
    assert forall f :: TemplateText(i, f) == TemplateText(j, f);
    SameObservation(i, j, h);
    assert RequiredFindings(j, h, tables) == RequiredFindings(i, h, tables);
    assert ComputeSubscores(j, h) == ComputeSubscores(i, h).(completeness := Completeness(Observe(i, h), other));
  }

  function WithType(i: Input, t: Option<TaskType>): Input {
    match i.template
    case None => i
    case Some(td) => i.(template := Some(td.(taskType := t)))
  }

  /** A task's type never moves score, missing fields, subscores or the blocking
      flag; it only escalates findings or adds to them. */
  lemma TaskTypeIndependent(i: Input, h: Heuristics, tables: Tables, t: Option<TaskType>)
    requires SparesAgentPrompt(tables)
    ensures var a, b := Evaluate(i, h, tables), Evaluate(WithType(i, t), h, tables);
      && b.score == a.score && b.missing == a.missing && b.subscores == a.subscores && b.blocking == a.blocking
      && Continues(UniversalFindings(Observe(i, h)), a.findings)
      && Continues(UniversalFindings(Observe(i, h)), b.findings)
  {
    TypeIsUnseen(i, h, t);
    BlockingIsKeystone(i, h, tables);
    BlockingIsKeystone(WithType(i, t), h, tables);
    RequiredContinue(i, h, tables);
    RequiredContinue(WithType(i, t), h, tables);
  }

  lemma TypeIsUnseen(i: Input, h: Heuristics, t: Option<TaskType>)
    ensures Observe(WithType(i, t), h) == Observe(i, h) && ComputeSubscores(WithType(i, t), h) == ComputeSubscores(i, h)
  {
    var j := WithType(i, t);
    assert forall f :: TemplateText(i, f) == TemplateText(j, f);
    SameObservation(i, j, h);
  }

  lemma RequiredContinue(i: Input, h: Heuristics, tables: Tables)
    ensures Continues(UniversalFindings(Observe(i, h)), Evaluate(i, h, tables).findings)
  {
    UniversalContinues(Observe(i, h));
    EscalateContinues(UniversalFindings(Observe(i, h)), RequiredFindings(i, h, tables));
  }

  // ---- A verification entry in the type tables is inert ----

  const VERIFICATION_SIGNAL := RequiredSignal(MissingAcceptanceCriteria, NeedsVerification)

  lemma {:induction false} EscalateAppend(findings: seq<Finding>, a: seq<Finding>, b: seq<Finding>)
    ensures Escalate(findings, a + b) == Escalate(Escalate(findings, a), b)
    decreases a
  {
    if a == [] {
      assert a + b == b;
    } else {
      assert (a + b)[1..] == a[1..] + b;
      EscalateAppend(EscalateOne(findings, a[0]), a[1..], b);
    }
  }

  lemma {:induction false} UnmetAppend(a: seq<RequiredSignal>, b: seq<RequiredSignal>, s: Signals, text: string,
                                       h: Heuristics)
    ensures Unmet(a + b, s, text, h) == Unmet(a, s, text, h) + Unmet(b, s, text, h)
  {
    if a == [] {
      assert a + b == b;
    } else {
      assert (a + b)[1..] == a[1..] + b;
      UnmetAppend(a[1..], b, s, text, h);
    }
  }

  /** Where the keystone finding already blocks, escalating it again changes nothing. */
  lemma EscalateBlocked(findings: seq<Finding>, k: nat, required: Finding)
    requires DistinctCodes(findings) && k < |findings|
    requires findings[k].code == required.code && findings[k].severity == Blocking
    ensures EscalateOne(findings, required) == findings
  {
    assert IndexOf(findings, required.code) == k;
  }

  lemma InertAt(i: Input, h: Heuristics, before: seq<RequiredSignal>, after: seq<RequiredSignal>)
    ensures var s, text := Observe(i, h), Trim(Text(i));
      Escalate(UniversalFindings(s), Unmet(before + [VERIFICATION_SIGNAL] + after, s, text, h)) ==
      Escalate(UniversalFindings(s), Unmet(before + after, s, text, h))
  {
    var s, text := Observe(i, h), Trim(Text(i));
    var universal := UniversalFindings(s);
    var first := Unmet(before, s, text, h);
    var extra := Unmet([VERIFICATION_SIGNAL], s, text, h);
    UnmetAppend(before, [VERIFICATION_SIGNAL], s, text, h);
    UnmetAppend(before + [VERIFICATION_SIGNAL], after, s, text, h);
    UnmetAppend(before, after, s, text, h);
    EscalateAppend(universal, first + extra, Unmet(after, s, text, h));
    EscalateAppend(universal, first, extra);
    EscalateAppend(universal, first, Unmet(after, s, text, h));
    if KeystoneViolated(s) {
      KeystoneStaysBlocked(s, first, extra[0]);
      assert extra[1..] == [];
    } else {
      assert first + extra == first;
    }
  }

  lemma KeystoneStaysBlocked(s: Signals, first: seq<Finding>, required: Finding)
    requires KeystoneViolated(s) && required.code == MissingAcceptanceCriteria
    ensures EscalateOne(Escalate(UniversalFindings(s), first), required) == Escalate(UniversalFindings(s), first)
  {
    var universal := UniversalFindings(s);
    UniversalContinues(s);
    EscalateContinues(universal, first);
    var k := KeystoneAt(s);
    BlockedStays(BuildFindings(s), universal, Escalate(universal, first), k, required);
  }

  lemma UniversalContinues(s: Signals)
    ensures Continues(BuildFindings(s), UniversalFindings(s)) && DistinctCodes(UniversalFindings(s))
  {
    BuildDistinct(s);
    MergeCapsContinues(BuildFindings(s), CapFindings(Triggered(CapRules(s))));
  }

  lemma KeystoneAt(s: Signals) returns (k: nat)
    requires KeystoneViolated(s)
    ensures k < |BuildFindings(s)|
    ensures BuildFindings(s)[k].code == MissingAcceptanceCriteria && BuildFindings(s)[k].severity == Blocking
  {
    BaseKeystones(s);
    k :| 0 <= k < |BuildFindings(s)| && BuildFindings(s)[k] == MissFinding(Section(AcceptanceCriteria), true);
  }

  lemma BlockedStays(base: seq<Finding>, universal: seq<Finding>, findings: seq<Finding>, k: nat, required: Finding)
    requires Continues(base, universal) && Continues(universal, findings)
    requires DistinctCodes(findings) && k < |base|
    requires base[k].code == required.code && base[k].severity == Blocking
    ensures EscalateOne(findings, required) == findings
  {
    ContinuesOn(base, universal, findings);
    assert NotLower(base[k].severity, findings[k].severity);
    EscalateBlocked(findings, k, required);
  }

  /** Tables that differ from `tables` by verification entries, at most one a type. */
  predicate AddsVerification(tables: Tables, more: Tables) {
    forall t: TaskType :: more(t) == tables(t) ||
      exists p: nat :: p <= |tables(t)| && more(t) == tables(t)[..p] + [VERIFICATION_SIGNAL] + tables(t)[p..]
  }

  /** Adding a missing_acceptance_criteria entry keyed on the verification signal to
      any type tables, anywhere, changes no part of any report. */
  lemma VerificationEntryIsInert(i: Input, h: Heuristics, tables: Tables, more: Tables)
    requires AddsVerification(tables, more)
    ensures Evaluate(i, h, more) == Evaluate(i, h, tables)
  {
    match TaskTypeOf(i)
    case None =>
    case Some(t) =>
      if more(t) != tables(t) {
        var p: nat :| p <= |tables(t)| && more(t) == tables(t)[..p] + [VERIFICATION_SIGNAL] + tables(t)[p..];
        assert tables(t) == tables(t)[..p] + tables(t)[p..];
        InertAt(i, h, tables(t)[..p], tables(t)[p..]);
      }
      assert FinalFindings(i, h, more) == FinalFindings(i, h, tables);
  }
}
