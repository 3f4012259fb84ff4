/**
 The confidence scorer: a fixed-denominator score, a layer of caps and a list of
 findings merged in place. The text patterns are parameters.
 */
module Confidence {
  import opened Basics
  import opened SpecSections
  import opened Trimming

  datatype TaskType = Bugfix | Feature | Refactoring | Security | MigrationTask | Docs

  datatype TemplateData = TemplateData(fields: map<SpecField, string>, taskType: Option<TaskType>)

  /** `templateFields` holds the fields the project's template marks as required. */
  datatype Input = Input(title: string, description: Option<string>, template: Option<TemplateData>,
                         templateFields: set<SpecField>)

  datatype Code =
    | MissingTitle | MissingDescription | MissingGoal | MissingAcceptanceCriteria | MissingScope
    | MissingOutOfScope | MissingDependencies | MissingRisk | MissingAgentPrompt
    | VagueLanguage | NoConcreteAnchors
    | AmbiguousScope | LowTestability | LowScopeClarity | LowConcreteness
    | MissingConstraints | MissingRollback
    | ActualBehavior | ExpectedBehavior | ReproductionSteps | ErrorOrSymptom | AffectedEnvironment
    | UxApiExpectations
    | Purpose | BehaviorPreservation | RegressionStrategy
    | SecurityGoal | AffectedAsset | ThreatOrRisk | ReviewRequirement
    | CurrentState | TargetState | Compatibility | DeploymentImpact | OperationalRisk
    | TargetAudience | SourceOfTruth | Format | ReviewOwner

  datatype Severity = Info | Warning | Blocking

  /** A suggestion: the entry's own advice and the ceilings appended to it. */
  datatype Hint = Advice(code: Code) | Ceiling(cap: nat)

  datatype Finding = Finding(code: Code, severity: Severity, keystone: bool, suggestion: seq<Hint>)

  /** The text heuristics: every regular expression the scorer uses, and the
      description quality. */
  datatype Heuristics = Heuristics(
    quality: string -> real,
    heading: string -> Heading,
    verifies: string -> bool,
    vagueHits: string -> nat,
    anchors: string -> nat,
    testWords: string -> bool,
    scopeMarkers: string -> bool,
    structure: string -> nat,
    keyword: (Code, string) -> bool)

  /** What holds of the actual patterns: quality is a fraction of the trimmed text
      and none of them finds anything in an empty text. */
  ghost predicate Lawful(h: Heuristics) {
    && (forall s :: 0.0 <= h.quality(s) <= 1.0 && h.quality(Trim(s)) == h.quality(s))
    && h.quality("") == 0.0 && h.heading("") == NotHeading
    && !h.verifies("") && h.vagueHits("") == 0 && h.anchors("") == 0 && !h.testWords("") && !h.scopeMarkers("")
  }

  // ---- What the scorer sees ----

  function Text(i: Input): string {
    match i.description { case None => "" case Some(d) => d }
  }

  function Has(s: string): bool {
    Trim(s) != ""
  }

  function TemplateText(i: Input, f: SpecField): string {
    match i.template
    case Some(td) => if f in td.fields then td.fields[f] else ""
    case None => ""
  }

  /** Some heading in the description has a non-empty section for the field. */
  predicate HasSection(text: string, heading: string -> Heading, f: SpecField) {
    exists k :: 0 <= k < |Lines(text)| && Fills(Lines(text), heading, k, f)
  }

  predicate Present(i: Input, h: Heuristics, f: SpecField) {
    Has(TemplateText(i, f)) || HasSection(Text(i), h.heading, f)
  }

  /** Goal and context of the template, which can stand in for a description. */
  function Substitute(i: Input): string {
    var goal, context := TemplateText(i, Goal), TemplateText(i, Context);
    var joined := if Has(goal) && Has(context) then goal + "\n\n" + context
                  else if Has(goal) then goal else if Has(context) then context else "";
    if |joined| <= 10_000 then joined else joined[..10_000]
  }

  function MaxReal(a: real, b: real): real {
    if a >= b then a else b
  }

  const ALL_FIELDS: set<SpecField> :=
    {Goal, AcceptanceCriteria, Scope, OutOfScope, Dependencies, Risk, AgentPrompt, Context, Constraints}

  datatype Signals = Signals(
    title: bool, description: bool, quality: real, present: set<SpecField>,
    verification: bool, vague: nat, anchors: nat, testWords: bool, scopeMarkers: bool)

  function PresentFields(i: Input, h: Heuristics): set<SpecField> {
    set f | f in ALL_FIELDS && Present(i, h, f)
  }

  function Observe(i: Input, h: Heuristics): Signals {
    var text := Trim(Text(i));
    Signals(
      Has(i.title), text != "", MaxReal(h.quality(Text(i)), h.quality(Substitute(i))),
      PresentFields(i, h),
      text != "" && h.verifies(text), if text != "" then h.vagueHits(text) else 0,
      h.anchors(text), h.testWords(text), h.scopeMarkers(text))
  }

  // ---- Score ----

  const W_TITLE: nat := 10
  const W_DESCRIPTION: nat := 52
  const W_GOAL: nat := 6
  const W_EVALS: nat := 16
  const W_AGENT_PROMPT: nat := 3
  const W_SCOPE: nat := 6
  const W_OUT_OF_SCOPE: nat := 3
  const W_DEPENDENCIES: nat := 2
  const W_RISK: nat := 2
  const EVALS_PARTIAL: nat := 8
  const EVALS_KEYSTONE_CAP: nat := 55

  /** `Math.round`. */
  function Round(x: real): int {
    (x + 0.5).Floor
  }

  function Points(condition: bool, weight: nat): nat {
    if condition then weight else 0
  }

  function BoundaryPoints(s: Signals): int {
    Points(Scope in s.present, W_SCOPE) + Points(OutOfScope in s.present, W_OUT_OF_SCOPE)
    + Points(Dependencies in s.present, W_DEPENDENCIES) + Points(Risk in s.present, W_RISK)
    + Points(AgentPrompt in s.present, W_AGENT_PROMPT)
  }

  function Earned(s: Signals): int {
    Points(s.title, W_TITLE) + Round(W_DESCRIPTION as real * s.quality) + Points(Goal in s.present, W_GOAL)
    + (if AcceptanceCriteria in s.present then W_EVALS else Points(s.verification, EVALS_PARTIAL))
    + BoundaryPoints(s)
  }

  function RawScore(s: Signals): int {
    Max(0, Min(100, Earned(s)))
  }

  predicate KeystoneViolated(s: Signals) {
    AcceptanceCriteria !in s.present && !s.verification
  }

  // ---- Subscores ----

  datatype Subscores = Subscores(completeness: int, concreteness: nat, testability: nat, scopeClarity: nat,
                                 contextQuality: int, structure: int, ambiguityRisk: int)

  function Concreteness(s: Signals): nat {
    if s.anchors * 25 < 100 then s.anchors * 25 else 100
  }

  function Testability(s: Signals): nat {
    if AcceptanceCriteria in s.present then 100 else Points(s.testWords, 60)
  }

  function ScopeClarity(s: Signals): nat {
    if Constraints in s.present then 100 else Points(s.scopeMarkers, 60)
  }

  function AmbiguityRisk(s: Signals): int {
    Max(100 - s.vague * 10, 0)
  }

  /** Present required fields as a percentage; only title, description and the four
      template fields the subscore knows count. */
  function Completeness(s: Signals, templateFields: set<SpecField>): int {
    var required := templateFields * {Goal, AcceptanceCriteria, Context, Constraints};
    var met := |required * s.present| + Points(s.title, 1) + Points(s.description, 1);
    Round(met as real / (|required| + 2) as real * 100.0)
  }

  function ComputeSubscores(i: Input, h: Heuristics): Subscores {
    var s, text := Observe(i, h), Trim(Text(i));
    Subscores(
      Completeness(s, i.templateFields), Concreteness(s), Testability(s), ScopeClarity(s),
      if Context in s.present then 100
      else if s.description then Min(Round(|text| as real / 300.0 * 70.0), 70) else 0,
      if s.description then Min(h.structure(text), 100) else 0,
      AmbiguityRisk(s))
  }

  // ---- Caps ----

  datatype CapRule = CapRule(cap: nat, applies: bool, code: Code)

  predicate IsThin(s: Signals) {
    s.quality < 0.4
  }

  predicate IsAmbiguous(s: Signals) {
    s.vague >= 3 && s.anchors == 0
  }

  function CapRules(s: Signals): seq<CapRule> {
    [CapRule(30, !s.title, MissingTitle),
     CapRule(40, !s.description && IsThin(s), MissingDescription),
     CapRule(EVALS_KEYSTONE_CAP, KeystoneViolated(s), MissingAcceptanceCriteria),
     CapRule(75, IsAmbiguous(s), AmbiguousScope),
     CapRule(70, Testability(s) < 60, LowTestability),
     CapRule(75, ScopeClarity(s) < 60, LowScopeClarity),
     CapRule(80, Concreteness(s) == 0, LowConcreteness)]
  }

  function Triggered(rules: seq<CapRule>): seq<CapRule> {
    if rules == [] then [] else (if rules[0].applies then [rules[0]] else []) + Triggered(rules[1..])
  }

  /** The strictest triggered cap, or the raw score when none is lower. */
  function Capped(score: int, triggered: seq<CapRule>): int {
    if triggered == [] then score else Capped(Min(score, triggered[0].cap), triggered[1..])
  }

  function Score(s: Signals): int {
    Capped(RawScore(s), Triggered(CapRules(s)))
  }

  function CapFindings(triggered: seq<CapRule>): seq<Finding> {
    if triggered == [] then []
    else [Finding(triggered[0].code, Warning, false, [Ceiling(triggered[0].cap)])] + CapFindings(triggered[1..])
  }

  // ---- Missing fields and their findings ----

  datatype CoreField = Title | Description | Section(field: SpecField)

  function Absent(condition: bool, field: CoreField): seq<CoreField> {
    if condition then [] else [field]
  }

  function MissingEssentials(s: Signals): seq<CoreField> {
    Absent(s.title, Title) + Absent(!IsThin(s), Description) + Absent(Goal in s.present, Section(Goal))
    + Absent(AcceptanceCriteria in s.present, Section(AcceptanceCriteria))
  }

  function MissingBoundaries(s: Signals): seq<CoreField> {
    Absent(Scope in s.present, Section(Scope)) + Absent(OutOfScope in s.present, Section(OutOfScope))
    + Absent(Dependencies in s.present, Section(Dependencies)) + Absent(Risk in s.present, Section(Risk))
    + Absent(AgentPrompt in s.present, Section(AgentPrompt))
  }

  /** Every absent core field, in surfacing order. */
  function Missing(s: Signals): seq<CoreField> {
    MissingEssentials(s) + MissingBoundaries(s)
  }

  function MissCode(field: CoreField): Code {
    match field
    case Title => MissingTitle
    case Description => MissingDescription
    case Section(f) =>
      match f
      case Goal => MissingGoal
      case AcceptanceCriteria => MissingAcceptanceCriteria
      case Scope => MissingScope
      case OutOfScope => MissingOutOfScope
      case Dependencies => MissingDependencies
      case Risk => MissingRisk
      case AgentPrompt => MissingAgentPrompt
      case Context => MissingDescription
      case Constraints => MissingConstraints
  }

  /** The finding of a missing field. The evals keystone is hard only when there is
      no verification path at all. */
  function MissFinding(field: CoreField, violated: bool): Finding {
    var code := MissCode(field);
    var severity := match code
      case MissingTitle => Blocking
      case MissingDescription => Blocking
      case MissingAcceptanceCriteria => if violated then Blocking else Warning
      case MissingOutOfScope => Info
      case MissingDependencies => Info
      case MissingRisk => Info
      case _ => Warning;
    Finding(code, severity, code == MissingAgentPrompt || (code == MissingAcceptanceCriteria && violated),
            [Advice(code)])
  }

  function MissFindings(missing: seq<CoreField>, violated: bool): seq<Finding> {
    seq(|missing|, k requires 0 <= k < |missing| => MissFinding(missing[k], violated))
  }

  function VagueFindings(s: Signals): seq<Finding> {
    if s.description && AmbiguityRisk(s) < 70 then [Finding(VagueLanguage, Warning, false, [Advice(VagueLanguage)])]
    else []
  }

  function UnanchoredFindings(s: Signals): seq<Finding> {
    if s.description && Concreteness(s) == 0 then
      [Finding(NoConcreteAnchors, Warning, false, [Advice(NoConcreteAnchors)])]
    else []
  }

  function BuildFindings(s: Signals): seq<Finding> {
    MissFindings(Missing(s), KeystoneViolated(s))
    + VagueFindings(s) + UnanchoredFindings(s)
  }

  // ---- Merging findings ----

  function IndexOf(findings: seq<Finding>, code: Code): (k: nat)
    ensures k <= |findings|
    ensures k < |findings| ==> findings[k].code == code
    ensures forall j :: 0 <= j < k ==> findings[j].code != code
  {
    if findings == [] || findings[0].code == code then 0 else 1 + IndexOf(findings[1..], code)
  }

  /** A cap finding joins an entry of its code by appending its ceiling, once. */
  function MergeCap(findings: seq<Finding>, cap: Finding): seq<Finding> {
    var k := IndexOf(findings, cap.code);
    if k == |findings| then findings + [cap]
    else if forall hint :: hint in cap.suggestion ==> hint in findings[k].suggestion then findings
    else findings[k := findings[k].(suggestion := findings[k].suggestion + cap.suggestion)]
  }

  function MergeCaps(findings: seq<Finding>, caps: seq<Finding>): seq<Finding>
    decreases caps
  {
    if caps == [] then findings else MergeCaps(MergeCap(findings, caps[0]), caps[1..])
  }

  /** A required-signal finding escalates an entry of its code to blocking. */
  function EscalateOne(findings: seq<Finding>, required: Finding): seq<Finding> {
    var k := IndexOf(findings, required.code);
    if k == |findings| then findings + [required] else findings[k := findings[k].(severity := Blocking)]
  }

  function Escalate(findings: seq<Finding>, required: seq<Finding>): seq<Finding>
    decreases required
  {
    if required == [] then findings else Escalate(EscalateOne(findings, required[0]), required[1..])
  }

  // ---- Required signals per task type ----

  datatype Need = NeedsField(field: SpecField) | NeedsVerification | NeedsKeyword

  datatype RequiredSignal = RequiredSignal(code: Code, need: Need)

  type Tables = TaskType -> seq<RequiredSignal>

  function ByKeyword(code: Code): RequiredSignal {
    RequiredSignal(code, NeedsKeyword)
  }

  function RequiredByType(t: TaskType): seq<RequiredSignal> {
    match t
    case Bugfix =>
      [ByKeyword(ActualBehavior), ByKeyword(ExpectedBehavior), ByKeyword(ReproductionSteps),
       ByKeyword(ErrorOrSymptom), ByKeyword(AffectedEnvironment)]
    case Feature =>
      [RequiredSignal(MissingGoal, NeedsField(Goal)), RequiredSignal(MissingScope, NeedsField(Scope)),
       RequiredSignal(MissingAcceptanceCriteria, NeedsField(AcceptanceCriteria)),
       RequiredSignal(MissingConstraints, NeedsField(Constraints)), ByKeyword(UxApiExpectations)]
    case Refactoring =>
      [ByKeyword(Purpose), RequiredSignal(MissingScope, NeedsField(Scope)),
       RequiredSignal(MissingOutOfScope, NeedsField(OutOfScope)), ByKeyword(BehaviorPreservation),
       ByKeyword(RegressionStrategy), RequiredSignal(MissingRisk, NeedsField(Risk))]
    case Security =>
      [ByKeyword(SecurityGoal), ByKeyword(AffectedAsset), ByKeyword(ThreatOrRisk),
       RequiredSignal(MissingConstraints, NeedsField(Constraints)),
       ByKeyword(ReviewRequirement), ByKeyword(MissingRollback)]
    case MigrationTask =>
      [ByKeyword(CurrentState), ByKeyword(TargetState), ByKeyword(Compatibility), ByKeyword(MissingRollback),
       ByKeyword(DeploymentImpact), ByKeyword(OperationalRisk)]
    case Docs =>
      [ByKeyword(TargetAudience), ByKeyword(SourceOfTruth), RequiredSignal(MissingScope, NeedsField(Scope)),
       ByKeyword(Format), RequiredSignal(MissingAcceptanceCriteria, NeedsField(AcceptanceCriteria)),
       ByKeyword(ReviewOwner)]
  }

  predicate IsMet(signal: RequiredSignal, s: Signals, text: string, h: Heuristics) {
    match signal.need
    case NeedsField(f) => f in s.present
    case NeedsVerification => !KeystoneViolated(s)
    case NeedsKeyword => h.keyword(signal.code, text)
  }

  function Unmet(signals: seq<RequiredSignal>, s: Signals, text: string, h: Heuristics): seq<Finding> {
    if signals == [] then []
    else
      (if IsMet(signals[0], s, text, h) then []
       else [Finding(signals[0].code, Blocking, false, [Advice(signals[0].code)])])
      + Unmet(signals[1..], s, text, h)
  }

  function TaskTypeOf(i: Input): Option<TaskType> {
    match i.template { case None => None case Some(td) => td.taskType }
  }

  function RequiredFindings(i: Input, h: Heuristics, tables: Tables): seq<Finding> {
    match TaskTypeOf(i)
    case None => []
    case Some(t) => Unmet(tables(t), Observe(i, h), Trim(Text(i)), h)
  }

  // ---- The whole report ----

  datatype Report = Report(score: int, missing: seq<CoreField>, subscores: Subscores, findings: seq<Finding>,
                           blocking: bool, inferredTaskType: Option<TaskType>)

  /** The universal findings with the cap layer merged in. */
  function UniversalFindings(s: Signals): seq<Finding> {
    MergeCaps(BuildFindings(s), CapFindings(Triggered(CapRules(s))))
  }

  function FinalFindings(i: Input, h: Heuristics, tables: Tables): seq<Finding> {
    Escalate(UniversalFindings(Observe(i, h)), RequiredFindings(i, h, tables))
  }

  predicate IsBlocking(findings: seq<Finding>) {
    exists k :: 0 <= k < |findings| && findings[k].keystone && findings[k].severity == Blocking
  }

  function Evaluate(i: Input, h: Heuristics, tables: Tables): Report {
    var s := Observe(i, h);
    var findings := FinalFindings(i, h, tables);
    Report(Score(s), Missing(s), ComputeSubscores(i, h), findings, IsBlocking(findings), TaskTypeOf(i))
  }
}
