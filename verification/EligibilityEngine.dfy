/** The evaluator: evidence checks, subject resolution, operators, rule trees and the gate. */
module EligibilityEngine {
  import opened Wrappers
  import opened EligibilityModel

  // ----- src/qualor/eligibility/freshness.py

  const HOUR := 3600
  const DEFAULT_TTL := 24 * HOUR
  const NEAR_DEADLINE_TTL := 6 * HOUR
  const NEAR_DEADLINE_WINDOW := 72 * HOUR

  datatype Freshness = Fresh | Stale | FreshnessUnknown

  function TimeToLive(evaluatedAt: int, deadline: Option<Bound>, unknownDeadline: bool): int {
    match deadline
    case None => if unknownDeadline then NEAR_DEADLINE_TTL else DEFAULT_TTL
    case Some(Calendar(_)) => NEAR_DEADLINE_TTL
    case Some(Exact(at)) =>
      if unknownDeadline || at - evaluatedAt < NEAR_DEADLINE_WINDOW then NEAR_DEADLINE_TTL else DEFAULT_TTL
  }

  function EvaluateFreshness(
    retrievedAt: int, evaluatedAt: int, deadline: Option<Bound>, unknownDeadline: bool): Freshness
  {
    var age := evaluatedAt - retrievedAt;
    if age < 0 then FreshnessUnknown
    else if age < TimeToLive(evaluatedAt, deadline, unknownDeadline) then Fresh
    else Stale
  }

  // ----- src/qualor/eligibility/evidence.py

  predicate HardSource(s: SourceType) {
    s.OfficialRules? || s.OfficialFaq? || s.OfficialApplication?
  }

  predicate IsDeadlineBound(rule: Rule) {
    && rule.ruleType == Deadline
    && rule.operator == DateBetween
    && rule.subject == Some(EvaluatedAt)
    && |rule.operands| == 2
    && (rule.operands[1].Date? || rule.operands[1].Instant?)
  }

  function RuleBound(rule: Rule): seq<Bound> {
    if !IsDeadlineBound(rule) then []
    else match rule.operands[1]
      case Date(d) => [Calendar(d)]
      case Instant(t) => [Exact(t)]
      case _ => []
  }

  /** The bounds the visit of one rule adds, in the order they are met. */
  function VisitBounds(rule: Rule): seq<Bound>
    decreases rule
  {
    RuleBound(rule) + RuleBounds(rule.children)
  }

  function RuleBounds(rules: seq<Rule>): seq<Bound>
    decreases rules
  {
    if rules == [] then []
    else RuleBounds(rules[..|rules| - 1]) + VisitBounds(rules[|rules| - 1])
  }

  lemma RuleBoundsStep(base: seq<Bound>, rules: seq<Rule>, k: nat)
    requires k < |rules|
    ensures base + RuleBounds(rules[..k]) + VisitBounds(rules[k]) == base + RuleBounds(rules[..k + 1])
  {
    assert rules[..k + 1][..k] == rules[..k];
    AppendAssociates(base, RuleBounds(rules[..k]), VisitBounds(rules[k]));
  }

  method VisitDeadlines(rule: Rule, deadlines: seq<Bound>) returns (r: seq<Bound>)
    ensures r == deadlines + VisitBounds(rule)
    decreases rule
  {
    ghost var base := deadlines + RuleBound(rule);
    r := deadlines + RuleBound(rule);
    for k := 0 to |rule.children|
      invariant r == base + RuleBounds(rule.children[..k])
    {
      r := VisitDeadlines(rule.children[k], r);
      RuleBoundsStep(base, rule.children, k);
    }
    assert rule.children[..|rule.children|] == rule.children;
    AppendAssociates(deadlines, RuleBound(rule), RuleBounds(rule.children));
  }

  method EffectiveDeadlines(rules: seq<Rule>, context: Context) returns (r: seq<Bound>)
    ensures r == context.deadlines + RuleBounds(rules)
  {
    r := context.deadlines;
    for k := 0 to |rules|
      invariant r == context.deadlines + RuleBounds(rules[..k])
    {
      r := VisitDeadlines(rules[k], r);
      RuleBoundsStep(context.deadlines, rules, k);
    }
    assert rules[..|rules|] == rules;
  }

  /** The tightest bound: a calendar date wins, otherwise the earliest instant. */
  function TightestBound(deadlines: seq<Bound>): (r: Option<Bound>)
    ensures r.None? <==> deadlines == []
    ensures r.Some? ==> r.value in deadlines
    ensures r.Some? && r.value.Exact? ==>
              forall d :: d in deadlines ==> d.Exact? && r.value.second <= d.second
  {
    if deadlines == [] then None
    else
      var rest := TightestBound(deadlines[1..]);
      assert deadlines == [deadlines[0]] + deadlines[1..];
      if rest.None? || deadlines[0].Calendar? then Some(deadlines[0])
      else if rest.value.Calendar? then rest
      else if deadlines[0].second <= rest.value.second then Some(deadlines[0])
      else rest
  }

  /** The record with the given identifier; identifiers are unique in a context. */
  function Lookup(evidence: seq<Evidence>, id: string): (r: Option<Evidence>)
    ensures r.Some? ==> r.value in evidence && r.value.id == id
    ensures r.None? ==> forall e :: e in evidence ==> e.id != id
  {
    if evidence == [] then None
    else if evidence[|evidence| - 1].id == id then Some(evidence[|evidence| - 1])
    else Lookup(evidence[..|evidence| - 1], id)
  }

  predicate AcceptedSource(e: Evidence, mode: Mode) {
    HardSource(e.sourceType) || (e.sourceType.SyntheticFixture? && mode.FixtureMode?)
  }

  function EvidenceFreshness(e: Evidence, context: Context, deadlines: seq<Bound>): Freshness {
    EvaluateFreshness(e.retrievedAt, context.evaluatedAt, TightestBound(deadlines), deadlines == [])
  }

  /** The issues one cited identifier raises. */
  function CitationIssues(id: string, rule: Rule, context: Context, deadlines: seq<Bound>): seq<ReasonCode> {
    match Lookup(context.evidence, id)
    case None => [MissingEvidence]
    case Some(e) =>
      (if !AcceptedSource(e, context.mode) || e.normalizedField != rule.ruleType || !e.extraction.Reviewed?
       then [UnverifiedEvidence] else [])
      + match EvidenceFreshness(e, context, deadlines)
        case Stale => [StaleEvidence]
        case FreshnessUnknown => [UnverifiedEvidence]
        case Fresh => []
  }

  function CitedIssues(ids: seq<string>, rule: Rule, context: Context, deadlines: seq<Bound>): seq<ReasonCode> {
    if ids == [] then []
    else CitedIssues(ids[..|ids| - 1], rule, context, deadlines)
         + CitationIssues(ids[|ids| - 1], rule, context, deadlines)
  }

  function EvidenceIssuesOf(rule: Rule, context: Context, deadlines: seq<Bound>): seq<ReasonCode> {
    if rule.evidenceIds == [] then [MissingEvidence]
    else Distinct(CitedIssues(rule.evidenceIds, rule, context, deadlines))
  }

  /** The body of the loop: what one cited identifier adds, with the tightest deadline already chosen. */
  method InspectCitation(id: string, rule: Rule, context: Context, deadlines: seq<Bound>, deadline: Option<Bound>)
    returns (issues: seq<ReasonCode>)
    requires deadline == TightestBound(deadlines)
    ensures issues == CitationIssues(id, rule, context, deadlines)
  {
    var found := Lookup(context.evidence, id);
    if found.None? {
      return [MissingEvidence];
    }
    var e := found.value;
    issues := [];
    if !AcceptedSource(e, context.mode) || e.normalizedField != rule.ruleType || !e.extraction.Reviewed? {
      issues := issues + [UnverifiedEvidence];
    }
    var freshness := EvaluateFreshness(e.retrievedAt, context.evaluatedAt, deadline, deadlines == []);
    if freshness.Stale? {
      issues := issues + [StaleEvidence];
    } else if freshness.FreshnessUnknown? {
      issues := issues + [UnverifiedEvidence];
    }
  }

  method EvidenceIssues(rule: Rule, context: Context, deadlines: seq<Bound>) returns (r: seq<ReasonCode>)
    ensures r == EvidenceIssuesOf(rule, context, deadlines)
  {
    if rule.evidenceIds == [] {
      return [MissingEvidence];
    }
    var deadline := TightestBound(deadlines);
    var issues: seq<ReasonCode> := [];
    for k := 0 to |rule.evidenceIds|
      invariant issues == CitedIssues(rule.evidenceIds[..k], rule, context, deadlines)
    {
      assert rule.evidenceIds[..k + 1][..k] == rule.evidenceIds[..k];
      var found := InspectCitation(rule.evidenceIds[k], rule, context, deadlines, deadline);
      issues := issues + found;
    }
    assert rule.evidenceIds[..|rule.evidenceIds|] == rule.evidenceIds;
    r := Distinct(issues);
  }

  // ----- src/qualor/eligibility/subjects.py

  predicate SubjectAllowed(c: Category, s: Subject) {
    match c
    case Deadline => s.EvaluatedAt?
    case EntrantType => s.TeamSize? || s.LegalForm?
    case Geography => s.Residence? || s.Citizenship?
    case LegalEntity => s.LegalForm? || s.IncorporationDate?
    case ProjectPolicy => s.NewProject?
    case License => s.LicenseIntent? || s.OpenSource?
    case RequiredTechnology => s.TechnologyStack?
    case FinancialSupport => s.SponsorSupport?
    case RewardConditions => s.RewardMet?
  }

  function TextActual(f: Fact<string>): Actual { if f.Known() then One(Text(f.value.value)) else NoActual }
  function FlagActual(f: Fact<bool>): Actual { if f.Known() then One(Flag(f.value.value)) else NoActual }

  function FactActual(s: Subject, facts: Facts): Actual {
    match s
    case Residence => TextActual(facts.residence)
    case Citizenship => TextActual(facts.citizenship)
    case LegalForm => TextActual(facts.legalForm)
    case IncorporationDate =>
      if facts.incorporation.Known() then One(Date(facts.incorporation.value.value)) else NoActual
    case TeamSize => if facts.teamSize.Known() then One(Number(facts.teamSize.value.value)) else NoActual
    case OpenSource => FlagActual(facts.openSource)
    case NewProject => FlagActual(facts.newProject)
    case LicenseIntent => TextActual(facts.license)
    case TechnologyStack =>
      if facts.technologies.Known()
      then Many(seq(|facts.technologies.value.value|,
                    i requires 0 <= i < |facts.technologies.value.value| => Text(facts.technologies.value.value[i])))
      else NoActual
    case SponsorSupport => FlagActual(facts.sponsorSupport)
    case RewardMet => FlagActual(facts.rewardMet)
    case EvaluatedAt => NoActual
  }

  predicate NewProjectDocumented(facts: Facts) {
    && facts.codeProvenance.provenance.Documented?
    && facts.codeProvenance.value == Some(Original)
    && facts.newProject.provenance.Documented?
  }

  function ResolveSubject(rule: Rule, context: Context): (Actual, ReasonCode) {
    if rule.subject.None? || !SubjectAllowed(rule.ruleType, rule.subject.value) then (NoActual, Unsupported)
    else
      var subject := rule.subject.value;
      if subject.EvaluatedAt? then
        if !rule.operator.DateBetween? then (NoActual, Unsupported)
        else (One(Instant(context.evaluatedAt)), Match)
      else if subject.NewProject? && !NewProjectDocumented(context.facts) then (NoActual, ProvenanceRequired)
      else
        var actual := FactActual(subject, context.facts);
        if actual.NoActual? then (NoActual, MissingFact) else (actual, Match)
  }

  // ----- src/qualor/eligibility/operators.py

  function Verdict(matched: bool): RuleStatus { if matched then Pass else Fail }

  function CombineStatuses(op: Operator, statuses: seq<RuleStatus>): RuleStatus
    requires op.And? || op.Or?
  {
    if statuses == [] then Unknown
    else if op.And? then
      if Fail in statuses then Fail
      else if forall s :: s in statuses ==> s == Pass then Pass
      else Unknown
    else
      if Pass in statuses then Pass
      else if forall s :: s in statuses ==> s == Fail then Fail
      else Unknown
  }

  function CompareMany(op: Operator, values: seq<Scalar>, operands: seq<Scalar>): RuleStatus {
    if !op.In? || values == [] then Unknown
    else if exists x :: x in values + operands && !x.Text? then Unknown
    else Verdict(exists x :: x in values && x in operands)
  }

  function CompareOne(op: Operator, value: Scalar, operands: seq<Scalar>): RuleStatus
    requires operands != []
  {
    if exists o :: o in operands && !o.SameKind(value) then Unknown
    else
      assert operands[0] in operands;
      match op
      case In => Verdict(value in operands)
      case NotIn => Verdict(value !in operands)
      case Eq => if |operands| != 1 then Unknown else Verdict(value == operands[0])
      case BoolIs => if |operands| != 1 || !value.Flag? then Unknown else Verdict(value == operands[0])
      case Gte => if !value.Number? || |operands| != 1 then Unknown else Verdict(operands[0].AtMost(value))
      case Lte => if !value.Number? || |operands| != 1 then Unknown else Verdict(value.AtMost(operands[0]))
      case Between => if value.Number? then CompareRange(value, operands) else Unknown
      case DateBetween => if value.Date? || value.Instant? then CompareRange(value, operands) else Unknown
      case And => Unknown
      case Or => Unknown
  }

  function CompareRange(value: Scalar, operands: seq<Scalar>): RuleStatus
    requires value.Number? || value.Date? || value.Instant?
    requires forall o :: o in operands ==> o.SameKind(value)
  {
    if |operands| != 2 then Unknown
    else
      assert operands[0].SameKind(value) && operands[1].SameKind(value);
      if !operands[0].AtMost(operands[1]) then Unknown
      else Verdict(operands[0].AtMost(value) && value.AtMost(operands[1]))
  }

  function EvaluateOperator(
    op: Operator, actual: Actual, operands: seq<Scalar>, statuses: seq<RuleStatus>): RuleStatus
  {
    if op.And? || op.Or? then
      if actual != NoActual || operands != [] then Unknown else CombineStatuses(op, statuses)
    else if actual.NoActual? || operands == [] || statuses != [] then Unknown
    else match actual
      case Many(values) => CompareMany(op, values, operands)
      case One(value) => CompareOne(op, value, operands)
      case NoActual => Unknown
  }

  // ----- src/qualor/eligibility/engine.py

  predicate Masking(c: ReasonCode) { c.StaleEvidence? || c.Conflict? }

  /** The stale and conflict codes of the children, in order. */
  function InheritedIssues(children: seq<Evaluation>): seq<ReasonCode> {
    if children == [] then []
    else InheritedIssues(children[..|children| - 1]) + MaskingCodes(children[|children| - 1].codes)
  }

  function MaskingCodes(codes: seq<ReasonCode>): (r: seq<ReasonCode>)
    ensures forall c :: c in r <==> c in codes && Masking(c)
  {
    if codes == [] then []
    else
      assert codes == codes[..|codes| - 1] + [codes[|codes| - 1]];
      MaskingCodes(codes[..|codes| - 1])
      + if Masking(codes[|codes| - 1]) then [codes[|codes| - 1]] else []
  }

  function OwnIssues(rule: Rule, context: Context, deadlines: seq<Bound>): seq<ReasonCode> {
    EvidenceIssuesOf(rule, context, deadlines)
    + (if rule.contradiction then [Conflict] else [])
    + (if !rule.supported then [Unsupported] else [])
  }

  /** A composite that names a subject or operands, or mixes categories. */
  predicate MalformedComposite(rule: Rule) {
    || rule.subject.Some?
    || rule.operands != []
    || exists c :: c in rule.children && c.ruleType != rule.ruleType
  }

  /** The expression's own status and the issues it adds, before any masking. */
  function Expression(rule: Rule, context: Context, children: seq<Evaluation>): (RuleStatus, seq<ReasonCode>) {
    if rule.Composite() then
      (EvaluateOperator(rule.operator, NoActual, [], Statuses(children)),
       InheritedIssues(children) + if MalformedComposite(rule) then [InvalidOperands] else [])
    else if rule.children != [] then (Unknown, [InvalidOperands])
    else
      var (actual, reason) := ResolveSubject(rule, context);
      var status := EvaluateOperator(rule.operator, actual, rule.operands, []);
      (status,
       if status.Unknown? && rule.naReason.None?
       then [if actual.NoActual? then reason else InvalidOperands] else [])
  }

  function Statuses(evaluations: seq<Evaluation>): (r: seq<RuleStatus>)
    ensures |r| == |evaluations| && forall i :: 0 <= i < |r| ==> r[i] == evaluations[i].status
  {
    seq(|evaluations|, i requires 0 <= i < |evaluations| => evaluations[i].status)
  }

  function DefaultCode(status: RuleStatus): ReasonCode {
    match status
    case Pass => Match
    case Fail => Mismatch
    case Unknown => CriticalUnknown
    case NotApplicable => ExplicitNotApplicable
  }

  function Evaluate(rule: Rule, context: Context, deadlines: seq<Bound>): Evaluation
  {
    var children :=
      seq(|rule.children|, i requires 0 <= i < |rule.children| => Evaluate(rule.children[i], context, deadlines));
    var (expressed, added) := Expression(rule, context, children);
    var (status, codes) := Conclude(rule, OwnIssues(rule, context, deadlines), expressed, added);
    Evaluation(rule.id, status, codes, children)
  }

  /** Issues turn a verdict into UNKNOWN unless a composite failure is already confirmed. */
  function Conclude(
    rule: Rule, own: seq<ReasonCode>, expressed: RuleStatus, added: seq<ReasonCode>): (RuleStatus, seq<ReasonCode>)
  {
    var issues := own + added;
    var confirmedFail :=
      rule.Composite() && expressed.Fail? && own == [] && InvalidOperands !in issues;
    var status :=
      if issues != [] && !confirmedFail then Unknown
      else if rule.naReason.Some? then NotApplicable
      else expressed;
    var reported :=
      if confirmedFail && issues != [] then [Mismatch] + issues
      else if issues == [] then [DefaultCode(status)]
      else issues;
    (status, Distinct(reported))
  }

  function EvaluateAll(rules: seq<Rule>, context: Context, deadlines: seq<Bound>): seq<Evaluation> {
    seq(|rules|, i requires 0 <= i < |rules| => Evaluate(rules[i], context, deadlines))
  }

  const MAX_DEPTH := 16
  const MAX_RULES := 500

  predicate SoundReason(rule: Rule) {
    rule.naReason.Some? ==> rule.subject.None? && rule.operands == [] && rule.children == []
  }

  /** The visit of one rule; `None` stands for the ValueError it raises. */
  function Visit(rule: Rule, depth: nat, seen: set<string>): Option<set<string>>
    decreases rule, 2
  {
    if depth > MAX_DEPTH || |seen| >= MAX_RULES || rule.id in seen then None
    else VisitChildren(rule, rule.children, depth, seen + {rule.id})
  }

  function VisitChildren(rule: Rule, children: seq<Rule>, depth: nat, seen: set<string>): Option<set<string>>
    requires forall c :: c in children ==> c in rule.children
    decreases rule, 1, |children|
  {
    if children == [] then Some(seen)
    else if children[0].criticality != rule.criticality then None
    else
      assert children[0] in children;
      match Visit(children[0], depth + 1, seen)
      case None => None
      case Some(s) => VisitChildren(rule, children[1..], depth, s)
  }

  function VisitRules(rules: seq<Rule>, seen: set<string>): Option<set<string>> {
    if rules == [] then Some(seen)
    else match Visit(rules[0], 0, seen)
      case None => None
      case Some(s) => VisitRules(rules[1..], s)
  }

  predicate SoundReasons(rule: Rule) {
    SoundReason(rule) && forall c :: c in rule.children ==> SoundReasons(c)
  }

  /** `_validated_rules`: the rules are accepted unless a contract or some visit raises. */
  predicate Accepted(rules: seq<Rule>) {
    (forall r :: r in rules ==> SoundReasons(r)) && VisitRules(rules, {}).Some?
  }

  // ----- src/qualor/eligibility/coverage.py

  function CoveragePairs(rules: seq<Rule>, evaluations: seq<Evaluation>, category: Category): seq<(Rule, Evaluation)>
    requires |rules| == |evaluations|
  {
    if rules == [] then []
    else
      var n := |rules| - 1;
      CoveragePairs(rules[..n], evaluations[..n], category)
      + if rules[n].criticality.Critical? && rules[n].ruleType == category then [(rules[n], evaluations[n])] else []
  }

  function PairReasons(pairs: seq<(Rule, Evaluation)>): seq<string> {
    if pairs == [] then []
    else
      var n := |pairs| - 1;
      PairReasons(pairs[..n]) + if pairs[n].0.naReason.Some? then [pairs[n].0.naReason.value] else []
  }

  function StateOf(pairs: seq<(Rule, Evaluation)>): CoverageState {
    if pairs == [] then CoverageMissing
    else if exists p :: p in pairs && p.1.status.Unknown? then CoverageUnknown
    else if forall p :: p in pairs ==> p.1.status.NotApplicable? then
      if |PairReasons(pairs)| == |pairs| then CoverageNotApplicable else CoverageUnknown
    else Evaluated
  }

  function EntryFor(rules: seq<Rule>, evaluations: seq<Evaluation>, category: Category): CoverageEntry
    requires |rules| == |evaluations|
  {
    var pairs := CoveragePairs(rules, evaluations, category);
    CoverageEntry(
      category, StateOf(pairs), seq(|pairs|, i requires 0 <= i < |pairs| => pairs[i].0.id), PairReasons(pairs))
  }

  function CoverageOf(rules: seq<Rule>, evaluations: seq<Evaluation>): seq<CoverageEntry>
    requires |rules| == |evaluations|
  {
    seq(|REQUIRED_CATEGORIES|,
        i requires 0 <= i < |REQUIRED_CATEGORIES| => EntryFor(rules, evaluations, REQUIRED_CATEGORIES[i]))
  }

  method EvaluateCoverage(rules: seq<Rule>, evaluations: seq<Evaluation>)
    returns (r: Result<seq<CoverageEntry>, string>)
    ensures r.Ok? <==>
            |rules| == |evaluations| && forall i :: 0 <= i < |rules| ==> rules[i].id == evaluations[i].ruleId
    ensures r.Ok? ==> r.value == CoverageOf(rules, evaluations)
  {
    if |rules| != |evaluations| {
      return Err("Coverage requires corresponding evaluations in rule order");
    }
    for k := 0 to |rules|
      invariant forall i :: 0 <= i < k ==> rules[i].id == evaluations[i].ruleId
    {
      if rules[k].id != evaluations[k].ruleId {
        return Err("Coverage requires corresponding evaluations in rule order");
      }
    }
    var entries := CoverageEntries(rules, evaluations);
    r := Ok(entries);
  }

  method CoverageEntries(rules: seq<Rule>, evaluations: seq<Evaluation>) returns (entries: seq<CoverageEntry>)
    requires |rules| == |evaluations|
    ensures entries == CoverageOf(rules, evaluations)
  {
    entries := [];
    for k := 0 to |REQUIRED_CATEGORIES|
      invariant |entries| == k
      invariant forall i :: 0 <= i < k ==> entries[i] == EntryFor(rules, evaluations, REQUIRED_CATEGORIES[i])
    {
      var entry := EntryFor(rules, evaluations, REQUIRED_CATEGORIES[k]);
      entries := entries + [entry];
    }
  }

  // ----- the aggregate gate

  function CriticalOf(rules: seq<Rule>, evaluations: seq<Evaluation>): seq<Evaluation>
    requires |rules| == |evaluations|
  {
    if rules == [] then []
    else
      var n := |rules| - 1;
      CriticalOf(rules[..n], evaluations[..n]) + if rules[n].criticality.Critical? then [evaluations[n]] else []
  }

  function UncoveredCategories(entries: seq<CoverageEntry>): seq<Missing> {
    if entries == [] then []
    else
      var n := |entries| - 1;
      UncoveredCategories(entries[..n])
      + if entries[n].state.CoverageMissing? || entries[n].state.CoverageUnknown?
        then [MissingCategory(entries[n].category)] else []
  }

  function UnknownRules(critical: seq<Evaluation>): seq<Missing> {
    if critical == [] then []
    else
      var n := |critical| - 1;
      UnknownRules(critical[..n]) + if critical[n].status.Unknown? then [MissingRule(critical[n].ruleId)] else []
  }

  function NonMatchCodes(critical: seq<Evaluation>): seq<ReasonCode> {
    if critical == [] then []
    else
      var n := |critical| - 1;
      NonMatchCodes(critical[..n]) + WithoutMatch(critical[n].codes)
  }

  function WithoutMatch(codes: seq<ReasonCode>): seq<ReasonCode> {
    if codes == [] then []
    else
      var n := |codes| - 1;
      WithoutMatch(codes[..n]) + if codes[n].Match? then [] else [codes[n]]
  }

  /** The gate that a list of evaluations yields. */
  function GateStateOf(rules: seq<Rule>, critical: seq<Evaluation>, missing: seq<Missing>): GateState {
    if exists e :: e in critical && e.status.Fail? then GateFail
    else if rules == [] || missing != [] || exists e :: e in critical && e.status.Unknown? then ReviewRequired
    else GatePass
  }

  function GateOf(rules: seq<Rule>, evaluations: seq<Evaluation>): Gate
    requires |rules| == |evaluations|
  {
    var coverage := CoverageOf(rules, evaluations);
    var critical := CriticalOf(rules, evaluations);
    var missing := UncoveredCategories(coverage) + UnknownRules(critical);
    var codes :=
      NonMatchCodes(critical)
      + (if rules == [] then [EmptyRuleSet] else [])
      + (if missing != [] then [IncompleteCoverage] else []);
    Gate(GateStateOf(rules, critical, missing), evaluations, coverage, Distinct(missing), Distinct(codes))
  }

  /** `aggregate_eligibility`; rejected rule sets raise, here `None`. */
  function Aggregate(rules: seq<Rule>, context: Context): Option<Gate> {
    if !Accepted(rules) then None
    else Some(GateOf(rules, EvaluateAll(rules, context, context.deadlines + RuleBounds(rules))))
  }
}
