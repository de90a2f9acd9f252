/** Records and enumerations of the eligibility evaluator (src/qualor/domain). */
module EligibilityModel {
  import opened Wrappers

  datatype Category =
    | Deadline | EntrantType | Geography | LegalEntity | ProjectPolicy
    | License | RequiredTechnology | FinancialSupport | RewardConditions

  const REQUIRED_CATEGORIES: seq<Category> :=
    [Deadline, EntrantType, Geography, LegalEntity, ProjectPolicy,
     License, RequiredTechnology, FinancialSupport, RewardConditions]

  datatype Operator = Eq | In | NotIn | Gte | Lte | Between | DateBetween | BoolIs | And | Or

  datatype Criticality = Critical | NonCritical

  datatype RuleStatus = Pass | Fail | Unknown | NotApplicable

  datatype ReasonCode =
    | Match | Mismatch | MissingFact | Unsupported | InvalidOperands | MissingEvidence
    | UnverifiedEvidence | StaleEvidence | Conflict | ProvenanceRequired
    | ExplicitNotApplicable | IncompleteCoverage | EmptyRuleSet | CriticalUnknown

  datatype Subject =
    | Residence | Citizenship | LegalForm | IncorporationDate | TeamSize | OpenSource
    | NewProject | LicenseIntent | TechnologyStack | SponsorSupport | RewardMet | EvaluatedAt

  datatype SourceType =
    | OfficialRules | OfficialFaq | OfficialApplication | OfficialAnnouncement
    | OtherOfficial | ThirdParty | SyntheticFixture | SearchSnippet

  datatype ExtractionState = Reviewed | Unverified | ExtractionFailed

  datatype Mode = FixtureMode | ReplayMode | LiveMode

  datatype Provenance = UserAsserted | Documented | UnknownProvenance

  datatype CodeProvenance = Original | Reused | Mixed

  /** A typed operand. Dates count days and instants count seconds. */
  datatype Scalar =
    | Text(text: string)
    | Number(number: real)
    | Flag(flag: bool)
    | Date(day: int)
    | Instant(second: int)
  {
    predicate SameKind(other: Scalar) {
      || (Text? && other.Text?) || (Number? && other.Number?) || (Flag? && other.Flag?)
      || (Date? && other.Date?) || (Instant? && other.Instant?)
    }

    /** The order of two numbers, two dates or two instants. */
    predicate AtMost(other: Scalar)
      requires SameKind(other)
    {
      match this
      case Number(n) => n <= other.number
      case Date(d) => d <= other.day
      case Instant(t) => t <= other.second
      case _ => false
    }
  }

  /** What a subject resolves to: nothing, one value or a declared list. */
  datatype Actual = NoActual | One(value: Scalar) | Many(values: seq<Scalar>)

  datatype Fact<+T> = Fact(value: Option<T>, provenance: Provenance)
  {
    predicate Known() { value.Some? && provenance != UnknownProvenance }
  }

  datatype Facts = Facts(
    residence: Fact<string>,
    citizenship: Fact<string>,
    legalForm: Fact<string>,
    incorporation: Fact<int>,
    teamSize: Fact<real>,
    openSource: Fact<bool>,
    newProject: Fact<bool>,
    codeProvenance: Fact<CodeProvenance>,
    license: Fact<string>,
    technologies: Fact<seq<string>>,
    sponsorSupport: Fact<bool>,
    rewardMet: Fact<bool>)

  /** An exact deadline or a calendar date without a time of day. */
  datatype Bound = Exact(second: int) | Calendar(day: int)

  datatype Evidence = Evidence(
    id: string,
    sourceType: SourceType,
    normalizedField: Category,
    extraction: ExtractionState,
    retrievedAt: int)

  datatype Context = Context(
    facts: Facts,
    deadlines: seq<Bound>,
    evidence: seq<Evidence>,
    evaluatedAt: int,
    mode: Mode)

  datatype Rule = Rule(
    id: string,
    ruleType: Category,
    operator: Operator,
    operands: seq<Scalar>,
    subject: Option<Subject>,
    children: seq<Rule>,
    criticality: Criticality,
    evidenceIds: seq<string>,
    supported: bool,
    naReason: Option<string>,
    contradiction: bool)
  {
    predicate Composite() { operator.And? || operator.Or? }
  }

  datatype Evaluation = Evaluation(
    ruleId: string,
    status: RuleStatus,
    codes: seq<ReasonCode>,
    children: seq<Evaluation>)

  datatype CoverageState = Evaluated | CoverageNotApplicable | CoverageUnknown | CoverageMissing

  datatype CoverageEntry = CoverageEntry(
    category: Category, state: CoverageState, ruleIds: seq<string>, reasons: seq<string>)

  datatype GateState = GatePass | GateFail | ReviewRequired

  datatype Gate = Gate(
    state: GateState,
    evaluations: seq<Evaluation>,
    coverage: seq<CoverageEntry>,
    missing: seq<Missing>,
    codes: seq<ReasonCode>)

  /** An entry of the gate's missing information: a category or a rule. */
  datatype Missing = MissingCategory(category: Category) | MissingRule(ruleId: string)

  lemma AllCategoriesListed(c: Category)
    ensures c in REQUIRED_CATEGORIES
  {
    match c
    case Deadline => assert REQUIRED_CATEGORIES[0] == c;
    case EntrantType => assert REQUIRED_CATEGORIES[1] == c;
    case Geography => assert REQUIRED_CATEGORIES[2] == c;
    case LegalEntity => assert REQUIRED_CATEGORIES[3] == c;
    case ProjectPolicy => assert REQUIRED_CATEGORIES[4] == c;
    case License => assert REQUIRED_CATEGORIES[5] == c;
    case RequiredTechnology => assert REQUIRED_CATEGORIES[6] == c;
    case FinancialSupport => assert REQUIRED_CATEGORIES[7] == c;
    case RewardConditions => assert REQUIRED_CATEGORIES[8] == c;
  }
}
