/** What a verdict means: certificates for rules and for the gate, and what new facts cannot undo. */
module EligibilityCertificates {
  import opened Wrappers
  import opened EligibilityModel
  import opened EligibilityEngine

  // ----- certificates, stated without the evaluator

  ghost predicate UniqueEvidence(context: Context) {
    forall i, j :: 0 <= i < j < |context.evidence| ==> context.evidence[i].id != context.evidence[j].id
  }

  /** Reviewed, accepted, about the rule's category, and fresh at the evaluation instant. */
  ghost predicate Proves(e: Evidence, rule: Rule, context: Context, deadlines: seq<Bound>) {
    && AcceptedSource(e, context.mode)
    && e.normalizedField == rule.ruleType
    && e.extraction.Reviewed?
    && EvidenceFreshness(e, context, deadlines).Fresh?
  }

  ghost predicate Cited(id: string, rule: Rule, context: Context, deadlines: seq<Bound>) {
    exists e :: e in context.evidence && e.id == id && Proves(e, rule, context, deadlines)
  }

  ghost predicate CitedStale(id: string, context: Context, deadlines: seq<Bound>) {
    exists e :: e in context.evidence && e.id == id && EvidenceFreshness(e, context, deadlines).Stale?
  }

  ghost predicate Grounded(rule: Rule, context: Context, deadlines: seq<Bound>) {
    && rule.evidenceIds != []
    && (forall id :: id in rule.evidenceIds ==> Cited(id, rule, context, deadlines))
    && !rule.contradiction
    && rule.supported
  }

  /** A contradiction or a stale citation here or in a child reached through composites only. */
  ghost predicate Tainted(rule: Rule, context: Context, deadlines: seq<Bound>) {
    || rule.contradiction
    || (exists id :: id in rule.evidenceIds && CitedStale(id, context, deadlines))
    || (rule.Composite() && exists i :: 0 <= i < |rule.children| && Tainted(rule.children[i], context, deadlines))
  }

  ghost predicate Homogeneous(operands: seq<Scalar>, value: Scalar) {
    forall i :: 0 <= i < |operands| ==> operands[i].SameKind(value)
  }

  /** The comparison is meaningful: types agree and the operand count fits the operator. */
  ghost predicate Comparable(op: Operator, actual: Actual, operands: seq<Scalar>) {
    && operands != []
    && match actual
       case NoActual => false
       case Many(values) =>
         && op.In?
         && values != []
         && (forall i :: 0 <= i < |values| ==> values[i].Text?)
         && (forall i :: 0 <= i < |operands| ==> operands[i].Text?)
       case One(value) =>
         && Homogeneous(operands, value)
         && match op
            case In => true
            case NotIn => true
            case Eq => |operands| == 1
            case BoolIs => |operands| == 1 && value.Flag?
            case Gte => |operands| == 1 && value.Number?
            case Lte => |operands| == 1 && value.Number?
            case Between => |operands| == 2 && value.Number? && operands[0].AtMost(operands[1])
            case DateBetween =>
              |operands| == 2 && (value.Date? || value.Instant?) && operands[0].AtMost(operands[1])
            case And => false
            case Or => false
  }

  /** A comparable relation holds. */
  ghost predicate Holds(op: Operator, actual: Actual, operands: seq<Scalar>)
    requires Comparable(op, actual, operands)
  {
    match actual
    case Many(values) => exists i, j :: 0 <= i < |values| && 0 <= j < |operands| && values[i] == operands[j]
    case One(value) =>
      match op
      case In => exists j :: 0 <= j < |operands| && value == operands[j]
      case NotIn => forall j :: 0 <= j < |operands| ==> value != operands[j]
      case Eq => value == operands[0]
      case BoolIs => value.flag == operands[0].flag
      case Gte => operands[0].number <= value.number
      case Lte => value.number <= operands[0].number
      case Between => operands[0].number <= value.number <= operands[1].number
      case DateBetween => operands[0].AtMost(value) && value.AtMost(operands[1])
      case And => false
      case Or => false
  }

  ghost predicate WellShapedComposite(rule: Rule) {
    && rule.Composite()
    && rule.subject.None?
    && rule.operands == []
    && rule.children != []
    && forall c :: c in rule.children ==> c.ruleType == rule.ruleType
  }

  /** A leaf whose subject is known and satisfies the comparison. */
  ghost predicate Met(rule: Rule, context: Context) {
    var actual := ResolveSubject(rule, context).0;
    rule.children == [] && Comparable(rule.operator, actual, rule.operands)
        && Holds(rule.operator, actual, rule.operands)
  }

  /** A leaf whose subject is known and contradicts the comparison. */
  ghost predicate Unmet(rule: Rule, context: Context) {
    var actual := ResolveSubject(rule, context).0;
    rule.children == [] && Comparable(rule.operator, actual, rule.operands)
        && !Holds(rule.operator, actual, rule.operands)
  }

  ghost predicate PassCertificate(rule: Rule, context: Context, deadlines: seq<Bound>) {
    && rule.naReason.None?
    && Grounded(rule, context, deadlines)
    && if rule.Composite() then
         && WellShapedComposite(rule)
         && if rule.operator.And? then
              forall i :: 0 <= i < |rule.children| ==> PassCertificate(rule.children[i], context, deadlines)
            else
              && (exists i :: 0 <= i < |rule.children| && PassCertificate(rule.children[i], context, deadlines))
              && (forall i :: 0 <= i < |rule.children| ==> !Tainted(rule.children[i], context, deadlines))
       else
         Met(rule, context)
  }

  ghost predicate FailCertificate(rule: Rule, context: Context, deadlines: seq<Bound>) {
    && rule.naReason.None?
    && Grounded(rule, context, deadlines)
    && if rule.Composite() then
         && WellShapedComposite(rule)
         && if rule.operator.And? then
              exists i :: 0 <= i < |rule.children| && FailCertificate(rule.children[i], context, deadlines)
            else
              forall i :: 0 <= i < |rule.children| ==> FailCertificate(rule.children[i], context, deadlines)
       else
         Unmet(rule, context)
  }

  ghost predicate NotApplicableCertificate(rule: Rule, context: Context, deadlines: seq<Bound>) {
    rule.naReason.Some? && Grounded(rule, context, deadlines)
  }

  // ----- operators

  lemma SharedElement(a: seq<Scalar>, b: seq<Scalar>)
    ensures (exists x :: x in a && x in b) <==>
            exists i, j :: 0 <= i < |a| && 0 <= j < |b| && a[i] == b[j]
  {
    if x :| x in a && x in b {
      var i :| 0 <= i < |a| && a[i] == x;
      var j :| 0 <= j < |b| && b[j] == x;
      assert a[i] == b[j];
    }
    if i, j :| 0 <= i < |a| && 0 <= j < |b| && a[i] == b[j] {
      assert a[i] in a && a[i] in b;
    }
  }

  lemma OperatorMeaning(op: Operator, actual: Actual, operands: seq<Scalar>)
    requires !op.And? && !op.Or?
    ensures EvaluateOperator(op, actual, operands, []).Pass? <==>
            Comparable(op, actual, operands) && Holds(op, actual, operands)
    ensures EvaluateOperator(op, actual, operands, []).Fail? <==>
            Comparable(op, actual, operands) && !Holds(op, actual, operands)
    ensures !EvaluateOperator(op, actual, operands, []).NotApplicable?
  {
    if operands != [] {
      match actual
      case NoActual =>
      case One(value) =>
        assert (exists o :: o in operands && !o.SameKind(value)) <==> !Homogeneous(operands, value);
      case Many(values) =>
        if op.In? && values != [] {
          assert (exists x :: x in values + operands && !x.Text?) <==>
            !((forall i :: 0 <= i < |values| ==> values[i].Text?) &&
              (forall i :: 0 <= i < |operands| ==> operands[i].Text?)) by {
            forall i | 0 <= i < |values| ensures values[i] in values + operands { }
            forall i | 0 <= i < |operands| ensures operands[i] in values + operands { }
          }
          SharedElement(values, operands);
        }
    }
  }

  // ----- evidence

  lemma LookupUnique(context: Context, e: Evidence)
    requires UniqueEvidence(context) && e in context.evidence
    ensures Lookup(context.evidence, e.id) == Some(e)
  {
  }

  lemma {:induction false} CitedIssuesMeaning(ids: seq<string>, rule: Rule, context: Context, deadlines: seq<Bound>)
    requires UniqueEvidence(context)
    ensures CitedIssues(ids, rule, context, deadlines) == [] <==>
            forall id :: id in ids ==> Cited(id, rule, context, deadlines)
    ensures StaleEvidence in CitedIssues(ids, rule, context, deadlines) <==>
            exists id :: id in ids && CitedStale(id, context, deadlines)
    ensures Conflict !in CitedIssues(ids, rule, context, deadlines)
  {
    if ids != [] {
      var front, last := ids[..|ids| - 1], ids[|ids| - 1];
      CitedIssuesMeaning(front, rule, context, deadlines);
      CitationMeaning(last, rule, context, deadlines);
      OneMoreCitation(front, last, CitedIssues(front, rule, context, deadlines),
                      CitationIssues(last, rule, context, deadlines), rule, context, deadlines);
      assert ids == front + [last];
    }
  }

  lemma OneMoreCitation(
    front: seq<string>, last: string, rest: seq<ReasonCode>, own: seq<ReasonCode>, rule: Rule, context: Context,
    deadlines: seq<Bound>)
    requires rest == [] <==> forall id :: id in front ==> Cited(id, rule, context, deadlines)
    requires StaleEvidence in rest <==> exists id :: id in front && CitedStale(id, context, deadlines)
    requires own == [] <==> Cited(last, rule, context, deadlines)
    requires StaleEvidence in own <==> CitedStale(last, context, deadlines)
    ensures rest + own == [] <==> forall id :: id in front + [last] ==> Cited(id, rule, context, deadlines)
    ensures StaleEvidence in rest + own <==> exists id :: id in front + [last] && CitedStale(id, context, deadlines)
  {
    assert last in front + [last];
  }

  lemma CitationMeaning(id: string, rule: Rule, context: Context, deadlines: seq<Bound>)
    requires UniqueEvidence(context)
    ensures CitationIssues(id, rule, context, deadlines) == [] <==> Cited(id, rule, context, deadlines)
    ensures StaleEvidence in CitationIssues(id, rule, context, deadlines) <==> CitedStale(id, context, deadlines)
    ensures Conflict !in CitationIssues(id, rule, context, deadlines)
  {
    var found := Lookup(context.evidence, id);
    forall e | e in context.evidence && e.id == id
      ensures found == Some(e)
    {
      LookupUnique(context, e);
    }
  }

  lemma OwnIssuesMeaning(rule: Rule, context: Context, deadlines: seq<Bound>)
    requires UniqueEvidence(context)
    ensures OwnIssues(rule, context, deadlines) == [] <==> Grounded(rule, context, deadlines)
    ensures StaleEvidence in OwnIssues(rule, context, deadlines) || Conflict in OwnIssues(rule, context, deadlines) <==>
            rule.contradiction || exists id :: id in rule.evidenceIds && CitedStale(id, context, deadlines)
  {
    CitedIssuesMeaning(rule.evidenceIds, rule, context, deadlines);
    DistinctMembers(CitedIssues(rule.evidenceIds, rule, context, deadlines));
    var own := EvidenceIssuesOf(rule, context, deadlines);
    assert Conflict !in own;
    if rule.contradiction {
      assert (own + [Conflict])[|own|] == Conflict;
      assert OwnIssues(rule, context, deadlines)[|own|] == Conflict;
    }
  }

  // ----- rules

  /** Some reported code is stale or conflicting. */
  ghost predicate MarksTaint(e: Evaluation) { StaleEvidence in e.codes || Conflict in e.codes }

  lemma {:induction false} InheritedMeaning(children: seq<Evaluation>)
    ensures forall c :: c in InheritedIssues(children) ==> Masking(c)
    ensures InheritedIssues(children) != [] <==> exists i :: 0 <= i < |children| && MarksTaint(children[i])
  {
    if children != [] {
      var n := |children| - 1;
      InheritedMeaning(children[..n]);
      var last := MaskingCodes(children[n].codes);
      if last != [] {
        assert last[0] in last;
      }
      forall i | 0 <= i < n ensures children[..n][i] == children[i] { }
    }
  }

  lemma MaskingNonEmpty(codes: seq<ReasonCode>)
    requires forall c :: c in codes ==> Masking(c)
    ensures (StaleEvidence in codes || Conflict in codes) <==> codes != []
  {
    if codes != [] {
      assert codes[0] in codes;
    }
  }

  ghost predicate Determined(rule: Rule, e: Evaluation, context: Context, deadlines: seq<Bound>) {
    && (e.status.Pass? <==> PassCertificate(rule, context, deadlines))
    && (e.status.Fail? <==> FailCertificate(rule, context, deadlines))
    && (e.status.NotApplicable? <==> NotApplicableCertificate(rule, context, deadlines))
    && (MarksTaint(e) <==> Tainted(rule, context, deadlines))
  }

  lemma ConcludeMeaning(rule: Rule, own: seq<ReasonCode>, expressed: RuleStatus, added: seq<ReasonCode>)
    ensures var (status, codes) := Conclude(rule, own, expressed, added);
            var confirmed := rule.Composite() && expressed.Fail? && own == [] && InvalidOperands !in added;
            && (status.Pass? <==> own == [] && added == [] && rule.naReason.None? && expressed.Pass?)
            && (status.Fail? <==> rule.naReason.None? && expressed.Fail? && ((own == [] && added == []) || confirmed))
            && (StaleEvidence in codes <==> StaleEvidence in own || StaleEvidence in added)
            && (Conflict in codes <==> Conflict in own || Conflict in added)
            && (!confirmed && !expressed.NotApplicable? ==>
                  (status.NotApplicable? <==> own == [] && added == [] && rule.naReason.Some?))
  {
    var issues := own + added;
    DistinctMembers(issues);
    DistinctMembers([Mismatch] + issues);
    assert issues == [] <==> own == [] && added == [];
    assert forall c :: c in [Mismatch] + issues <==> c == Mismatch || c in own || c in added;
  }

  /** `e` is what the evaluator concludes for `rule` once its children have been evaluated. */
  ghost predicate Concluded(rule: Rule, e: Evaluation, context: Context, deadlines: seq<Bound>) {
    var (expressed, added) := Expression(rule, context, e.children);
    (e.status, e.codes) == Conclude(rule, OwnIssues(rule, context, deadlines), expressed, added)
  }

  lemma EvaluateConcludes(rule: Rule, context: Context, deadlines: seq<Bound>)
    ensures var e := Evaluate(rule, context, deadlines);
            && Concluded(rule, e, context, deadlines)
            && |e.children| == |rule.children|
            && forall i :: 0 <= i < |rule.children| ==> e.children[i] == Evaluate(rule.children[i], context, deadlines)
  {
  }

  ghost predicate SomeTaint(children: seq<Evaluation>) {
    exists i :: 0 <= i < |children| && MarksTaint(children[i])
  }

  ghost predicate OwnTaint(rule: Rule, context: Context, deadlines: seq<Bound>) {
    rule.contradiction || exists id :: id in rule.evidenceIds && CitedStale(id, context, deadlines)
  }

  lemma CompositeIssues(rule: Rule, context: Context, e: Evaluation)
    requires rule.Composite()
    ensures var added := Expression(rule, context, e.children).1;
            && (InvalidOperands in added <==> MalformedComposite(rule))
            && (added == [] <==> !SomeTaint(e.children) && !MalformedComposite(rule))
            && (StaleEvidence in added || Conflict in added <==> SomeTaint(e.children))
  {
    var inherited := InheritedIssues(e.children);
    InheritedMeaning(e.children);
    MaskingNonEmpty(inherited);
    if MalformedComposite(rule) {
      assert (inherited + [InvalidOperands])[|inherited|] == InvalidOperands;
    } else {
      assert inherited + [] == inherited;
    }
  }

  /** The verdict of a composite, in terms of its own grounds and its children's reports. */
  lemma CompositeVerdict(rule: Rule, e: Evaluation, context: Context, deadlines: seq<Bound>)
    requires UniqueEvidence(context) && rule.Composite() && Concluded(rule, e, context, deadlines)
    ensures var combined := CombineStatuses(rule.operator, Statuses(e.children));
            var grounded := Grounded(rule, context, deadlines);
            && (e.status.Pass? <==>
                  combined.Pass? && grounded && rule.naReason.None? && !SomeTaint(e.children)
                      && !MalformedComposite(rule))
            && (e.status.Fail? <==>
                  combined.Fail? && grounded && rule.naReason.None? && !MalformedComposite(rule))
            && (combined.Unknown? ==>
                  (e.status.NotApplicable? <==>
                     rule.naReason.Some? && grounded && !SomeTaint(e.children) && !MalformedComposite(rule)))
            && (MarksTaint(e) <==> SomeTaint(e.children) || OwnTaint(rule, context, deadlines))
  {
    OwnIssuesMeaning(rule, context, deadlines);
    CompositeIssues(rule, context, e);
    var (expressed, added) := Expression(rule, context, e.children);
    ConcludeMeaning(rule, OwnIssues(rule, context, deadlines), expressed, added);
  }

  ghost predicate ChildrenDetermined(rule: Rule, e: Evaluation, context: Context, deadlines: seq<Bound>) {
    && |e.children| == |rule.children|
    && forall i :: 0 <= i < |rule.children| ==>
         && Determined(rule.children[i], e.children[i], context, deadlines)
         && (e.children[i].status.Pass? ==> !MarksTaint(e.children[i]))
  }

  lemma CompositeTaint(rule: Rule, e: Evaluation, context: Context, deadlines: seq<Bound>)
    requires rule.Composite() && ChildrenDetermined(rule, e, context, deadlines)
    ensures SomeTaint(e.children) || OwnTaint(rule, context, deadlines) <==> Tainted(rule, context, deadlines)
    ensures !SomeTaint(e.children) <==>
            forall i :: 0 <= i < |rule.children| ==> !Tainted(rule.children[i], context, deadlines)
  {
  }

  /** Children that all pass report no taint. */
  lemma AllPassUntainted(rule: Rule, e: Evaluation, context: Context, deadlines: seq<Bound>)
    requires ChildrenDetermined(rule, e, context, deadlines)
    requires forall i :: 0 <= i < |rule.children| ==> PassCertificate(rule.children[i], context, deadlines)
    ensures !SomeTaint(e.children)
  {
    forall i | 0 <= i < |rule.children|
      ensures !MarksTaint(e.children[i])
    {
      assert PassCertificate(rule.children[i], context, deadlines);
    }
  }

  lemma CompositePass(rule: Rule, e: Evaluation, context: Context, deadlines: seq<Bound>)
    requires rule.Composite() && ChildrenDetermined(rule, e, context, deadlines)
    ensures PassCertificate(rule, context, deadlines) <==>
            && CombineStatuses(rule.operator, Statuses(e.children)).Pass?
            && Grounded(rule, context, deadlines) && rule.naReason.None?
            && !SomeTaint(e.children) && !MalformedComposite(rule)
  {
    CombinedStatuses(rule, Statuses(e.children), context, deadlines);
    CompositeTaint(rule, e, context, deadlines);
    assert WellShapedComposite(rule) <==> !MalformedComposite(rule) && rule.children != [];
    if rule.operator.And? && PassCertificate(rule, context, deadlines) {
      AllPassUntainted(rule, e, context, deadlines);
    }
  }

  lemma CompositeFail(rule: Rule, e: Evaluation, context: Context, deadlines: seq<Bound>)
    requires rule.Composite() && ChildrenDetermined(rule, e, context, deadlines)
    ensures FailCertificate(rule, context, deadlines) <==>
            && CombineStatuses(rule.operator, Statuses(e.children)).Fail?
            && Grounded(rule, context, deadlines) && rule.naReason.None? && !MalformedComposite(rule)
  {
    CombinedStatuses(rule, Statuses(e.children), context, deadlines);
    assert WellShapedComposite(rule) <==> !MalformedComposite(rule) && rule.children != [];
  }

  /** A composite with a reason has no children, so nothing masks it. */
  lemma CompositeNotApplicable(rule: Rule, e: Evaluation)
    requires rule.Composite() && SoundReason(rule) && rule.naReason.Some? && |e.children| == |rule.children|
    ensures CombineStatuses(rule.operator, Statuses(e.children)).Unknown?
    ensures !SomeTaint(e.children) && !MalformedComposite(rule)
  {
  }

  /** A composite reads its children only through their verdicts and their taint. */
  lemma CompositeCertificate(rule: Rule, e: Evaluation, context: Context, deadlines: seq<Bound>)
    requires UniqueEvidence(context) && rule.Composite() && SoundReason(rule) && Concluded(rule, e, context, deadlines)
    requires ChildrenDetermined(rule, e, context, deadlines)
    ensures Determined(rule, e, context, deadlines)
  {
    CompositeVerdict(rule, e, context, deadlines);
    CompositeTaint(rule, e, context, deadlines);
    CompositePass(rule, e, context, deadlines);
    CompositeFail(rule, e, context, deadlines);
    CombinedStatuses(rule, Statuses(e.children), context, deadlines);
    if rule.naReason.Some? {
      CompositeNotApplicable(rule, e);
    }
  }

  lemma PassIsUntainted(rule: Rule, e: Evaluation, context: Context, deadlines: seq<Bound>)
    requires Concluded(rule, e, context, deadlines)
    ensures e.status.Pass? ==> !MarksTaint(e)
  {
    var (expressed, added) := Expression(rule, context, e.children);
    ConcludeMeaning(rule, OwnIssues(rule, context, deadlines), expressed, added);
  }

  lemma CombinedStatuses(rule: Rule, statuses: seq<RuleStatus>, context: Context, deadlines: seq<Bound>)
    requires rule.Composite() && |statuses| == |rule.children|
    requires forall i :: 0 <= i < |statuses| ==>
               && (statuses[i].Pass? <==> PassCertificate(rule.children[i], context, deadlines))
               && (statuses[i].Fail? <==> FailCertificate(rule.children[i], context, deadlines))
    ensures CombineStatuses(rule.operator, statuses).Pass? <==>
            rule.children != [] &&
            if rule.operator.And? then
                forall i :: 0 <= i < |rule.children| ==> PassCertificate(rule.children[i], context, deadlines)
            else exists i :: 0 <= i < |rule.children| && PassCertificate(rule.children[i], context, deadlines)
    ensures CombineStatuses(rule.operator, statuses).Fail? <==>
            rule.children != [] &&
            if rule.operator.And? then
                exists i :: 0 <= i < |rule.children| && FailCertificate(rule.children[i], context, deadlines)
            else forall i :: 0 <= i < |rule.children| ==> FailCertificate(rule.children[i], context, deadlines)
    ensures !CombineStatuses(rule.operator, statuses).NotApplicable?
  {
    assert forall i :: 0 <= i < |statuses| ==> statuses[i] in statuses;
  }

  lemma LeafIssues(rule: Rule, context: Context, e: Evaluation)
    requires !rule.Composite() && SoundReason(rule)
    ensures var (expressed, added) := Expression(rule, context, e.children);
            && (expressed.Pass? <==> Met(rule, context))
            && (expressed.Fail? <==> Unmet(rule, context))
            && !expressed.NotApplicable?
            && (added == [] <==> rule.naReason.Some? || Met(rule, context) || Unmet(rule, context))
            && StaleEvidence !in added && Conflict !in added
  {
    OperatorMeaning(rule.operator, ResolveSubject(rule, context).0, rule.operands);
  }

  lemma LeafCertificate(rule: Rule, e: Evaluation, context: Context, deadlines: seq<Bound>)
    requires UniqueEvidence(context) && !rule.Composite() && SoundReason(rule) && Concluded(rule, e, context, deadlines)
    ensures Determined(rule, e, context, deadlines)
  {
    OwnIssuesMeaning(rule, context, deadlines);
    LeafIssues(rule, context, e);
    var (expressed, added) := Expression(rule, context, e.children);
    ConcludeMeaning(rule, OwnIssues(rule, context, deadlines), expressed, added);
  }

  /** A verdict is PASS, FAIL or NOT_APPLICABLE exactly when the rule has that certificate. */
  lemma {:induction false} CertificateComplete(rule: Rule, context: Context, deadlines: seq<Bound>)
    requires UniqueEvidence(context) && SoundReasons(rule)
    ensures Determined(rule, Evaluate(rule, context, deadlines), context, deadlines)
  {
    var e := Evaluate(rule, context, deadlines);
    EvaluateConcludes(rule, context, deadlines);
    if rule.Composite() {
      forall i | 0 <= i < |rule.children|
        ensures Determined(rule.children[i], e.children[i], context, deadlines)
        ensures e.children[i].status.Pass? ==> !MarksTaint(e.children[i])
      {
        assert rule.children[i] in rule.children;
        CertificateComplete(rule.children[i], context, deadlines);
        EvaluateConcludes(rule.children[i], context, deadlines);
        PassIsUntainted(rule.children[i], e.children[i], context, deadlines);
      }
      CompositeCertificate(rule, e, context, deadlines);
    } else {
      LeafCertificate(rule, e, context, deadlines);
    }
  }
}
