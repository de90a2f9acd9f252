/** The aggregate gate, the accepted rule sets, and monotonicity in the founder's facts. */
module EligibilityGate {
  import opened Wrappers
  import opened EligibilityModel
  import opened EligibilityEngine
  import opened EligibilityCertificates

  // ----- coverage and the gate

  lemma {:induction false} CriticalMembers(rules: seq<Rule>, evaluations: seq<Evaluation>)
    requires |rules| == |evaluations|
    ensures forall e :: e in CriticalOf(rules, evaluations) <==>
              exists i :: 0 <= i < |rules| && rules[i].criticality.Critical? && evaluations[i] == e
  {
    if rules != [] {
      var n := |rules| - 1;
      CriticalMembers(rules[..n], evaluations[..n]);
      forall i | 0 <= i < n ensures rules[..n][i] == rules[i] && evaluations[..n][i] == evaluations[i] { }
    }
  }

  lemma {:induction false} PairMembers(rules: seq<Rule>, evaluations: seq<Evaluation>, category: Category)
    requires |rules| == |evaluations|
    ensures forall p :: p in CoveragePairs(rules, evaluations, category) <==>
              exists i :: 0 <= i < |rules| && rules[i].criticality.Critical? && rules[i].ruleType == category
                          && p == (rules[i], evaluations[i])
  {
    if rules != [] {
      var n := |rules| - 1;
      PairMembers(rules[..n], evaluations[..n], category);
      forall i | 0 <= i < n ensures rules[..n][i] == rules[i] && evaluations[..n][i] == evaluations[i] { }
    }
  }

  lemma {:induction false} AllReasonsGiven(pairs: seq<(Rule, Evaluation)>)
    ensures |PairReasons(pairs)| <= |pairs|
    ensures |PairReasons(pairs)| == |pairs| <==> forall i :: 0 <= i < |pairs| ==> pairs[i].0.naReason.Some?
  {
    if pairs != [] {
      var n := |pairs| - 1;
      AllReasonsGiven(pairs[..n]);
      forall i | 0 <= i < n ensures pairs[..n][i] == pairs[i] { }
    }
  }

  lemma {:induction false} UncoveredEmpty(entries: seq<CoverageEntry>)
    ensures forall c :: MissingCategory(c) in UncoveredCategories(entries) <==>
              exists i :: 0 <= i < |entries| && entries[i].category == c
                          && (entries[i].state.CoverageMissing? || entries[i].state.CoverageUnknown?)
    ensures forall m :: m in UncoveredCategories(entries) ==> m.MissingCategory?
  {
    if entries != [] {
      var n := |entries| - 1;
      UncoveredEmpty(entries[..n]);
      forall i | 0 <= i < n ensures entries[..n][i] == entries[i] { }
    }
  }

  lemma {:induction false} UnknownRulesMembers(critical: seq<Evaluation>)
    ensures forall id :: MissingRule(id) in UnknownRules(critical) <==>
              exists i :: 0 <= i < |critical| && critical[i].ruleId == id && critical[i].status.Unknown?
    ensures forall m :: m in UnknownRules(critical) ==> m.MissingRule?
  {
    if critical != [] {
      var n := |critical| - 1;
      UnknownRulesMembers(critical[..n]);
      forall i | 0 <= i < n ensures critical[..n][i] == critical[i] { }
    }
  }

  /** A critical rule of the category exists and none of them is undetermined. */
  ghost predicate Covered(rules: seq<Rule>, evaluations: seq<Evaluation>, category: Category)
    requires |rules| == |evaluations|
  {
    && (exists i :: 0 <= i < |rules| && rules[i].criticality.Critical? && rules[i].ruleType == category)
    && (forall i :: 0 <= i < |rules| && rules[i].criticality.Critical? && rules[i].ruleType == category ==>
          !evaluations[i].status.Unknown?)
  }

  lemma EntryMeaning(rules: seq<Rule>, evaluations: seq<Evaluation>, category: Category)
    requires |rules| == |evaluations|
    requires forall i :: 0 <= i < |rules| ==> evaluations[i].status.NotApplicable? ==> rules[i].naReason.Some?
    ensures var s := EntryFor(rules, evaluations, category).state;
            (s.CoverageMissing? || s.CoverageUnknown?) <==> !Covered(rules, evaluations, category)
  {
    var pairs := CoveragePairs(rules, evaluations, category);
    PairsMeaning(rules, evaluations, category, pairs);
    StateMeaning(pairs);
  }

  lemma StateMeaning(pairs: seq<(Rule, Evaluation)>)
    requires forall i :: 0 <= i < |pairs| ==> pairs[i].1.status.NotApplicable? ==> pairs[i].0.naReason.Some?
    ensures (StateOf(pairs).CoverageMissing? || StateOf(pairs).CoverageUnknown?) <==>
            !(pairs != [] && forall p :: p in pairs ==> !p.1.status.Unknown?)
  {
    AllReasonsGiven(pairs);
  }

  /** The pairs of the category tell whether it is covered, and each inapplicable rule has its reason. */
  lemma PairsMeaning(rules: seq<Rule>, evaluations: seq<Evaluation>, category: Category, pairs: seq<(Rule, Evaluation)>)
    requires |rules| == |evaluations| && pairs == CoveragePairs(rules, evaluations, category)
    requires forall i :: 0 <= i < |rules| ==> evaluations[i].status.NotApplicable? ==> rules[i].naReason.Some?
    ensures Covered(rules, evaluations, category) <==>
              pairs != [] && forall p :: p in pairs ==> !p.1.status.Unknown?
    ensures forall i :: 0 <= i < |pairs| ==> pairs[i].1.status.NotApplicable? ==> pairs[i].0.naReason.Some?
  {
    PairMembers(rules, evaluations, category);
    forall i | 0 <= i < |rules| && rules[i].criticality.Critical? && rules[i].ruleType == category
      ensures (rules[i], evaluations[i]) in pairs { }
    if pairs != [] {
      assert pairs[0] in pairs;
    }
    forall i | 0 <= i < |pairs|
      ensures pairs[i].1.status.NotApplicable? ==> pairs[i].0.naReason.Some?
    {
      assert pairs[i] in pairs;
    }
  }

  lemma UncoveredCategory(rules: seq<Rule>, evaluations: seq<Evaluation>, c: Category)
    requires |rules| == |evaluations|
    requires forall i :: 0 <= i < |rules| ==> evaluations[i].status.NotApplicable? ==> rules[i].naReason.Some?
    ensures MissingCategory(c) in UncoveredCategories(CoverageOf(rules, evaluations)) <==>
            !Covered(rules, evaluations, c)
  {
    var entries := CoverageOf(rules, evaluations);
    UncoveredEmpty(entries);
    EntryMeaning(rules, evaluations, c);
    AllCategoriesListed(c);
    var k :| 0 <= k < |REQUIRED_CATEGORIES| && REQUIRED_CATEGORIES[k] == c;
    assert entries[k] == EntryFor(rules, evaluations, c);
    assert forall i :: 0 <= i < |entries| ==>
      entries[i] == EntryFor(rules, evaluations, REQUIRED_CATEGORIES[i])
      && entries[i].category == REQUIRED_CATEGORIES[i];
  }

  lemma UndeterminedRule(rules: seq<Rule>, evaluations: seq<Evaluation>, id: string)
    requires |rules| == |evaluations|
    ensures MissingRule(id) in UnknownRules(CriticalOf(rules, evaluations)) <==>
            exists i :: 0 <= i < |rules| && rules[i].criticality.Critical? && evaluations[i].ruleId == id
                        && evaluations[i].status.Unknown?
  {
    var critical := CriticalOf(rules, evaluations);
    UnknownRulesMembers(critical);
    if MissingRule(id) in UnknownRules(critical) {
      var k :| 0 <= k < |critical| && critical[k].ruleId == id && critical[k].status.Unknown?;
      var i := CriticalAt(rules, evaluations, critical[k]);
    }
    if i :| 0 <= i < |rules| && rules[i].criticality.Critical? && evaluations[i].ruleId == id
            && evaluations[i].status.Unknown? {
      assert evaluations[i] in critical by { CriticalMembers(rules, evaluations); }
    }
  }

  lemma CriticalAt(rules: seq<Rule>, evaluations: seq<Evaluation>, e: Evaluation) returns (i: nat)
    requires |rules| == |evaluations| && e in CriticalOf(rules, evaluations)
    ensures i < |rules| && rules[i].criticality.Critical? && evaluations[i] == e
  {
    CriticalMembers(rules, evaluations);
    i :| 0 <= i < |rules| && rules[i].criticality.Critical? && evaluations[i] == e;
  }

  /** Some critical evaluation has the status exactly when some critical rule received it. */
  lemma CriticalStatus(rules: seq<Rule>, es: seq<Evaluation>, status: RuleStatus)
    requires |rules| == |es|
    ensures (exists e :: e in CriticalOf(rules, es) && e.status == status) <==>
            exists i :: 0 <= i < |rules| && rules[i].criticality.Critical? && es[i].status == status
  {
    if e :| e in CriticalOf(rules, es) && e.status == status {
      var i := CriticalAt(rules, es, e);
    }
    if i :| 0 <= i < |rules| && rules[i].criticality.Critical? && es[i].status == status {
      assert es[i] in CriticalOf(rules, es) by { CriticalMembers(rules, es); }
    }
  }

  ghost predicate MissingExactly(rules: seq<Rule>, evaluations: seq<Evaluation>, missing: seq<Missing>)
    requires |rules| == |evaluations|
  {
    && (forall c :: MissingCategory(c) in missing <==> !Covered(rules, evaluations, c))
    && (forall id :: MissingRule(id) in missing <==>
          exists i :: 0 <= i < |rules| && rules[i].criticality.Critical? && evaluations[i].ruleId == id
                      && evaluations[i].status.Unknown?)
  }

  /** The missing information names exactly the uncovered categories and the undetermined critical rules. */
  lemma MissingInformation(rules: seq<Rule>, evaluations: seq<Evaluation>)
    requires |rules| == |evaluations|
    requires forall i :: 0 <= i < |rules| ==> evaluations[i].status.NotApplicable? ==> rules[i].naReason.Some?
    ensures MissingExactly(rules, evaluations, GateOf(rules, evaluations).missing)
    ensures MissingExactly(rules, evaluations,
                           UncoveredCategories(CoverageOf(rules, evaluations))
                           + UnknownRules(CriticalOf(rules, evaluations)))
  {
    var uncovered := UncoveredCategories(CoverageOf(rules, evaluations));
    var unknown := UnknownRules(CriticalOf(rules, evaluations));
    DistinctMembers(uncovered + unknown);
    UncoveredEmpty(CoverageOf(rules, evaluations));
    UnknownRulesMembers(CriticalOf(rules, evaluations));
    forall c ensures MissingCategory(c) in uncovered + unknown <==> !Covered(rules, evaluations, c) {
      UncoveredCategory(rules, evaluations, c);
    }
    forall id
      ensures MissingRule(id) in uncovered + unknown <==>
        exists i :: 0 <= i < |rules| && rules[i].criticality.Critical? && evaluations[i].ruleId == id
                    && evaluations[i].status.Unknown?
    {
      UndeterminedRule(rules, evaluations, id);
    }
  }

  ghost predicate CertifiedCritical(rules: seq<Rule>, i: nat, context: Context, deadlines: seq<Bound>)
    requires i < |rules|
  {
    rules[i].criticality.Critical? ==>
      PassCertificate(rules[i], context, deadlines) || NotApplicableCertificate(rules[i], context, deadlines)
  }

  ghost predicate HasCritical(rules: seq<Rule>, category: Category) {
    exists i :: 0 <= i < |rules| && rules[i].criticality.Critical? && rules[i].ruleType == category
  }

  ghost predicate FailedCritical(rules: seq<Rule>, context: Context, deadlines: seq<Bound>) {
    exists i :: 0 <= i < |rules| && rules[i].criticality.Critical? && FailCertificate(rules[i], context, deadlines)
  }

  ghost predicate PassedGate(rules: seq<Rule>, context: Context, deadlines: seq<Bound>) {
    && (forall c :: HasCritical(rules, c))
    && (forall i :: 0 <= i < |rules| ==> CertifiedCritical(rules, i, context, deadlines))
  }

  /** The gate's state, read off the evaluations alone. */
  lemma GateStates(rules: seq<Rule>, es: seq<Evaluation>)
    requires |rules| == |es|
    requires forall i :: 0 <= i < |rules| ==> es[i].status.NotApplicable? ==> rules[i].naReason.Some?
    ensures var state := GateOf(rules, es).state;
            && (state.GateFail? <==>
                  exists i :: 0 <= i < |rules| && rules[i].criticality.Critical? && es[i].status.Fail?)
            && (state.GatePass? <==>
                  && (forall c :: HasCritical(rules, c))
                  && forall i :: 0 <= i < |rules| && rules[i].criticality.Critical? ==>
                       es[i].status.Pass? || es[i].status.NotApplicable?)
  {
    var critical := CriticalOf(rules, es);
    var missing := UncoveredCategories(CoverageOf(rules, es)) + UnknownRules(critical);
    MissingInformation(rules, es);
    GateStateMeaning(rules, es, critical, missing);
  }

  lemma GateStateMeaning(rules: seq<Rule>, es: seq<Evaluation>, critical: seq<Evaluation>, missing: seq<Missing>)
    requires |rules| == |es| && critical == CriticalOf(rules, es) && MissingExactly(rules, es, missing)
    ensures var state := GateStateOf(rules, critical, missing);
            && (state.GateFail? <==>
                  exists i :: 0 <= i < |rules| && rules[i].criticality.Critical? && es[i].status.Fail?)
            && (state.GatePass? <==>
                  && (forall c :: HasCritical(rules, c))
                  && forall i :: 0 <= i < |rules| && rules[i].criticality.Critical? ==>
                       es[i].status.Pass? || es[i].status.NotApplicable?)
  {
    NothingMissing(rules, es, missing);
    CriticalStatus(rules, es, Fail);
    CriticalStatus(rules, es, Unknown);
    assert (exists e :: e in critical && e.status.Fail?) <==> (exists e :: e in critical && e.status == Fail);
    assert (exists e :: e in critical && e.status.Unknown?) <==> (exists e :: e in critical && e.status == Unknown);
  }

  lemma NothingMissing(rules: seq<Rule>, es: seq<Evaluation>, missing: seq<Missing>)
    requires |rules| == |es| && MissingExactly(rules, es, missing)
    ensures missing == [] <==>
            && (forall c :: HasCritical(rules, c))
            && forall i :: 0 <= i < |rules| && rules[i].criticality.Critical? ==> !es[i].status.Unknown?
    ensures missing == [] ==> rules != []
  {
    if missing == [] {
      forall c ensures HasCritical(rules, c) {
        assert MissingCategory(c) !in missing;
      }
      assert HasCritical(rules, Deadline);
      forall i | 0 <= i < |rules| && rules[i].criticality.Critical?
        ensures !es[i].status.Unknown?
      {
        assert MissingRule(es[i].ruleId) !in missing;
      }
    } else {
      assert missing[0] in missing;
      match missing[0]
      case MissingCategory(c) => assert HasCritical(rules, c) ==> !Covered(rules, es, c);
      case MissingRule(id) =>
    }
  }

  /**
    The gate passes exactly when every category has a critical rule and every critical rule is
    certified; it fails exactly when some critical rule is certified to fail.
   */
  lemma GateCertificates(rules: seq<Rule>, context: Context)
    requires Accepted(rules) && UniqueEvidence(context)
    ensures var ds := context.deadlines + RuleBounds(rules);
            var gate := Aggregate(rules, context).value;
            && (gate.state.GatePass? <==> PassedGate(rules, context, ds))
            && (gate.state.GateFail? <==> FailedCritical(rules, context, ds))
  {
    var ds := context.deadlines + RuleBounds(rules);
    var es := EvaluateAll(rules, context, ds);
    forall i | 0 <= i < |rules|
      ensures Determined(rules[i], es[i], context, ds)
    {
      assert rules[i] in rules;
      CertificateComplete(rules[i], context, ds);
    }
    CertifiedStates(rules, es, context, ds);
  }

  lemma CertifiedStates(rules: seq<Rule>, es: seq<Evaluation>, context: Context, ds: seq<Bound>)
    requires |rules| == |es| && forall i :: 0 <= i < |rules| ==> Determined(rules[i], es[i], context, ds)
    ensures GateOf(rules, es).state.GatePass? <==> PassedGate(rules, context, ds)
    ensures GateOf(rules, es).state.GateFail? <==> FailedCritical(rules, context, ds)
  {
    forall i | 0 <= i < |rules|
      ensures es[i].status.NotApplicable? ==> rules[i].naReason.Some?
      ensures CertifiedCritical(rules, i, context, ds) <==>
        (rules[i].criticality.Critical? ==> es[i].status.Pass? || es[i].status.NotApplicable?)
      ensures es[i].status.Fail? <==> FailCertificate(rules[i], context, ds)
    {
      assert Determined(rules[i], es[i], context, ds);
    }
    GateStates(rules, es);
  }

  // ----- supplying missing facts

  ghost predicate Kept<T>(before: Fact<T>, after: Fact<T>) { before.value.Some? ==> after == before }

  /** `after` has every fact of `before` and possibly facts that were missing. */
  ghost predicate Supplied(before: Facts, after: Facts) {
    && Kept(before.residence, after.residence)
    && Kept(before.citizenship, after.citizenship)
    && Kept(before.legalForm, after.legalForm)
    && Kept(before.incorporation, after.incorporation)
    && Kept(before.teamSize, after.teamSize)
    && Kept(before.openSource, after.openSource)
    && Kept(before.newProject, after.newProject)
    && Kept(before.codeProvenance, after.codeProvenance)
    && Kept(before.license, after.license)
    && Kept(before.technologies, after.technologies)
    && Kept(before.sponsorSupport, after.sponsorSupport)
    && Kept(before.rewardMet, after.rewardMet)
  }

  lemma ResolvedStays(rule: Rule, before: Context, after: Facts)
    requires Supplied(before.facts, after)
    requires !ResolveSubject(rule, before).0.NoActual?
    ensures ResolveSubject(rule, before.(facts := after)).0 == ResolveSubject(rule, before).0
  {
  }

  lemma {:induction false} TaintIgnoresFacts(rule: Rule, before: Context, after: Facts, deadlines: seq<Bound>)
    ensures Tainted(rule, before, deadlines) <==> Tainted(rule, before.(facts := after), deadlines)
  {
    forall i | 0 <= i < |rule.children|
      ensures Tainted(rule.children[i], before, deadlines) <==>
              Tainted(rule.children[i], before.(facts := after), deadlines)
    {
      TaintIgnoresFacts(rule.children[i], before, after, deadlines);
    }
    assert forall id :: CitedStale(id, before, deadlines) <==> CitedStale(id, before.(facts := after), deadlines);
  }

  lemma GroundsIgnoreFacts(rule: Rule, before: Context, after: Facts, deadlines: seq<Bound>)
    ensures Grounded(rule, before, deadlines) <==> Grounded(rule, before.(facts := after), deadlines)
  {
    var ctx := before.(facts := after);
    assert forall e :: Proves(e, rule, before, deadlines) <==> Proves(e, rule, ctx, deadlines);
    assert forall id :: Cited(id, rule, before, deadlines) <==> Cited(id, rule, ctx, deadlines);
  }

  lemma {:induction false} CertificatesStay(rule: Rule, before: Context, after: Facts, deadlines: seq<Bound>)
    requires Supplied(before.facts, after)
    ensures var ctx := before.(facts := after);
            && (PassCertificate(rule, before, deadlines) ==> PassCertificate(rule, ctx, deadlines))
            && (FailCertificate(rule, before, deadlines) ==> FailCertificate(rule, ctx, deadlines))
  {
    GroundsIgnoreFacts(rule, before, after, deadlines);
    if rule.Composite() {
      forall i | 0 <= i < |rule.children|
        ensures var ctx := before.(facts := after);
                && (PassCertificate(rule.children[i], before, deadlines) ==>
                    PassCertificate(rule.children[i], ctx, deadlines))
                && (FailCertificate(rule.children[i], before, deadlines) ==>
                    FailCertificate(rule.children[i], ctx, deadlines))
                && (Tainted(rule.children[i], before, deadlines) <==> Tainted(rule.children[i], ctx, deadlines))
      {
        CertificatesStay(rule.children[i], before, after, deadlines);
        TaintIgnoresFacts(rule.children[i], before, after, deadlines);
      }
    } else if Met(rule, before) || Unmet(rule, before) {
      ResolvedStays(rule, before, after);
    }
  }

  /** Supplying missing facts never changes a verdict that was already PASS, FAIL or NOT_APPLICABLE. */
  lemma RuleInformationMonotone(rule: Rule, before: Context, after: Facts, deadlines: seq<Bound>)
    requires SoundReasons(rule) && UniqueEvidence(before) && Supplied(before.facts, after)
    requires !Evaluate(rule, before, deadlines).status.Unknown?
    ensures Evaluate(rule, before.(facts := after), deadlines).status == Evaluate(rule, before, deadlines).status
  {
    CertificateComplete(rule, before, deadlines);
    CertificateComplete(rule, before.(facts := after), deadlines);
    CertificatesStay(rule, before, after, deadlines);
    GroundsIgnoreFacts(rule, before, after, deadlines);
  }

  /** Supplying missing facts never changes a gate that already passed or failed. */
  lemma GateInformationMonotone(rules: seq<Rule>, before: Context, after: Facts)
    requires Accepted(rules) && UniqueEvidence(before) && Supplied(before.facts, after)
    requires !Aggregate(rules, before).value.state.ReviewRequired?
    ensures Aggregate(rules, before.(facts := after)).value.state == Aggregate(rules, before).value.state
  {
    var ctx := before.(facts := after);
    var ds := before.deadlines + RuleBounds(rules);
    GateCertificates(rules, before);
    GateCertificates(rules, ctx);
    forall i | 0 <= i < |rules|
      ensures PassCertificate(rules[i], before, ds) ==> PassCertificate(rules[i], ctx, ds)
      ensures FailCertificate(rules[i], before, ds) ==> FailCertificate(rules[i], ctx, ds)
      ensures CertifiedCritical(rules, i, before, ds) ==> CertifiedCritical(rules, i, ctx, ds)
    {
      CertificatesStay(rules[i], before, after, ds);
      GroundsIgnoreFacts(rules[i], before, after, ds);
    }
  }

  // ----- accepted rule sets

  function Ids(rule: Rule): seq<string>
    decreases rule, 0
  {
    [rule.id] + AllIds(rule.children)
  }

  function AllIds(rules: seq<Rule>): seq<string>
    decreases rules
  {
    if rules == [] then [] else Ids(rules[0]) + AllIds(rules[1..])
  }

  /** No node lies more than `room` levels below this one. */
  ghost predicate WithinDepth(rule: Rule, room: int) {
    room >= 0 && forall i :: 0 <= i < |rule.children| ==> WithinDepth(rule.children[i], room - 1)
  }

  ghost predicate UniformCriticality(rule: Rule) {
    forall i :: 0 <= i < |rule.children| ==>
      rule.children[i].criticality == rule.criticality && UniformCriticality(rule.children[i])
  }

  ghost predicate NoRepeats(ids: seq<string>) {
    forall i, j :: 0 <= i < j < |ids| ==> ids[i] != ids[j]
  }

  function SetOf(ids: seq<string>): set<string> { set x | x in ids }

  ghost predicate FreshIds(ids: seq<string>, seen: set<string>) {
    NoRepeats(ids) && (forall i :: 0 <= i < |ids| ==> ids[i] !in seen) && |seen| + |ids| <= MAX_RULES
  }

  lemma FreshSplit(a: seq<string>, b: seq<string>, seen: set<string>)
    ensures SetOf(a + b) == SetOf(a) + SetOf(b)
    ensures FreshIds(a, seen) ==> |seen + SetOf(a)| == |seen| + |a|
    ensures FreshIds(a + b, seen) <==> FreshIds(a, seen) && FreshIds(b, seen + SetOf(a))
  {
    if FreshIds(a, seen) {
      FreshCardinality(a, seen);
    }
    if FreshIds(a + b, seen) {
      FreshHalves(a, b, seen);
    } else if FreshIds(a, seen) && FreshIds(b, seen + SetOf(a)) {
      FreshJoined(a, b, seen);
    }
  }

  lemma FreshHalves(a: seq<string>, b: seq<string>, seen: set<string>)
    requires FreshIds(a + b, seen)
    ensures FreshIds(a, seen) && FreshIds(b, seen + SetOf(a))
  {
    var ab := a + b;
    assert forall i :: 0 <= i < |a| ==> ab[i] == a[i];
    FreshCardinality(a, seen);
    forall i | 0 <= i < |b| ensures b[i] !in seen + SetOf(a) {
      assert ab[|a| + i] == b[i];
    }
    forall i, j | 0 <= i < j < |b| ensures b[i] != b[j] {
      assert ab[|a| + i] != ab[|a| + j];
    }
  }

  lemma FreshJoined(a: seq<string>, b: seq<string>, seen: set<string>)
    requires FreshIds(a, seen) && FreshIds(b, seen + SetOf(a))
    ensures FreshIds(a + b, seen)
  {
    FreshCardinality(a, seen);
  }

  lemma {:induction false} FreshCardinality(ids: seq<string>, seen: set<string>)
    requires NoRepeats(ids) && forall i :: 0 <= i < |ids| ==> ids[i] !in seen
    ensures |seen + SetOf(ids)| == |seen| + |ids|
  {
    if ids == [] {
      assert seen + SetOf(ids) == seen;
    } else {
      var n := |ids| - 1;
      FreshCardinality(ids[..n], seen);
      assert SetOf(ids) == SetOf(ids[..n]) + {ids[n]};
      assert seen + SetOf(ids) == (seen + SetOf(ids[..n])) + {ids[n]};
    }
  }

  /** The conditions under which one node is accepted, apart from its identifiers. */
  ghost predicate Placed(rule: Rule, depth: int) {
    WithinDepth(rule, MAX_DEPTH - depth) && UniformCriticality(rule)
  }

  /** The children from position `k` on are placed below `rule` and keep its criticality. */
  ghost predicate PlacedFrom(rule: Rule, k: nat, depth: int) {
    forall i :: k <= i < |rule.children| ==>
      rule.children[i].criticality == rule.criticality && Placed(rule.children[i], depth + 1)
  }

  lemma PlacedMeaning(rule: Rule, depth: int)
    ensures Placed(rule, depth) <==> depth <= MAX_DEPTH && PlacedFrom(rule, 0, depth)
  {
    assert forall i :: 0 <= i < |rule.children| ==>
      (Placed(rule.children[i], depth + 1) <==>
       WithinDepth(rule.children[i], MAX_DEPTH - depth - 1) && UniformCriticality(rule.children[i]));
  }

  lemma PlacedStep(rule: Rule, k: nat, depth: int)
    requires k < |rule.children|
    ensures PlacedFrom(rule, k, depth) <==>
            && rule.children[k].criticality == rule.criticality && Placed(rule.children[k], depth + 1)
            && PlacedFrom(rule, k + 1, depth)
  {
  }

  /** A visit raises unless depth, size, identifiers and criticality are all within the rules. */
  lemma {:induction false} VisitMeaning(rule: Rule, depth: nat, seen: set<string>)
    requires |seen| <= MAX_RULES
    ensures Visit(rule, depth, seen).Some? <==> Placed(rule, depth) && FreshIds(Ids(rule), seen)
    ensures Visit(rule, depth, seen).Some? ==> Visit(rule, depth, seen).value == seen + SetOf(Ids(rule))
    decreases rule, 2
  {
    PlacedMeaning(rule, depth);
    FreshSplit([rule.id], AllIds(rule.children), seen);
    FreshSingle(rule.id, seen);
    if depth <= MAX_DEPTH && FreshIds([rule.id], seen) {
      assert rule.children[0..] == rule.children;
      VisitChildrenMeaning(rule, 0, depth, seen + {rule.id});
    }
  }

  lemma FreshSingle(id: string, seen: set<string>)
    ensures FreshIds([id], seen) <==> |seen| < MAX_RULES && id !in seen
    ensures SetOf([id]) == {id}
  {
    assert [id][0] == id;
  }

  lemma {:induction false} VisitChildrenMeaning(rule: Rule, k: nat, depth: nat, seen: set<string>)
    requires k <= |rule.children| && |seen| <= MAX_RULES
    ensures var rest := rule.children[k..];
            var r := VisitChildren(rule, rest, depth, seen);
            && (r.Some? <==> PlacedFrom(rule, k, depth) && FreshIds(AllIds(rest), seen))
            && (r.Some? ==> r.value == seen + SetOf(AllIds(rest)))
    decreases rule, 1, |rule.children| - k
  {
    var rest := rule.children[k..];
    if k == |rule.children| {
      assert rest == [];
    } else {
      var first, later := rule.children[k], rule.children[k + 1..];
      assert rest[0] == first && rest[1..] == later;
      PlacedStep(rule, k, depth);
      VisitMeaning(first, depth + 1, seen);
      FreshSplit(Ids(first), AllIds(later), seen);
      if Visit(first, depth + 1, seen).Some? {
        VisitChildrenMeaning(rule, k + 1, depth, seen + SetOf(Ids(first)));
      }
    }
  }

  /**
    A rule set is accepted exactly when identifiers never repeat, there are at most 500 nodes, no
    node is deeper than 16, children keep their parent's criticality, and no reason overrides an
    executable expression.
   */
  lemma AcceptedMeaning(rules: seq<Rule>)
    ensures Accepted(rules) <==>
            && (forall i :: 0 <= i < |rules| ==> SoundReasons(rules[i]) && Placed(rules[i], 0))
            && NoRepeats(AllIds(rules)) && |AllIds(rules)| <= MAX_RULES
  {
    VisitRulesMeaning(rules, {});
    assert forall i :: 0 <= i < |rules| ==> rules[i] in rules;
  }

  lemma {:induction false} VisitRulesMeaning(rules: seq<Rule>, seen: set<string>)
    requires |seen| <= MAX_RULES
    ensures VisitRules(rules, seen).Some? <==>
            (forall i :: 0 <= i < |rules| ==> Placed(rules[i], 0)) && FreshIds(AllIds(rules), seen)
  {
    if rules != [] {
      var first, later := rules[0], rules[1..];
      VisitMeaning(first, 0, seen);
      FreshSplit(Ids(first), AllIds(later), seen);
      assert (forall i :: 0 <= i < |rules| ==> Placed(rules[i], 0)) <==>
             Placed(first, 0) && forall i :: 0 <= i < |later| ==> Placed(later[i], 0) by {
        assert forall i :: 0 < i < |rules| ==> rules[i] == later[i - 1];
      }
      if Visit(first, 0, seen).Some? {
        VisitRulesMeaning(later, seen + SetOf(Ids(first)));
      }
    }
  }
}
