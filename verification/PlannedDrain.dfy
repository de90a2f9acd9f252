/** From the indexed sections through the built plan to the end of its drain. */
module PlannedDrain {
  import EligibilityModel
  import Sorting
  import SourceText
  import opened Wrappers
  import opened AcquisitionModel
  import opened ActivationClosure
  import Activations
  import opened PlanBuilding
  import opened PlanTheorems
  import opened PlanCompleteness
  import opened CoverageInvariants
  import opened CoverageRules
  import opened SectionContexts
  import opened SectionScheduling
  import opened SectionDrain
  import opened DrainTheorems
  import opened DrainWitness

  /** The routed sections are those of the index. */
  ghost predicate Routes(sections: seq<RoutedSection>, index: seq<Section>) {
    |sections| == |index| && forall k :: 0 <= k < |index| ==> sections[k].id == index[k].id
  }

  /** A section with candidates is governed by one without, and a reference or its global scope ties them. */
  predicate Cites(s: RoutedSection, t: RoutedSection) {
    && Candidates(s) != [] && Candidates(t) == [] && t.id in s.contexts
    && (GlobalScope in t.routing || StructuralReference in s.routing)
  }

  ghost predicate ReserveCited(sections: seq<RoutedSection>) {
    exists i, j :: 0 <= i < |sections| && 0 <= j < |sections| && Cites(sections[i], sections[j])
  }

  ghost predicate ReserveReached(items: seq<Item>) {
    exists i :: 0 <= i < |items| && items[i].tier.ReserveFallback? && Reached(items, items[i])
  }

  lemma MadeFor(sections: seq<RoutedSection>, digest: Payload -> string, i: nat) returns (k: nat)
    requires SectionsValid(sections) && i < |BuiltPlan(sections, digest)|
    ensures k < |sections| && Made(BuiltPlan(sections, digest)[i], sections[k], digest)
  {
    ByStartKeeps(sections);
    PlanMade(ByStart(sections), digest, i);
    var j :| 0 <= j < |ByStart(sections)| && Made(BuiltPlan(sections, digest)[i], ByStart(sections)[j], digest);
    k := StillThere(ByStart(sections), sections, j);
  }

  lemma CarriedIsExpected(sections: seq<RoutedSection>, digest: Payload -> string, i: nat, k: nat, c: Option<Category>)
    requires SectionsValid(sections) && InjectiveOn(digest) && i < |BuiltPlan(sections, digest)| && k < |sections|
    requires Carries(BuiltPlan(sections, digest)[i], sections[k].id, c)
    ensures Expected(sections[k], c)
  {
    var id := sections[k].id;
    BuiltMeaning(sections, id, c, digest);
    Sorting.CountedSome(Carrying(id, c), BuiltPlan(sections, digest), i);
    var n :| 0 <= n < |sections| && sections[n].id == id && Expected(sections[n], c);
    assert n == k;
  }

  /** An item is a reserve exactly when its section has no candidate. */
  lemma ReserveWithoutCandidates(sections: seq<RoutedSection>, digest: Payload -> string, i: nat, k: nat)
    requires SectionsValid(sections) && InjectiveOn(digest) && i < |BuiltPlan(sections, digest)| && k < |sections|
    requires Made(BuiltPlan(sections, digest)[i], sections[k], digest)
    ensures BuiltPlan(sections, digest)[i].categories == [] <==> Candidates(sections[k]) == []
  {
    var item := BuiltPlan(sections, digest)[i];
    var c := if item.categories == [] then None else Some(item.categories[0]);
    CarriedIsExpected(sections, digest, i, k, c);
    CandidatesMeaning(sections[k]);
    assert c.Some? ==> c.value in Candidates(sections[k]);
  }

  /** Some item of the section, made for it. */
  lemma ItemFor(sections: seq<RoutedSection>, digest: Payload -> string, k: nat) returns (i: nat)
    requires SectionsValid(sections) && k < |sections|
    ensures i < |BuiltPlan(sections, digest)| && Made(BuiltPlan(sections, digest)[i], sections[k], digest)
  {
    ByStartKeeps(sections);
    var n := StillThere(sections, ByStart(sections), k);
    i := SectionRepresented(ByStart(sections), digest, n);
    var m := MadeFor(sections, digest, i);
    assert m == k;
  }

  /** An edge between items made for two sections, the second one a reserve, is a citation. */
  lemma EdgeIsCitation(x: Item, s: RoutedSection, y: Item, t: RoutedSection, digest: Payload -> string)
    requires Made(x, s, digest) && Made(y, t, digest)
    requires (x.categories == [] <==> Candidates(s) == []) && y.tier.ReserveFallback? && Candidates(t) == []
    ensures Edge(x, y) <==> Cites(s, t)
  {
  }

  /** The plan has a context edge to a reserve item if and only if the sections have such a citation. */
  lemma ReachedIffCited(sections: seq<RoutedSection>, digest: Payload -> string)
    requires SectionsValid(sections) && InjectiveOn(digest)
    ensures ReserveReached(BuiltPlan(sections, digest)) <==> ReserveCited(sections)
  {
    var items := BuiltPlan(sections, digest);
    if ReserveReached(items) {
      var i :| 0 <= i < |items| && items[i].tier.ReserveFallback? && Reached(items, items[i]);
      var j :| 0 <= j < |items| && Edge(items[j], items[i]);
      var t, s := CitedSections(sections, digest, i, j);
    }
    if ReserveCited(sections) {
      var s, t :| 0 <= s < |sections| && 0 <= t < |sections| && Cites(sections[s], sections[t]);
      var i := ItemFor(sections, digest, t);
      var j := ItemFor(sections, digest, s);
      ReserveWithoutCandidates(sections, digest, i, t);
      ReserveWithoutCandidates(sections, digest, j, s);
      EdgeIsCitation(items[j], sections[s], items[i], sections[t], digest);
    }
  }

  lemma CitedSections(sections: seq<RoutedSection>, digest: Payload -> string, i: nat, j: nat) returns (t: nat, s: nat)
    requires SectionsValid(sections) && InjectiveOn(digest)
    requires i < |BuiltPlan(sections, digest)| && j < |BuiltPlan(sections, digest)|
    requires BuiltPlan(sections, digest)[i].tier.ReserveFallback?
    requires Edge(BuiltPlan(sections, digest)[j], BuiltPlan(sections, digest)[i])
    ensures t < |sections| && s < |sections| && Cites(sections[s], sections[t])
  {
    t := MadeFor(sections, digest, i);
    s := MadeFor(sections, digest, j);
    ReserveWithoutCandidates(sections, digest, i, t);
    ReserveWithoutCandidates(sections, digest, j, s);
    EdgeIsCitation(BuiltPlan(sections, digest)[j], sections[s], BuiltPlan(sections, digest)[i], sections[t], digest);
  }

  lemma BuiltOnIndex(sections: seq<RoutedSection>, index: seq<Section>, digest: Payload -> string)
    requires SectionsValid(sections) && InjectiveOn(digest) && IndexValid(index) && Routes(sections, index)
    ensures PlanValid(BuiltPlan(sections, digest)) && PlanOnIndex(index, BuiltPlan(sections, digest))
  {
    var items := BuiltPlan(sections, digest);
    BuiltMeaning(sections, "", None, digest);
    forall i | 0 <= i < |items| ensures Present(index, items[i].section) {
      var k := MadeFor(sections, digest, i);
      assert index[k].id == items[i].section;
    }
  }

  /**
   * A run on the plan built from any index starts in the drain's invariant and ends after at most seven
   * calls. It ends stopped, and nothing raises, unless some section without candidates is cited.
   */
  lemma PlannedDrainMeaning(
    r: Run, sections: seq<RoutedSection>, index: seq<Section>, digest: Payload -> string, script: nat -> Extraction)
    requires SectionsValid(sections) && InjectiveOn(digest) && IndexValid(index) && Routes(sections, index)
    requires r.steps <= r.maxSteps && r.actions == {}
    ensures var items := BuiltPlan(sections, digest);
            && Initial(items).Ok? && DrainInv(Acquisition(r, Initial(items).value, r.calls), index)
            && var (b, v) := Drain(Acquisition(r, Initial(items).value, r.calls), index, script);
            && CoverageInv(b.ledger) && b.run.calls <= r.calls + MAX_EXTRACTION_JOBS && !v.Going?
            && (!ReserveCited(sections) ==> v.Finished? && b.run.stopped.Some?)
  {
    var items := BuiltPlan(sections, digest);
    BuiltOnIndex(sections, index, digest);
    DrainStarts(r, index, items);
    DrainMeaning(Acquisition(r, Initial(items).value, r.calls), index, script);
    if !ReserveCited(sections) {
      ReachedIffCited(sections, digest);
      UnreachedReserveDrainStops(r, index, items, script);
    }
  }

  // ----- two sections whose plan raises

  /** A deadline rule that refers to the next section, and to something that could not be resolved. */
  function Rule(): RoutedSection {
    RoutedSection(
      "a", 0, ["b"], false, [EligibilityModel.Deadline], [], true, [],
      [BodyCategoryTerm, RuleLikeMarker, StructuralReference])
  }

  /** A section with no term of any category. */
  function Plain(): RoutedSection { RoutedSection("b", 1, [], true, [], [], false, [], []) }

  function RuleItem(digest: Payload -> string): Item {
    MakeItem(Rule(), [EligibilityModel.Deadline], MandatoryAnchor, [], digest)
  }

  function PlainItem(digest: Payload -> string): Item { MakeItem(Plain(), [], ReserveFallback, [], digest) }

  lemma RuleCandidates()
    ensures Candidates(Rule()) == [EligibilityModel.Deadline] && Candidates(Plain()) == []
  {
    var s, cats := Rule(), Candidates(Rule());
    CandidatesMeaning(s);
    assert EligibilityModel.Deadline in s.body;
    assert EligibilityModel.Deadline in cats;
    var n := |cats| - 1;
    assert n > 0 ==> Activations.Rank(cats[0]) < Activations.Rank(cats[n]);
    assert cats[0] in cats && cats[n] in cats;
    PlainCandidates();
  }

  lemma PlainCandidates()
    ensures Candidates(Plain()) == []
  {
    var cats := Candidates(Plain());
    assert cats != [] ==> cats[0] in cats;
    CandidatesMeaning(Plain());
  }

  lemma RuleMade(digest: Payload -> string)
    ensures SectionItems([Rule(), Plain()], Rule(), digest) == [RuleItem(digest)]
    ensures SectionItems([Rule(), Plain()], Plain(), digest) == [PlainItem(digest)]
  {
    RuleCandidates();
    var s, d, sections := Rule(), EligibilityModel.Deadline, [Rule(), Plain()];
    assert s.routing[1] == RuleLikeMarker && LocalMandatory(s, d);
    var anchored := (c: Category) => MandatorySomewhere(sections, c);
    var groups := [Group(MandatoryAnchor, [], 0, [d])];
    assert [d][..0] == [];
    assert Grouped(s, [d], anchored) == groups;
    assert groups[..0] == [] && [[d]][..0] == [];
    assert Chunks([d]) == [[d]];
    assert ChunkItems(s, [[d]], groups[0], digest) == [RuleItem(digest)];
    assert GroupItems(s, groups, digest) == [RuleItem(digest)];
  }

  lemma RulePlan(digest: Payload -> string)
    ensures BuiltPlan([Rule(), Plain()], digest) == [RuleItem(digest), PlainItem(digest)]
  {
    RuleMade(digest);
    PlanOfPair(Rule(), Plain(), RuleItem(digest), PlainItem(digest), digest);
  }

  /** Two sections in order, each with one item, the mandatory one first. */
  lemma PlanOfPair(s: RoutedSection, t: RoutedSection, m: Item, r: Item, digest: Payload -> string)
    requires s.start < t.start
    requires SectionItems([s, t], s, digest) == [m] && SectionItems([s, t], t, digest) == [r]
    requires m.tier.MandatoryAnchor? && |m.categories| == 1 && r.categories == []
    requires m.ranking.tierRank < r.ranking.tierRank
    ensures BuiltPlan([s, t], digest) == [m, r]
  {
    SortedPair(StartKey, s, t);
    PartsOfPair(s, t, m, r, digest);
    RecordsOfPair(m, r);
    ItemsOfPair(Record(m, 0), Record(r, 0));
  }

  lemma PartsOfPair(s: RoutedSection, t: RoutedSection, m: Item, r: Item, digest: Payload -> string)
    requires SectionItems([s, t], s, digest) == [m] && SectionItems([s, t], t, digest) == [r]
    ensures Parts([s, t], digest) == [[m], [r]]
  {
  }

  lemma ItemsOfPair(x: Record, y: Record)
    requires x.item.ranking.tierRank < y.item.ranking.tierRank
    ensures ItemsOfRecords(Sorting.Sort(OrderKey, [x, y])) == [x.item, y.item]
  {
    SortedPair(OrderKey, x, y);
    assert [x, y][..1] == [x];
    assert ItemsOfRecords([x]) == [x.item];
  }

  lemma SortedPair<T>(key: T -> seq<int>, x: T, y: T)
    requires key(x) != [] && key(y) != [] && key(x)[0] < key(y)[0]
    ensures Sorting.Sort(key, [x, y]) == [x, y]
  {
    assert [x, y][..1] == [x] && [x][..0] == [];
    assert Sorting.Sort(key, [x]) == [x];
  }

  lemma RecordsOfPair(m: Item, r: Item)
    requires m.tier.MandatoryAnchor? && |m.categories| == 1 && r.categories == []
    ensures RecordsOf([[m], [r]]) == [Record(m, 0), Record(r, 0)]
  {
    assert [[m], [r]][..1] == [[m]] && [[m]][..0] == [] && [m][..0] == [] && [r][..0] == [];
    assert m.categories[..0] == [];
    assert Breadth([], m.tier, m.categories) == 0;
    assert PlanBuilding.Recorded([], [m]) == [Record(m, 0)];
    assert RecordsOf([[m]]) == [Record(m, 0)];
    assert PlanBuilding.Recorded([Record(m, 0)], [r]) == [Record(m, 0), Record(r, 0)];
  }

  /** So the plan built from a valid index can make its drain raise, whatever the identifiers are. */
  lemma BuiltPlanCanRaise(r: Run, digest: Payload -> string, script: nat -> Extraction)
    returns (sections: seq<RoutedSection>, index: seq<Section>, a: Acquisition)
    requires InjectiveOn(digest)
    requires r.stopped.None? && r.steps < r.maxSteps && r.actions == {} && r.calls < r.callLimit
    ensures SectionsValid(sections) && ContextsKnown(sections) && IndexValid(index) && Routes(sections, index)
    ensures ReserveCited(sections)
    ensures Initial(BuiltPlan(sections, digest)) == Ok(a.ledger) && a == Acquisition(r, a.ledger, r.calls)
    ensures DrainInv(a, index) && Drain(a, index, script).1.Crashed?
  {
    sections, index := [Rule(), Plain()], [First(), Second()];
    RuleCites();
    RuleRoutes();
    RulePlan(digest);
    a := PlanRaises(RuleItem(digest), PlainItem(digest), r, digest, script);
  }

  function First(): Section { Section("a", 0, 1, None, ["b"], false, []) }

  function Second(): Section { Section("b", 1, 2, None, [], true, [SourceText.Range(1, 2)]) }

  lemma PlanRaises(
    m: Item, x: Item, r: Run, digest: Payload -> string, script: nat -> Extraction) returns (a: Acquisition)
    requires InjectiveOn(digest) && m == RuleItem(digest) && x == PlainItem(digest)
    requires r.stopped.None? && r.steps < r.maxSteps && r.actions == {} && r.calls < r.callLimit
    ensures IndexValid([First(), Second()]) && Initial([m, x]) == Ok(a.ledger) && a == Acquisition(r, a.ledger, r.calls)
    ensures DrainInv(a, [First(), Second()]) && Drain(a, [First(), Second()], script).1.Crashed?
  {
    RuleRefers(digest);
    RuleIndexed(digest);
    assert Both(m, x) == [m, x];
    a := Acquisition(r, StartLedger(m, x, EligibilityModel.Deadline), r.calls);
    ActivatedReserveRaises(m, x, EligibilityModel.Deadline, First(), Second(), r, script);
  }

  lemma RuleRoutes()
    ensures Routes([Rule(), Plain()], [First(), Second()])
  {
  }

  lemma RuleIndexed(digest: Payload -> string)
    ensures OnTwoSections(RuleItem(digest), PlainItem(digest), First(), Second())
  {
  }

  lemma RuleCites()
    ensures SectionsValid([Rule(), Plain()]) && ContextsKnown([Rule(), Plain()]) && ReserveCited([Rule(), Plain()])
  {
    RuleCandidates();
    RuleFields(Rule(), Plain());
  }

  lemma RuleFields(s: RoutedSection, t: RoutedSection)
    requires s == Rule() && t == Plain() && Candidates(s) != [] && Candidates(t) == []
    ensures SectionsValid([s, t]) && ContextsKnown([s, t]) && ReserveCited([s, t])
  {
    var sections := [s, t];
    assert s.routing[2] == StructuralReference;
    assert sections[1].id == t.id && t.id in s.contexts;
    assert Cites(sections[0], sections[1]);
  }

  lemma RuleRefers(digest: Payload -> string)
    requires InjectiveOn(digest)
    ensures Referring(RuleItem(digest), PlainItem(digest), EligibilityModel.Deadline)
  {
    var m, x := RuleItem(digest), PlainItem(digest);
    assert m.routing[2] == StructuralReference;
    assert PayloadOf(m).section != PayloadOf(x).section;
    assert m.id == digest(PayloadOf(m)) && x.id == digest(PayloadOf(x));
  }
}
