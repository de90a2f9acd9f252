/** A plan of two items whose drain raises: the reserve item is activated, issued and then refused. */
module DrainWitness {
  import EligibilityModel
  import opened Wrappers
  import opened AcquisitionModel
  import opened ActivationClosure
  import opened Activations
  import opened CoverageRules
  import opened CoverageInvariants
  import opened CoverageReconciliation
  import opened CoverageStart
  import opened SectionContexts
  import opened SectionScheduling
  import opened SchedulingMeaning
  import opened SectionDrain
  import opened DrainTheorems

  /** A mandatory item that refers to the section of a reserve item. */
  ghost predicate Referring(m: Item, r: Item, c: Category) {
    && m.tier.MandatoryAnchor? && m.categories == [c] && m.contexts == [r.section] && StructuralReference in m.routing
    && r.tier.ReserveFallback? && r.categories == [] && r.contexts == []
    && m.id != r.id && m.section != r.section
  }

  /** The mandatory section is incomplete; the reserve section can be read on its own. */
  ghost predicate OnTwoSections(m: Item, r: Item, a: Section, b: Section) {
    && a.id == m.section && b.id == r.section && a.start < b.start
    && a.contexts == [b.id] && a.parent.None? && !a.complete
    && b.contexts == [] && b.parent.None? && b.complete && |b.spans| == 1
  }

  function Both(m: Item, r: Item): seq<Item> { [m, r] }

  lemma PlanIsValid(m: Item, r: Item, c: Category, a: Section, b: Section)
    requires Referring(m, r, c) && OnTwoSections(m, r, a, b)
    ensures PlanValid(Both(m, r)) && PlanOnIndex([a, b], Both(m, r))
  {
    var items, index := Both(m, r), [a, b];
    assert index[0] == a && index[1] == b;
    forall i | 0 <= i < |items| ensures Addressed(items[i]) && Present(index, items[i].section) {
      assert items[i] == m || items[i] == r;
    }
    forall i | 0 <= i < |index| ensures AllPresent(index, index[i].contexts) {
      forall k | 0 <= k < |index[i].contexts| ensures Present(index, index[i].contexts[k]) {
        assert index[1].id == index[i].contexts[k];
      }
    }
  }

  // ----- the first activations

  lemma OnlyTarget(m: Item, r: Item, c: Category)
    requires Referring(m, r, c)
    ensures TargetsOf(Both(m, r), m.contexts) == [r] && TargetsOf(Both(m, r), r.contexts) == []
    ensures Mandatory(Both(m, r)) == [m]
  {
    var items := Both(m, r);
    assert items[..1] == [m] && items[..1][..0] == [] && items[1] == r;
    assert InSection(items[..1], r.section) == [];
    assert InSection(items, r.section) == [r];
    assert m.contexts[..0] == [];
    assert TargetsOf(items, m.contexts[..0]) == [];
    assert Mandatory(items[..1]) == [m];
  }

  function Started(m: Item, r: Item): seq<Activation> { [EdgeActivation(m, r, 0)] }

  lemma FirstActivations(m: Item, r: Item, c: Category)
    requires Referring(m, r, c)
    ensures InitialActivations(Both(m, r), 0) == Started(m, r)
  {
    var items := Both(m, r);
    OnlyTarget(m, r, c);
    assert StaticActivations(items, 0, 0) == [];
    assert StaticActivations(items, 1, 0) == [];
    assert StaticActivations(items, 2, 0) == [];
    var acts := Started(m, r);
    assert Refers(items, []);
    assert Queue(items, []) == [m];
    assert [r][..0] == [];
    assert Expand([], m, [r][..0], 0) == [];
    assert ExpandOne([], m, r, 0) == acts;
    assert Expand([], m, [r], 0) == acts;
    StartedQueue(m, r, c);
    assert Expand(acts, r, [], 0) == acts;
    assert Saturate(items, acts, 2, 0) == acts;
    assert Saturate(items, acts, 1, 0) == acts;
    assert Saturate(items, [], 0, 0) == acts;
  }

  lemma StartedQueue(m: Item, r: Item, c: Category)
    requires Referring(m, r, c)
    ensures Refers(Both(m, r), Started(m, r)) && Queue(Both(m, r), Started(m, r)) == [m, r]
  {
    var items, acts := Both(m, r), Started(m, r);
    OnlyTarget(m, r, c);
    assert items[1] == r;
    assert HasId(items, r.id);
    assert items[|items| - 1].id == r.id;
    assert acts[..0] == [];
    assert ItemsOf(items, acts[..0]) == [];
    assert ItemsOf(items, acts) == [r];
  }

  // ----- the ledger it starts with

  function StartLedger(m: Item, r: Item, c: Category): Ledger {
    Ledger(Both(m, r), map[(m.id, c) := Active, (r.id, c) := Active], {}, map[], map[], Started(m, r), [])
  }

  lemma StartIs(m: Item, r: Item, c: Category)
    requires Referring(m, r, c)
    ensures Initial(Both(m, r)) == Ok(StartLedger(m, r, c))
  {
    var items, acts := Both(m, r), Started(m, r);
    FirstActivations(m, r, c);
    BaseStates(m, r, c);
    assert acts[..0] == [];
    assert UniqueIds(items);
    FindAt(items, 1);
    assert Keys([]) == {};
    OneApplied(Base(items), acts[0], r);
    AppliedStates(m, r, c);
    assert acts == [acts[0]];
  }

  lemma OneApplied(l: Ledger, act: Activation, item: Item)
    requires Find(l.items, act.item) == Some(item) && item.categories == [] && KeyOf(act) !in Keys(l.activations)
    ensures Apply(l, [act]) == Ok(Applied(l, act))
  {
    assert [act][..0] == [];
    assert Apply(l, []) == Ok(l);
    ApplyOneIs(l, act, item);
  }

  lemma AppliedStates(m: Item, r: Item, c: Category)
    requires Referring(m, r, c)
    ensures Applied(Base(Both(m, r)), Started(m, r)[0]) == StartLedger(m, r, c)
  {
    BaseStates(m, r, c);
    assert Obligations(r.id, [c]) == {(r.id, c)};
    assert Marked(map[(m.id, c) := Active], r.id, [c], Active) == map[(m.id, c) := Active, (r.id, c) := Active];
  }

  lemma BaseStates(m: Item, r: Item, c: Category)
    requires Referring(m, r, c)
    ensures InitialStates(Both(m, r)) == map[(m.id, c) := Active]
  {
    var items := Both(m, r);
    assert items[..1] == [m] && items[..1][..0] == [];
    assert InitialStates([]) == map[];
    assert Obligations(m.id, [c]) == {(m.id, c)};
    assert InitialStates([m]) == map[(m.id, c) := Active];
    assert Obligations(r.id, []) == {};
  }

  lemma NothingAsked(m: Item, r: Item, c: Category, revision: nat)
    requires Referring(m, r, c) && CoverageInv(StartLedger(m, r, c))
    ensures Reconcile(StartLedger(m, r, c), revision) == Ok(StartLedger(m, r, c))
  {
    var l := StartLedger(m, r, c);
    forall q ensures Satisfies(l.items, Keys(l.activations), q) {
    }
    SaturatedStays(l, revision);
  }

  lemma ReserveRecorded(l: Ledger, m: Item, r: Item, c: Category)
    requires Referring(m, r, c) && l.items == Both(m, r) && l.activations == Started(m, r)
    ensures Recorded(l, m) == [c] && Recorded(l, r) == [c]
  {
    assert Started(m, r)[..0] == [];
    assert ActivatedCategories([], r.id) == [];
    assert ActivatedCategories(Started(m, r), r.id) == [c];
    assert [c][..0] == [];
    assert Distinct([c]) == [c];
  }

  lemma OneOffered(l: Ledger, x: Item, c: Category)
    requires Recorded(l, x) == [c] && InState(l, x.id, c, Active)
    ensures Offered(l, x) == [(x, [c])]
  {
    assert [c][..0] == [];
    assert ActiveAmong(l, x.id, []) == [];
    assert ActiveAmong(l, x.id, [c]) == [c];
  }

  lemma TwoListed(l: Ledger, x: Item, y: Item, c: Category)
    requires l.items == [x, y] && Offered(l, x) == [(x, [c])] && Offered(l, y) == [(y, [c])]
    ensures ActiveItems(l, 2) == [(x, [c]), (y, [c])]
  {
    assert ActiveItems(l, 0) == [];
    assert ActiveItems(l, 1) == [(x, [c])];
  }

  lemma BothListed(m: Item, r: Item, c: Category)
    requires Referring(m, r, c)
    ensures ActiveItems(StartLedger(m, r, c), 2) == [(m, [c]), (r, [c])]
  {
    var l := StartLedger(m, r, c);
    ReserveRecorded(l, m, r, c);
    OneOffered(l, m, c);
    OneOffered(l, r, c);
    TwoListed(l, m, r, c);
  }

  // ----- the first job

  lemma SecondResolves(a: Section, b: Section, m: Item, r: Item)
    requires OnTwoSections(m, r, a, b) && IndexValid([a, b])
    ensures ContextFor([a, b], a).None? && ContextFor([a, b], b) == Some(([], b.spans))
  {
    var index := [a, b];
    TargetPresent(index, b);
    TargetPresent(index, a);
    assert Gather(index, [], {b.id}) == Some({b.id});
    assert index[..1] == [a] && index[..1][..0] == [];
    assert InOrder([], {b.id}, b.id) == [];
    assert InOrder([a], {b.id}, b.id) == [];
    assert InOrder(index, {b.id}, b.id) == [];
    assert [b] + [] == [b] && [b][..0] == [];
    assert SpansOf([b][..0]) == [];
    assert SpansOf([b]) == b.spans;
    assert b.spans[..0] == [];
    assert Distinct(b.spans[..0]) == [];
    assert Distinct(b.spans) == b.spans;
    assert IdsOf([]) == [];
  }

  lemma AfterMandatory(m: Item, r: Item, c: Category, a: Section, b: Section) returns (l: Ledger)
    requires Referring(m, r, c) && OnTwoSections(m, r, a, b) && CoverageInv(StartLedger(m, r, c))
    ensures Unresolved(StartLedger(m, r, c), m.id, [c]) == Ok(l)
  {
    var s := StartLedger(m, r, c);
    BothListed(m, r, c);
    ActiveItemsEntries(s, 2);
    assert Entry(s, ActiveItems(s, 2)[0]);
    assert s.items[0] == m;
    UnresolvedIs(s, 0, [c]);
    l := s.(states := Marked(s.states, m.id, [c], ContextUnresolved));
  }

  /** The first answer of the scheduler is a job for the reserve item. */
  lemma ReserveIsOffered(m: Item, r: Item, c: Category, a: Section, b: Section, revision: nat) returns (l: Ledger)
    requires Referring(m, r, c) && OnTwoSections(m, r, a, b)
    requires PlanOnIndex([a, b], Both(m, r)) && CoverageInv(StartLedger(m, r, c))
    requires Present([a, b], m.section) && Present([a, b], r.section)
    ensures Offer(StartLedger(m, r, c), [a, b], [(m, [c]), (r, [c])], revision, false)
         == (l, Issued(JobFor(r, [c], ([], b.spans), revision)))
  {
    var index := [a, b];
    l := AfterMandatory(m, r, c, a, b);
    SecondResolves(a, b, m, r);
    SectionAt(index, 0);
    SectionAt(index, 1);
    assert index[0] == a && index[1] == b;
    assert [(m, [c]), (r, [c])][1..] == [(r, [c])];
  }

  /**
   * Whatever the run and whatever the extractions return, draining this plan raises at its first step: the
   * mandatory item is set aside for want of context, the reserve item is issued, and `begin` refuses it.
   */
  lemma ActivatedReserveRaises(
    m: Item, r: Item, c: Category, a: Section, b: Section, run: Run, script: nat -> Extraction)
    requires Referring(m, r, c) && OnTwoSections(m, r, a, b)
    requires run.stopped.None? && run.steps < run.maxSteps && run.actions == {} && run.calls < run.callLimit
    ensures PlanValid(Both(m, r)) && PlanOnIndex([a, b], Both(m, r)) && Reached(Both(m, r), r)
    ensures Initial(Both(m, r)) == Ok(StartLedger(m, r, c))
    ensures DrainInv(Acquisition(run, StartLedger(m, r, c), run.calls), [a, b])
    ensures Drain(Acquisition(run, StartLedger(m, r, c), run.calls), [a, b], script).1.Crashed?
  {
    var index, items := [a, b], Both(m, r);
    PlanIsValid(m, r, c, a, b);
    StartIs(m, r, c);
    DrainStarts(run, index, items);
    assert Edge(items[0], r);
    var start := Acquisition(run, StartLedger(m, r, c), run.calls);
    var l := FirstAnswer(m, r, c, a, b, start);
    StepKeeps(start, index, script(run.steps));
  }

  lemma FirstAnswer(m: Item, r: Item, c: Category, a: Section, b: Section, start: Acquisition) returns (l: Ledger)
    requires Referring(m, r, c) && OnTwoSections(m, r, a, b) && Loaded(start, [a, b])
    requires start.ledger == StartLedger(m, r, c) && start.initial == start.run.calls
    requires start.run.stopped.None? && start.run.steps < start.run.maxSteps && start.run.calls < start.run.callLimit
    ensures Ask(start, [a, b]) == (l, Issued(JobFor(r, [c], ([], b.spans), start.run.revision)))
  {
    var active := [(m, [c]), (r, [c])];
    TwoPlaced(m, r, c, a, b);
    l := FirstOffer(m, r, c, a, b, start.run.revision, start.ledger, active);
    AskIs(start, [a, b], active);
  }

  lemma TwoPlaced(m: Item, r: Item, c: Category, a: Section, b: Section)
    requires OnTwoSections(m, r, a, b)
    ensures AllPlaced([a, b], [(m, [c]), (r, [c])])
  {
    assert [a, b][0].id == m.section && [a, b][1].id == r.section;
  }

  lemma FirstOffer(
    m: Item, r: Item, c: Category, a: Section, b: Section, revision: nat, s: Ledger, active: seq<(Item, seq<Category>)>)
    returns (l: Ledger)
    requires Referring(m, r, c) && OnTwoSections(m, r, a, b) && CoverageInv(s) && PlanOnIndex([a, b], s.items)
    requires s == StartLedger(m, r, c) && active == [(m, [c]), (r, [c])] && AllPlaced([a, b], active)
    ensures Reconcile(s, revision) == Ok(s) && ActiveItems(s, |s.items|) == active
    ensures forall k :: 0 <= k < |active| ==> Present([a, b], active[k].0.section)
    ensures Offer(s, [a, b], active, revision, false) == (l, Issued(JobFor(r, [c], ([], b.spans), revision)))
  {
    NothingAsked(m, r, c, revision);
    BothListed(m, r, c);
    assert Present([a, b], active[0].0.section) && Present([a, b], active[1].0.section);
    l := ReserveIsOffered(m, r, c, a, b, revision);
  }

  /** A running drain with calls left asks for the first offer of its active items. */
  lemma AskIs(a: Acquisition, index: seq<Section>, active: seq<(Item, seq<Category>)>)
    requires Loaded(a, index) && Reconcile(a.ledger, a.run.revision) == Ok(a.ledger)
    requires ActiveItems(a.ledger, |a.ledger.items|) == active && AllPlaced(index, active)
    requires a.run.stopped.None? && a.run.steps < a.run.maxSteps
    requires a.run.calls == a.initial && a.run.calls < a.run.callLimit
    ensures forall k :: 0 <= k < |active| ==> Present(index, active[k].0.section)
    ensures Ask(a, index) == Offer(a.ledger, index, active, a.run.revision, false)
  {
  }
}
