/** Reconciling the plan: what it activates, what it leaves alone, and that doing it twice changes nothing. */
module CoverageReconciliation {
  import EligibilityModel
  import opened Wrappers
  import opened AcquisitionModel
  import opened ActivationClosure
  import opened Activations
  import opened CoverageRules
  import opened CoverageInvariants

  // ----- activations stay proper

  lemma EdgeKeyProper(items: seq<Item>, causing: Item, j: nat)
    requires UniqueIds(items) && j < |items| && Edge(causing, items[j]) && causing in items
    requires items[j].tier.ConditionalDiscovery? ==> items[j].categories != []
    ensures Proper(items, EdgeKey(causing, items[j]))
  {
    forall i | 0 <= i < |items| && items[i].id == items[j].id ensures i == j {
    }
  }

  lemma AskedKeyProper(items: seq<Item>, j: nat)
    requires UniqueIds(items) && j < |items| && items[j].tier.ConditionalDiscovery?
    ensures Proper(items, (items[j].id, items[j].categories))
  {
    forall i | 0 <= i < |items| && items[i].id == items[j].id ensures i == j {
    }
  }

  ghost function ProperPart(items: seq<Item>, keys: set<Key>): set<Key> {
    set key | key in keys && Proper(items, key)
  }

  lemma ProperPartClosed(items: seq<Item>, keys: set<Key>)
    requires PlanValid(items) && Closed(items, keys)
    ensures Closed(items, ProperPart(items, keys))
  {
    var part := ProperPart(items, keys);
    forall i | 0 <= i < |items| && ActiveIn(items[i], part) ensures Follows(items, part, items[i]) {
      assert ActiveIn(items[i], keys);
      assert Follows(items, keys, items[i]);
      forall j | 0 <= j < |items| && Edge(items[i], items[j]) ensures EdgeKey(items[i], items[j]) in part {
        assert Addressed(items[j]);
        EdgeKeyProper(items, items[i], j);
      }
    }
  }

  lemma ActivateKeepsProper(items: seq<Item>, existing: seq<Activation>, r: Request, revision: nat)
    requires PlanValid(items) && Refers(items, existing) && AllProper(items, Keys(existing))
    ensures AllProper(items, Keys(Activate(items, existing, r, revision)))
  {
    ActivateMeaning(items, existing, r, revision);
    var after := Keys(Activate(items, existing, r, revision));
    var part := ProperPart(items, after);
    ProperPartClosed(items, after);
    forall i | 0 <= i < |items| && Asked(items[i], r) ensures (items[i].id, items[i].categories) in part {
      AskedKeyProper(items, i);
    }
    ActivateIsLeast(items, existing, r, revision, part);
  }

  lemma {:induction false} ActivateAllProper(
    items: seq<Item>, acts: seq<Activation>, requests: seq<Request>, revision: nat)
    requires PlanValid(items) && Refers(items, acts) && AllProper(items, Keys(acts))
    ensures AllProper(items, Keys(ActivateAll(items, acts, requests, revision)))
  {
    if requests != [] {
      var n := |requests| - 1;
      ActivateAllProper(items, acts, requests[..n], revision);
      var before := ActivateAll(items, acts, requests[..n], revision);
      ActivateMeaning(items, before, requests[n], revision);
      ActivateKeepsProper(items, before, requests[n], revision);
    }
  }

  // ----- applying activations

  ghost predicate SameOrActivated(l: Ledger, m: Ledger, item: Item) {
    item.categories != [] ==>
      && (item.id, item.categories[0]) in l.states && (item.id, item.categories[0]) in m.states
      && (StateOf(m, item) == StateOf(l, item)
          || (item.tier.ConditionalDiscovery? && StateOf(l, item).Inactive? && StateOf(m, item).Active?))
  }

  /** Nothing but activations: no attempt, outcome or mandatory state moves. */
  ghost predicate OnlyActivated(l: Ledger, m: Ledger) {
    && m == l.(activations := m.activations, states := m.states)
    && l.activations <= m.activations
    && (forall i {:trigger SameOrActivated(l, m, l.items[i])} :: 0 <= i < |l.items| ==>
        SameOrActivated(l, m, l.items[i]))
    && (forall o: Obligation :: MandatoryId(l.items, o.0) ==>
        (o in m.states <==> o in l.states) && (o in l.states ==> m.states[o] == l.states[o]))
  }

  ghost predicate MandatoryId(items: seq<Item>, id: ItemId) {
    exists i :: 0 <= i < |items| && items[i].id == id && items[i].tier.MandatoryAnchor?
  }

  lemma OnlyActivatedTransitive(l: Ledger, m: Ledger, n: Ledger)
    requires OnlyActivated(l, m) && OnlyActivated(m, n)
    ensures OnlyActivated(l, n)
  {
    forall i | 0 <= i < |l.items| ensures SameOrActivated(l, n, l.items[i]) {
      assert SameOrActivated(l, m, l.items[i]) && SameOrActivated(m, n, m.items[i]);
    }
  }

  lemma OnlyActivatedReflexive(l: Ledger)
    requires Coherent(l)
    ensures OnlyActivated(l, l)
  {
    forall i | 0 <= i < |l.items| ensures SameOrActivated(l, l, l.items[i]) {
      if l.items[i].categories != [] {
        assert Cells(l, l.items[i]);
        assert Cell(l, l.items[i], l.items[i].categories[0]);
      }
    }
  }

  lemma {:induction false} ActivatedCategoriesGrow(acts: seq<Activation>, a: Activation, id: ItemId, c: Category)
    ensures c in ActivatedCategories(acts, id) ==> c in ActivatedCategories(acts + [a], id)
    ensures a.item == id && c in a.categories ==> c in ActivatedCategories(acts + [a], id)
  {
    assert (acts + [a])[..|acts|] == acts;
  }

  /** The new activation of a plan item, when its key was not listed. */
  function Applied(l: Ledger, a: Activation): Ledger {
    l.(activations := l.activations + [a], states := Marked(l.states, a.item, a.categories, Active))
  }

  lemma AppliedKeys(l: Ledger, a: Activation)
    ensures Keys(Applied(l, a).activations) == Keys(l.activations) + {KeyOf(a)}
  {
    assert Applied(l, a).activations[..|l.activations|] == l.activations;
  }

  /** The cells of another item do not see the new activation. */
  lemma AppliedElsewhere(l: Ledger, a: Activation, i: nat, j: nat)
    requires PlanValid(l.items) && i < |l.items| && j < |l.items| && i != j && a.item == l.items[i].id
    requires Cells(l, l.items[j])
    ensures Cells(Applied(l, a), l.items[j])
    ensures SameOrActivated(l, Applied(l, a), l.items[j])
  {
    var y := l.items[j];
    assert a.item != y.id by {
      if i < j { assert l.items[i].id != l.items[j].id; } else { assert l.items[j].id != l.items[i].id; }
    }
    AppliedKeys(l, a);
    forall k | 0 <= k < |y.categories| ensures Cell(Applied(l, a), y, y.categories[k]) {
      assert Cell(l, y, y.categories[k]);
    }
    if y.categories != [] {
      assert Cell(l, y, y.categories[0]);
    }
  }

  /** A conditional item that becomes active. */
  lemma AppliedHere(l: Ledger, a: Activation, i: nat)
    requires Coherent(l) && i < |l.items| && l.items[i].tier.ConditionalDiscovery?
    requires KeyOf(a) == (l.items[i].id, l.items[i].categories) && KeyOf(a) !in Keys(l.activations)
    ensures Cells(Applied(l, a), l.items[i])
    ensures SameOrActivated(l, Applied(l, a), l.items[i])
  {
    var x := l.items[i];
    assert Addressed(x);
    AppliedKeys(l, a);
    assert Cells(l, x);
    assert Cell(l, x, x.categories[0]);
    assert (x.id, x.categories[0]) in Obligations(x.id, x.categories);
    forall k | 0 <= k < |x.categories| ensures Cell(Applied(l, a), x, x.categories[k]) {
      assert Cell(l, x, x.categories[k]);
      assert (x.id, x.categories[k]) in Obligations(x.id, x.categories);
    }
  }

  lemma RecordedGrows(l: Ledger, a: Activation, item: Item, c: Category)
    ensures c in Recorded(l, item) ==> c in Recorded(Applied(l, a), item)
    ensures item.categories == [] && a.item == item.id && c in a.categories ==> c in Recorded(Applied(l, a), item)
  {
    ActivatedCategoriesGrow(l.activations, a, item.id, c);
    DistinctMembers(ActivatedCategories(l.activations, item.id));
    DistinctMembers(ActivatedCategories(l.activations + [a], item.id));
  }

  lemma AppliedKnown(l: Ledger, a: Activation, i: nat)
    requires Coherent(l) && i < |l.items| && a.item == l.items[i].id
    requires l.items[i].categories != [] ==> a.categories == l.items[i].categories
    ensures forall o :: o in Applied(l, a).states ==> ObligationKnown(Applied(l, a), o)
  {
    var m := Applied(l, a);
    forall o | o in m.states ensures ObligationKnown(m, o) {
      if o in l.states {
        assert ObligationKnown(l, o);
        var j :| 0 <= j < |l.items| && l.items[j].id == o.0 && o.1 in Recorded(l, l.items[j]);
        RecordedGrows(l, a, l.items[j], o.1);
        assert o.1 in Recorded(m, m.items[j]);
      } else {
        assert o in Obligations(a.item, a.categories);
        RecordedGrows(l, a, l.items[i], o.1);
        assert o.1 in Recorded(m, m.items[i]);
      }
    }
  }

  lemma AppliedCells(l: Ledger, a: Activation, i: nat, j: nat)
    requires Coherent(l) && i < |l.items| && j < |l.items| && a.item == l.items[i].id
    requires Proper(l.items, KeyOf(a)) && KeyOf(a) !in Keys(l.activations)
    ensures Cells(Applied(l, a), l.items[j]) && SameOrActivated(l, Applied(l, a), l.items[j])
  {
    assert Addressed(l.items[j]);
    if j != i {
      AppliedElsewhere(l, a, i, j);
    } else if l.items[i].tier.ConditionalDiscovery? {
      AppliedHere(l, a, i);
    }
  }

  lemma AppliedRefers(l: Ledger, a: Activation)
    requires Refers(l.items, l.activations) && HasId(l.items, a.item)
    ensures Refers(l.items, l.activations + [a])
  {
    forall k | 0 <= k < |l.activations + [a]| ensures HasId(l.items, (l.activations + [a])[k].item) {
      if k < |l.activations| { assert HasId(l.items, l.activations[k].item); }
    }
  }

  lemma AppliedSparesMandatory(l: Ledger, a: Activation, o: Obligation)
    requires Proper(l.items, KeyOf(a)) && MandatoryId(l.items, o.0)
    ensures o in Applied(l, a).states <==> o in l.states
    ensures o in l.states ==> Applied(l, a).states[o] == l.states[o]
  {
    var j :| 0 <= j < |l.items| && l.items[j].id == o.0 && l.items[j].tier.MandatoryAnchor?;
    assert o.0 != a.item;
  }

  lemma AppliedKeepsInv(l: Ledger, a: Activation, i: nat)
    requires Coherent(l) && i < |l.items| && a.item == l.items[i].id
    requires Proper(l.items, KeyOf(a)) && KeyOf(a) !in Keys(l.activations)
    ensures Coherent(Applied(l, a)) && OnlyActivated(l, Applied(l, a))
    ensures l.items[i].categories != [] ==> a.categories == l.items[i].categories
  {
    var m := Applied(l, a);
    assert Addressed(l.items[i]);
    assert HasId(l.items, a.item);
    AppliedKeys(l, a);
    AppliedKnown(l, a, i);
    AppliedRefers(l, a);
    forall j | 0 <= j < |m.items| ensures Cells(m, m.items[j]) && SameOrActivated(l, m, l.items[j]) {
      AppliedCells(l, a, i, j);
    }
    forall o: Obligation | MandatoryId(l.items, o.0)
      ensures (o in m.states <==> o in l.states) && (o in l.states ==> m.states[o] == l.states[o])
    {
      AppliedSparesMandatory(l, a, o);
    }
  }

  lemma ApplyOneMeaning(l: Ledger, a: Activation)
    requires Coherent(l) && HasId(l.items, a.item) && Proper(l.items, KeyOf(a))
    ensures ApplyOne(l, a).Ok?
    ensures var m := ApplyOne(l, a).value;
            && Coherent(m) && OnlyActivated(l, m)
            && Keys(m.activations) == Keys(l.activations) + {KeyOf(a)}
  {
    if KeyOf(a) in Keys(l.activations) {
      OnlyActivatedReflexive(l);
    } else {
      FindMeaning(l.items, a.item);
      var i := FindIndex(l.items, a.item);
      AppliedKeepsInv(l, a, i);
      AppliedKeys(l, a);
      ApplyOneIs(l, a, l.items[i]);
    }
  }

  lemma ApplyOneIs(l: Ledger, a: Activation, item: Item)
    requires Find(l.items, a.item) == Some(item) && KeyOf(a) !in Keys(l.activations)
    requires item.categories != [] ==> a.categories == item.categories
    ensures ApplyOne(l, a) == Ok(Applied(l, a))
  {
  }

  lemma {:induction false} ApplyMeaning(l: Ledger, acts: seq<Activation>)
    requires Coherent(l) && Refers(l.items, acts) && AllProper(l.items, Keys(acts))
    ensures Apply(l, acts).Ok?
    ensures var m := Apply(l, acts).value;
            && Coherent(m) && OnlyActivated(l, m)
            && Keys(m.activations) == Keys(l.activations) + Keys(acts)
  {
    if acts == [] {
      OnlyActivatedReflexive(l);
    } else {
      var n := |acts| - 1;
      RefersPrefix(l.items, acts, n);
      ApplyMeaning(l, acts[..n]);
      var m := Apply(l, acts[..n]).value;
      assert HasId(l.items, acts[n].item);
      assert KeyOf(acts[n]) in Keys(acts);
      ApplyOneMeaning(m, acts[n]);
      OnlyActivatedTransitive(l, m, ApplyOne(m, acts[n]).value);
    }
  }

  lemma {:induction false} ApplyNothing(l: Ledger, acts: seq<Activation>)
    requires Keys(acts) <= Keys(l.activations)
    ensures Apply(l, acts) == Ok(l)
  {
    if acts != [] {
      ApplyNothing(l, acts[..|acts| - 1]);
    }
  }

  // ----- what is requested depends on mandatory items only

  lemma {:induction false} MandatoryForMembers(items: seq<Item>, c: Category)
    ensures forall x :: x in MandatoryFor(items, c) ==> x in items && x.tier.MandatoryAnchor? && c in x.categories
  {
    if items != [] {
      MandatoryForMembers(items[..|items| - 1], c);
    }
  }

  lemma {:induction false} SameAmbiguous(l: Ledger, m: Ledger, items: seq<Item>, c: Category)
    requires l.items == m.items && l.outcomes == m.outcomes
    ensures AmbiguousAmong(l, items, c) == AmbiguousAmong(m, items, c)
  {
    if items != [] {
      SameAmbiguous(l, m, items[..|items| - 1], c);
    }
  }

  lemma SameSettled(l: Ledger, m: Ledger, item: Item, c: Category)
    requires OnlyActivated(l, m) && item in l.items && item.tier.MandatoryAnchor?
    ensures Settled(l, item, c) <==> Settled(m, item, c)
    ensures Supports(l, (item.id, c)) <==> Supports(m, (item.id, c))
  {
    var i :| 0 <= i < |l.items| && l.items[i] == item;
    assert MandatoryId(l.items, (item.id, c).0);
  }

  lemma SameAllSettled(l: Ledger, m: Ledger, anchors: seq<Item>, c: Category)
    requires OnlyActivated(l, m) && forall x :: x in anchors ==> x in l.items && x.tier.MandatoryAnchor?
    ensures AllSettled(l, anchors, c) == AllSettled(m, anchors, c)
    ensures AnySupported(l, anchors, c) == AnySupported(m, anchors, c)
  {
    forall k | 0 <= k < |anchors|
      ensures Settled(l, anchors[k], c) <==> Settled(m, anchors[k], c)
      ensures Supports(l, (anchors[k].id, c)) <==> Supports(m, (anchors[k].id, c))
    {
      assert anchors[k] in anchors;
      SameSettled(l, m, anchors[k], c);
    }
  }

  lemma SameRequestsFor(l: Ledger, m: Ledger, c: Category)
    requires OnlyActivated(l, m)
    ensures RequestsFor(l, c) == RequestsFor(m, c)
  {
    var anchors := MandatoryFor(l.items, c);
    MandatoryForMembers(l.items, c);
    SameAmbiguous(l, m, anchors, c);
    SameAllSettled(l, m, anchors, c);
  }

  lemma {:induction false} SameRequests(l: Ledger, m: Ledger, cats: seq<Category>)
    requires OnlyActivated(l, m)
    ensures Requests(l, cats) == Requests(m, cats)
  {
    if cats != [] {
      SameRequests(l, m, cats[..|cats| - 1]);
      SameRequestsFor(l, m, cats[|cats| - 1]);
    }
  }

  // ----- reconciliation

  /** Reconciliation never fails, keeps the invariant and only activates; afterwards the activations are saturated. */
  lemma ReconcileMeaning(l: Ledger, revision: nat)
    requires CoverageInv(l)
    ensures Reconcile(l, revision).Ok?
    ensures var m := Reconcile(l, revision).value;
            && CoverageInv(m) && OnlyActivated(l, m)
            && Saturated(m)
  {
    var requests := Requests(l, EligibilityModel.REQUIRED_CATEGORIES);
    var acts := ActivateAll(l.items, l.activations, requests, revision);
    ActivateAllMeaning(l.items, l.activations, requests, revision);
    ActivateAllProper(l.items, l.activations, requests, revision);
    AppliedSaturates(l, requests, acts);
  }

  lemma AppliedSaturates(l: Ledger, requests: seq<Request>, acts: seq<Activation>)
    requires CoverageInv(l) && requests == Requests(l, EligibilityModel.REQUIRED_CATEGORIES)
    requires Refers(l.items, acts) && AllProper(l.items, Keys(acts)) && Keys(l.activations) <= Keys(acts)
    requires AllSatisfied(l.items, Keys(acts), requests)
    requires Closed(l.items, Keys(acts))
    ensures Apply(l, acts).Ok?
    ensures var m := Apply(l, acts).value;
            CoverageInv(m) && OnlyActivated(l, m) && Saturated(m)
  {
    ApplyMeaning(l, acts);
    var m := Apply(l, acts).value;
    assert Keys(m.activations) == Keys(acts);
    SameRequests(l, m, EligibilityModel.REQUIRED_CATEGORIES);
  }

  /** Everything the ledger's own outcomes ask for is active already. */
  ghost predicate Saturated(l: Ledger) {
    var requests := Requests(l, EligibilityModel.REQUIRED_CATEGORIES);
    AllSatisfied(l.items, Keys(l.activations), requests) && Closed(l.items, Keys(l.activations))
  }

  lemma SaturatedStays(l: Ledger, revision: nat)
    requires CoverageInv(l) && Saturated(l)
    ensures Reconcile(l, revision) == Ok(l)
  {
    var requests := Requests(l, EligibilityModel.REQUIRED_CATEGORIES);
    SecondRoundAddsNothing(l.items, l.activations, requests, revision);
    ApplyNothing(l, ActivateAll(l.items, l.activations, requests, revision));
  }

  /** Reconciling twice is reconciling once, whatever the second authority revision. */
  lemma ReconcileIdempotent(l: Ledger, revision: nat, later: nat)
    requires CoverageInv(l)
    ensures Reconcile(l, revision).Ok?
    ensures var m := Reconcile(l, revision).value;
            Refers(m.items, m.activations) && UniqueIds(m.items) && Reconcile(m, later) == Ok(m)
  {
    ReconcileMeaning(l, revision);
    SaturatedStays(Reconcile(l, revision).value, later);
  }
}
