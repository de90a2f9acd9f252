/** What every transition of the coverage ledger keeps, for the items that carry categories. */
module CoverageInvariants {
  import EligibilityModel
  import opened Wrappers
  import opened AcquisitionModel
  import opened ActivationClosure
  import opened Activations
  import opened CoverageRules

  // ----- the invariant, obligation by obligation

  function StateOf(l: Ledger, item: Item): ItemState
    requires item.categories != [] && (item.id, item.categories[0]) in l.states
  {
    l.states[(item.id, item.categories[0])]
  }

  /**
   * One obligation of an item with categories agrees with its siblings, the attempts, the open revisions
   * and the activations.
   */
  ghost predicate Cell(l: Ledger, item: Item, c: Category) {
    && item.categories != [] && (item.id, item.categories[0]) in l.states && (item.id, c) in l.states
    && var s := l.states[(item.id, c)];
    && s == StateOf(l, item)
    && ((item.section, c) in l.attempts <==> s.Attempted? || s.Accounted?)
    && ((item.section, c) in l.open <==> s.Attempted?)
    && ((item.section, c) in l.outcomes ==> s.Accounted?)
    && (item.tier.MandatoryAnchor? ==> !s.Inactive?)
    && (item.tier.ConditionalDiscovery? ==> (!s.Inactive? <==> (item.id, item.categories) in Keys(l.activations)))
  }

  ghost predicate Cells(l: Ledger, item: Item) {
    forall k {:trigger Cell(l, item, item.categories[k])} :: 0 <= k < |item.categories| ==>
        Cell(l, item, item.categories[k])
  }

  ghost predicate AttemptKnown(items: seq<Item>, a: Attempt) {
    exists i :: 0 <= i < |items| && items[i].section == a.0 && a.1 in items[i].categories
  }

  ghost predicate ObligationKnown(l: Ledger, o: Obligation) {
    exists i :: 0 <= i < |l.items| && l.items[i].id == o.0 && o.1 in Recorded(l, l.items[i])
  }

  /** A plan item has a context edge to `x`. */
  ghost predicate Reached(items: seq<Item>, x: Item) {
    exists j :: 0 <= j < |items| && Edge(items[j], x)
  }

  ghost predicate Proper(items: seq<Item>, key: Key) {
    forall i :: 0 <= i < |items| && items[i].id == key.0 ==>
      && !items[i].tier.MandatoryAnchor?
      && (items[i].tier.ConditionalDiscovery? ==> key.1 == items[i].categories)
      && (items[i].tier.ReserveFallback? ==> Reached(items, items[i]))
  }

  ghost predicate AllProper(items: seq<Item>, keys: set<Key>) {
    forall key {:trigger Proper(items, key)} :: key in keys ==> Proper(items, key)
  }

  /** Every table agrees with the others. */
  ghost predicate Coherent(l: Ledger) {
    && PlanValid(l.items) && Refers(l.items, l.activations)
    && AllProper(l.items, Keys(l.activations))
    && (forall i {:trigger Cells(l, l.items[i])} :: 0 <= i < |l.items| ==> Cells(l, l.items[i]))
    && (forall a {:trigger AttemptKnown(l.items, a)} :: a in l.attempts ==> AttemptKnown(l.items, a))
    && l.open.Keys <= l.attempts && l.outcomes.Keys <= l.attempts
    && (forall o {:trigger ObligationKnown(l, o)} :: o in l.states ==> ObligationKnown(l, o))
  }

  /** What holds between any two calls: the tables agree and the activations follow every context edge. */
  ghost predicate CoverageInv(l: Ledger) {
    Coherent(l) && Closed(l.items, Keys(l.activations))
  }

  // ----- lookups

  lemma FindAt(items: seq<Item>, i: nat)
    requires UniqueIds(items) && i < |items|
    ensures Find(items, items[i].id) == Some(items[i])
  {
    FindMeaning(items, items[i].id);
    assert HasId(items, items[i].id);
    var found := Find(items, items[i].id).value;
    var j :| 0 <= j < |items| && items[j] == found;
    assert i == j;
  }

  lemma FindIndex(items: seq<Item>, id: ItemId) returns (i: nat)
    requires Find(items, id).Some?
    ensures i < |items| && items[i] == Find(items, id).value && items[i].id == id
  {
    FindMeaning(items, id);
    i :| 0 <= i < |items| && items[i] == Find(items, id).value;
  }

  // ----- a transition of one item leaves the others alone

  /** `m` differs from `l` at most in the obligations and attempts of item `x`. */
  ghost predicate Elsewhere(l: Ledger, m: Ledger, x: Item) {
    && m.items == l.items && m.activations == l.activations
    && m.states.Keys == l.states.Keys
    && (forall o :: o in l.states && o.0 != x.id ==> m.states[o] == l.states[o])
    && (forall a: Attempt :: !(a.0 == x.section && a.1 in x.categories) ==>
          && (a in l.attempts <==> a in m.attempts)
          && SameAt(l.open, m.open, a) && SameAt(l.outcomes, m.outcomes, a))
  }

  /** Both maps hold the same value for the attempt, or neither holds any. */
  ghost predicate SameAt<V(!new)>(m: map<Attempt, V>, n: map<Attempt, V>, a: Attempt) {
    (a in m <==> a in n) && (a in m ==> m[a] == n[a])
  }

  lemma CellElsewhere(l: Ledger, m: Ledger, i: nat, j: nat)
    requires PlanValid(l.items) && i < |l.items| && j < |l.items| && i != j
    requires Elsewhere(l, m, l.items[i]) && Cells(l, l.items[j])
    ensures Cells(m, l.items[j])
  {
    var x, y := l.items[i], l.items[j];
    assert x.id != y.id by {
      if i < j { assert l.items[i].id != l.items[j].id; } else { assert l.items[j].id != l.items[i].id; }
    }
    forall k | 0 <= k < |y.categories| ensures Cell(m, y, y.categories[k]) {
      var c := y.categories[k];
      assert Cell(l, y, c);
      assert !(y.section == x.section && c in x.categories) by {
        if i < j { assert c in l.items[j].categories; } else { assert c in l.items[j].categories; }
      }
      assert (y.id, c) in l.states && (y.id, y.categories[0]) in l.states;
    }
  }

  lemma KeepInv(l: Ledger, m: Ledger, i: nat)
    requires CoverageInv(l) && i < |l.items| && Elsewhere(l, m, l.items[i])
    requires Cells(m, l.items[i])
    requires forall a :: a in m.attempts ==> AttemptKnown(l.items, a)
    requires m.open.Keys <= m.attempts && m.outcomes.Keys <= m.attempts
    ensures CoverageInv(m)
  {
    forall j | 0 <= j < |m.items| ensures Cells(m, m.items[j]) {
      if j != i {
        CellElsewhere(l, m, i, j);
      }
    }
    forall o | o in m.states ensures ObligationKnown(m, o) {
      assert ObligationKnown(l, o);
    }
  }

  /** The items other than `i` keep their states. */
  lemma OthersKeepState(l: Ledger, m: Ledger, i: nat, j: nat)
    requires CoverageInv(l) && i < |l.items| && Elsewhere(l, m, l.items[i])
    requires j < |l.items| && j != i && l.items[j].categories != []
    ensures (l.items[j].id, l.items[j].categories[0]) in l.states
    ensures (l.items[j].id, l.items[j].categories[0]) in m.states
    ensures StateOf(m, l.items[j]) == StateOf(l, l.items[j])
  {
    var y := l.items[j];
    assert Cells(l, y);
    assert Cell(l, y, y.categories[0]);
    assert l.items[i].id != y.id by {
      if i < j { assert l.items[i].id != l.items[j].id; } else { assert l.items[j].id != l.items[i].id; }
    }
  }

  /** All of an item's obligations moved to one state. */
  lemma MarkedCells(l: Ledger, m: Ledger, x: Item, s: ItemState)
    requires x.categories != [] && Cells(l, x)
    requires m.states == Marked(l.states, x.id, x.categories, s) && m.activations == l.activations && m.items == l.items
    requires forall k :: 0 <= k < |x.categories| ==> Placed(m, x, x.categories[k], s)
    requires (x.id, x.categories[0]) in l.states && !s.Inactive? && !StateOf(l, x).Inactive?
    ensures Cells(m, x)
    ensures m.states.Keys == l.states.Keys
    ensures (x.id, x.categories[0]) in m.states && StateOf(m, x) == s
  {
    forall k | 0 <= k < |x.categories| ensures Cell(m, x, x.categories[k]) {
      assert Cell(l, x, x.categories[k]);
      assert Placed(m, x, x.categories[k], s);
      assert (x.id, x.categories[k]) in Obligations(x.id, x.categories);
      assert (x.id, x.categories[0]) in Obligations(x.id, x.categories);
    }
    assert Cell(l, x, x.categories[0]);
    forall o | o in Obligations(x.id, x.categories) ensures o in l.states {
      var k :| 0 <= k < |x.categories| && x.categories[k] == o.1;
      assert Cell(l, x, x.categories[k]);
    }
  }

  ghost predicate Placed(m: Ledger, x: Item, c: Category, s: ItemState) {
    && ((x.section, c) in m.attempts <==> s.Attempted? || s.Accounted?)
    && ((x.section, c) in m.open <==> s.Attempted?)
    && ((x.section, c) in m.outcomes ==> s.Accounted?)
  }

  // ----- each transition from an item's uniform state

  /** In a kept ledger an item's state is what one of its obligations says. */
  lemma UniformState(l: Ledger, i: nat, c: Category)
    requires CoverageInv(l) && i < |l.items| && c in l.items[i].categories
    ensures (l.items[i].id, c) in l.states && Cell(l, l.items[i], c)
    ensures l.states[(l.items[i].id, c)] == StateOf(l, l.items[i])
  {
    var x := l.items[i];
    assert Cells(l, x);
    var k :| 0 <= k < |x.categories| && x.categories[k] == c;
    assert Cell(l, x, x.categories[k]);
  }

  lemma UniformAll(l: Ledger, i: nat, s: ItemState)
    requires CoverageInv(l) && i < |l.items| && l.items[i].categories != []
    ensures (l.items[i].id, l.items[i].categories[0]) in l.states
    ensures AllIn(l, l.items[i].id, l.items[i].categories, s) <==> StateOf(l, l.items[i]) == s
  {
    var x := l.items[i];
    UniformState(l, i, x.categories[0]);
    if StateOf(l, x) == s {
      forall k | 0 <= k < |x.categories| ensures InState(l, x.id, x.categories[k], s) {
        UniformState(l, i, x.categories[k]);
      }
    } else {
      assert !InState(l, x.id, x.categories[0], s);
    }
  }

  /** Beginning an active item that carries categories always succeeds. */
  lemma BeginMeaning(l: Ledger, i: nat, revision: nat)
    requires CoverageInv(l) && i < |l.items| && l.items[i].categories != []
    requires (l.items[i].id, l.items[i].categories[0]) in l.states && StateOf(l, l.items[i]).Active?
    ensures var x := l.items[i];
            var r := Begin(l, x.id, x.categories, revision);
            && r.Ok? && CoverageInv(r.value) && Elsewhere(l, r.value, x)
            && (x.id, x.categories[0]) in r.value.states && StateOf(r.value, x).Attempted?
            && r.value.outcomes == l.outcomes
            && (forall c :: c in x.categories ==>
                (x.section, c) in r.value.open && r.value.open[(x.section, c)] == revision)
  {
    var x := l.items[i];
    FindAt(l.items, i);
    UniformAll(l, i, Active);
    AttemptsFree(l, i);
    var m := l.(states := Marked(l.states, x.id, x.categories, Attempted),
                attempts := l.attempts + AttemptsOf(x, x.categories),
                open := l.open + map a | a in AttemptsOf(x, x.categories) :: revision);
    assert Begin(l, x.id, x.categories, revision) == Ok(m);
    BegunKeeps(l, i, m);
  }

  lemma AttemptsFree(l: Ledger, i: nat)
    requires CoverageInv(l) && i < |l.items| && l.items[i].categories != []
    requires (l.items[i].id, l.items[i].categories[0]) in l.states && StateOf(l, l.items[i]).Active?
    ensures AttemptsOf(l.items[i], l.items[i].categories) !! l.attempts
    ensures AttemptsOf(l.items[i], l.items[i].categories) !! l.outcomes.Keys
    ensures AllowedCategories(l.items[i], l.items[i].categories)
  {
    assert Addressed(l.items[i]);
    forall a | a in AttemptsOf(l.items[i], l.items[i].categories) ensures a !in l.attempts && a !in l.outcomes {
      UniformState(l, i, a.1);
    }
  }

  lemma BegunKeeps(l: Ledger, i: nat, m: Ledger)
    requires CoverageInv(l) && i < |l.items| && l.items[i].categories != []
    requires (l.items[i].id, l.items[i].categories[0]) in l.states && StateOf(l, l.items[i]).Active?
    requires m.items == l.items && m.activations == l.activations && m.outcomes == l.outcomes
    requires m.states == Marked(l.states, l.items[i].id, l.items[i].categories, Attempted)
    requires m.attempts == l.attempts + AttemptsOf(l.items[i], l.items[i].categories)
    requires m.open.Keys == l.open.Keys + AttemptsOf(l.items[i], l.items[i].categories)
    requires forall a :: a in l.open && a !in AttemptsOf(l.items[i], l.items[i].categories) ==> m.open[a] == l.open[a]
    ensures CoverageInv(m) && Elsewhere(l, m, l.items[i])
    ensures (l.items[i].id, l.items[i].categories[0]) in m.states && StateOf(m, l.items[i]).Attempted?
  {
    var x := l.items[i];
    AttemptsFree(l, i);
    forall k | 0 <= k < |x.categories| ensures Placed(m, x, x.categories[k], Attempted) {
      assert (x.section, x.categories[k]) in AttemptsOf(x, x.categories);
    }
    MarkedCells(l, m, x, Attempted);
    AttemptsKnown(l.items, i);
    assert Elsewhere(l, m, x);
    KeepInv(l, m, i);
  }

  lemma AttemptsKnown(items: seq<Item>, i: nat)
    requires i < |items|
    ensures forall a :: a in AttemptsOf(items[i], items[i].categories) ==> AttemptKnown(items, a)
  {
  }

  /** A refused reservation puts the item back, and takes its attempts and open revisions away. */
  lemma BlockedMeaning(l: Ledger, i: nat)
    requires CoverageInv(l) && i < |l.items| && l.items[i].categories != []
    requires (l.items[i].id, l.items[i].categories[0]) in l.states && StateOf(l, l.items[i]).Attempted?
    ensures var x := l.items[i];
            var r := BudgetBlocked(l, x.id, x.categories);
            && r.Ok? && CoverageInv(r.value) && Elsewhere(l, r.value, x)
            && (x.id, x.categories[0]) in r.value.states && StateOf(r.value, x).Active?
  {
    var x := l.items[i];
    FindAt(l.items, i);
    UniformAll(l, i, Attempted);
    AttemptsOpen(l, i);
    var m := l.(states := Marked(l.states, x.id, x.categories, Active),
                attempts := l.attempts - AttemptsOf(x, x.categories),
                open := l.open - AttemptsOf(x, x.categories));
    assert BudgetBlocked(l, x.id, x.categories) == Ok(m);
    BlockedKeeps(l, i, m);
  }

  lemma AttemptsOpen(l: Ledger, i: nat)
    requires CoverageInv(l) && i < |l.items| && l.items[i].categories != []
    requires (l.items[i].id, l.items[i].categories[0]) in l.states && StateOf(l, l.items[i]).Attempted?
    ensures AttemptsOf(l.items[i], l.items[i].categories) <= l.open.Keys
    ensures AllowedCategories(l.items[i], l.items[i].categories)
  {
    assert Addressed(l.items[i]);
    forall a | a in AttemptsOf(l.items[i], l.items[i].categories) ensures a in l.open {
      UniformState(l, i, a.1);
    }
  }

  lemma BlockedKeeps(l: Ledger, i: nat, m: Ledger)
    requires CoverageInv(l) && i < |l.items| && l.items[i].categories != []
    requires (l.items[i].id, l.items[i].categories[0]) in l.states && StateOf(l, l.items[i]).Attempted?
    requires m.items == l.items && m.activations == l.activations && m.outcomes == l.outcomes
    requires m.states == Marked(l.states, l.items[i].id, l.items[i].categories, Active)
    requires m.attempts == l.attempts - AttemptsOf(l.items[i], l.items[i].categories)
    requires m.open == l.open - AttemptsOf(l.items[i], l.items[i].categories)
    ensures CoverageInv(m) && Elsewhere(l, m, l.items[i])
    ensures (l.items[i].id, l.items[i].categories[0]) in m.states && StateOf(m, l.items[i]).Active?
  {
    var x := l.items[i];
    forall a | a in AttemptsOf(x, x.categories) ensures a !in l.outcomes {
      UniformState(l, i, a.1);
    }
    forall k | 0 <= k < |x.categories| ensures Placed(m, x, x.categories[k], Active) {
      assert (x.section, x.categories[k]) in AttemptsOf(x, x.categories);
    }
    MarkedCells(l, m, x, Active);
    assert Elsewhere(l, m, x);
    KeepInv(l, m, i);
  }

  /** Accounting an attempted item, with or without outcomes. */
  lemma AccountedMeaning(l: Ledger, i: nat, m: Ledger)
    requires CoverageInv(l) && i < |l.items| && l.items[i].categories != []
    requires (l.items[i].id, l.items[i].categories[0]) in l.states && StateOf(l, l.items[i]).Attempted?
    requires m.items == l.items && m.activations == l.activations && m.attempts == l.attempts
    requires m.states == Marked(l.states, l.items[i].id, l.items[i].categories, Accounted)
    requires m.open == l.open - AttemptsOf(l.items[i], l.items[i].categories)
    requires l.outcomes.Keys <= m.outcomes.Keys <= l.outcomes.Keys + AttemptsOf(l.items[i], l.items[i].categories)
    requires forall a :: a in l.outcomes && a !in AttemptsOf(l.items[i], l.items[i].categories) ==>
               m.outcomes[a] == l.outcomes[a]
    ensures CoverageInv(m) && Elsewhere(l, m, l.items[i])
    ensures (l.items[i].id, l.items[i].categories[0]) in m.states && StateOf(m, l.items[i]).Accounted?
  {
    var x := l.items[i];
    forall a | a in AttemptsOf(x, x.categories) ensures a in l.attempts {
      UniformState(l, i, a.1);
    }
    forall k | 0 <= k < |x.categories| ensures Placed(m, x, x.categories[k], Accounted) {
      assert (x.section, x.categories[k]) in AttemptsOf(x, x.categories);
    }
    MarkedCells(l, m, x, Accounted);
    AccountedElsewhere(l, m, x);
    KeepInv(l, m, i);
  }

  lemma AccountedElsewhere(l: Ledger, m: Ledger, x: Item)
    requires m.items == l.items && m.activations == l.activations && m.attempts == l.attempts
    requires m.states == Marked(l.states, x.id, x.categories, Accounted) && m.states.Keys == l.states.Keys
    requires m.open == l.open - AttemptsOf(x, x.categories)
    requires l.outcomes.Keys <= m.outcomes.Keys <= l.outcomes.Keys + AttemptsOf(x, x.categories)
    requires forall a :: a in l.outcomes && a !in AttemptsOf(x, x.categories) ==> m.outcomes[a] == l.outcomes[a]
    ensures Elsewhere(l, m, x)
  {
  }

  /** Setting an active item aside, unresolved or over capacity. */
  lemma SetAsideMeaning(l: Ledger, i: nat, m: Ledger, s: ItemState)
    requires CoverageInv(l) && i < |l.items| && l.items[i].categories != []
    requires (l.items[i].id, l.items[i].categories[0]) in l.states && StateOf(l, l.items[i]).Active?
    requires s.ContextUnresolved? || s.OverflowUndispatched?
    requires m.(overflows := l.overflows) == l.(states := Marked(l.states, l.items[i].id, l.items[i].categories, s))
    ensures CoverageInv(m) && Elsewhere(l, m, l.items[i])
    ensures (l.items[i].id, l.items[i].categories[0]) in m.states && StateOf(m, l.items[i]) == s
  {
    var x := l.items[i];
    assert m.attempts == l.attempts && m.open == l.open && m.outcomes == l.outcomes
        && m.states == Marked(l.states, x.id, x.categories, s);
    forall k | 0 <= k < |x.categories| ensures Placed(m, x, x.categories[k], s) {
      UniformState(l, i, x.categories[k]);
    }
    MarkedCells(l, m, x, s);
    assert Elsewhere(l, m, x);
    KeepInv(l, m, i);
  }

  // ----- the category-by-category loops

  lemma {:induction false} MarkedTwice(
    states: map<Obligation, ItemState>, id: ItemId, cats: seq<Category>, s: ItemState)
    requires cats != []
    ensures var front := cats[..|cats| - 1];
            Marked(Marked(states, id, front, s), id, [cats[|cats| - 1]], s) == Marked(states, id, cats, s)
  {
    assert cats == cats[..|cats| - 1] + [cats[|cats| - 1]];
    assert Obligations(id, cats) == Obligations(id, cats[..|cats| - 1]) + Obligations(id, [cats[|cats| - 1]]);
  }

  /** A failed attempted item is accounted as a whole, whatever the loop order. */
  lemma {:induction false} FailEachMeaning(l: Ledger, item: Item, cats: seq<Category>)
    requires Unique(cats)
    requires forall k :: 0 <= k < |cats| ==>
        InState(l, item.id, cats[k], Attempted) && (item.section, cats[k]) in l.open
    ensures FailEach(l, item, cats) == Ok(l.(
              states := if cats == [] then l.states else Marked(l.states, item.id, cats, Accounted),
              open := l.open - AttemptsOf(item, cats)))
  {
    if cats == [] {
      assert l.open - AttemptsOf(item, cats) == l.open;
    } else {
      var n := |cats| - 1;
      FailEachMeaning(l, item, cats[..n]);
      FailOneMore(l, FailEach(l, item, cats[..n]).value, item, cats);
    }
  }

  lemma FailOneMore(l: Ledger, m: Ledger, item: Item, cats: seq<Category>)
    requires cats != [] && Unique(cats)
    requires var c := cats[|cats| - 1]; InState(l, item.id, c, Attempted) && (item.section, c) in l.open
    requires var front := cats[..|cats| - 1];
             m == l.(states := if front == [] then l.states else Marked(l.states, item.id, front, Accounted),
                     open := l.open - AttemptsOf(item, front))
    ensures var c := cats[|cats| - 1];
            && InState(m, item.id, c, Attempted) && (item.section, c) in m.open
            && Marked(m.states, item.id, [c], Accounted) == Marked(l.states, item.id, cats, Accounted)
            && m.open - {(item.section, c)} == l.open - AttemptsOf(item, cats)
  {
    var n := |cats| - 1;
    assert cats == cats[..n] + [cats[n]];
    assert AttemptsOf(item, cats) == AttemptsOf(item, cats[..n]) + {(item.section, cats[n])};
    if n > 0 {
      MarkedTwice(l.states, item.id, cats, Accounted);
    }
  }

  lemma {:induction false} UnresolveEachMeaning(l: Ledger, id: ItemId, cats: seq<Category>, s: ItemState)
    requires Unique(cats) && AllIn(l, id, cats, s) && (s.Active? || s.Attempted?)
    ensures UnresolveEach(l, id, cats)
         == Ok(l.(states := if cats == [] then l.states else Marked(l.states, id, cats, ContextUnresolved)))
  {
    if cats != [] {
      var n := |cats| - 1;
      forall k | 0 <= k < n ensures InState(l, id, cats[..n][k], s) {
        assert InState(l, id, cats[k], s);
      }
      UnresolveEachMeaning(l, id, cats[..n], s);
      assert InState(l, id, cats[n], s);
      if n == 0 {
        assert cats == [cats[0]];
      } else {
        MarkedTwice(l.states, id, cats, ContextUnresolved);
        assert (id, cats[n]) !in Obligations(id, cats[..n]);
      }
    }
  }

  /** The item accounted without an outcome and its revisions closed. */
  function Failed(l: Ledger, x: Item): Ledger {
    l.(states := Marked(l.states, x.id, x.categories, Accounted), open := l.open - AttemptsOf(x, x.categories))
  }

  /** The loop of an operational failure accounts an attempted item as a whole. */
  lemma FailureMeaning(l: Ledger, i: nat)
    requires CoverageInv(l) && i < |l.items| && l.items[i].categories != []
    requires (l.items[i].id, l.items[i].categories[0]) in l.states && StateOf(l, l.items[i]).Attempted?
    ensures var x := l.items[i];
            && FailEach(l, x, x.categories) == Ok(Failed(l, x))
            && CoverageInv(Failed(l, x)) && Elsewhere(l, Failed(l, x), x)
            && (x.id, x.categories[0]) in Failed(l, x).states && StateOf(Failed(l, x), x).Accounted?
  {
    var x := l.items[i];
    forall k | 0 <= k < |x.categories|
      ensures InState(l, x.id, x.categories[k], Attempted) && (x.section, x.categories[k]) in l.open
    {
      UniformState(l, i, x.categories[k]);
    }
    assert Addressed(x);
    FailEachMeaning(l, x, x.categories);
    AccountedMeaning(l, i, Failed(l, x));
  }

  /**
   * Setting an active or an attempted item aside succeeds. From an attempted one it leaves the attempts
   * and open revisions behind, so it keeps the invariant exactly when the item was active.
   */
  lemma UnresolvedMeaning(l: Ledger, i: nat)
    requires CoverageInv(l) && i < |l.items| && l.items[i].categories != []
    requires (l.items[i].id, l.items[i].categories[0]) in l.states
    requires StateOf(l, l.items[i]).Active? || StateOf(l, l.items[i]).Attempted?
    ensures var x := l.items[i];
            var r := Unresolved(l, x.id, x.categories);
            && r.Ok? && r.value == l.(states := Marked(l.states, x.id, x.categories, ContextUnresolved))
            && (CoverageInv(r.value) <==> StateOf(l, x).Active?)
            && Elsewhere(l, r.value, x)
            && (x.id, x.categories[0]) in r.value.states && StateOf(r.value, x).ContextUnresolved?
  {
    var x := l.items[i];
    FindAt(l.items, i);
    UniformAll(l, i, StateOf(l, x));
    assert Addressed(x);
    UnresolveEachMeaning(l, x.id, x.categories, StateOf(l, x));
    var m := l.(states := Marked(l.states, x.id, x.categories, ContextUnresolved));
    if StateOf(l, x).Active? {
      SetAsideMeaning(l, i, m, ContextUnresolved);
    } else {
      AbandonedMeaning(l, i, m);
    }
  }

  lemma AbandonedMeaning(l: Ledger, i: nat, m: Ledger)
    requires CoverageInv(l) && i < |l.items| && l.items[i].categories != []
    requires (l.items[i].id, l.items[i].categories[0]) in l.states && StateOf(l, l.items[i]).Attempted?
    requires m == l.(states := Marked(l.states, l.items[i].id, l.items[i].categories, ContextUnresolved))
    ensures !CoverageInv(m) && Elsewhere(l, m, l.items[i])
    ensures (l.items[i].id, l.items[i].categories[0]) in m.states && StateOf(m, l.items[i]).ContextUnresolved?
  {
    var x := l.items[i];
    var c := x.categories[0];
    UniformState(l, i, c);
    assert (x.id, c) in Obligations(x.id, x.categories);
    forall o | o in Obligations(x.id, x.categories) ensures o in l.states {
      UniformState(l, i, o.1);
    }
    assert !Cell(m, x, c);
    assert !Cells(m, m.items[i]);
  }

  /** Completing an attempted item with its open revision accounts it, before reconciliation. */
  lemma CompletionMeaning(l: Ledger, i: nat, outcomes: map<Category, Outcome>)
    requires CoverageInv(l) && i < |l.items| && l.items[i].categories != []
    requires (l.items[i].id, l.items[i].categories[0]) in l.states && StateOf(l, l.items[i]).Attempted?
    requires outcomes.Keys == set c | c in l.items[i].categories
    ensures var x := l.items[i];
            var m := Account(l, x, x.categories, outcomes);
            && CoverageInv(m) && Elsewhere(l, m, x)
            && (x.id, x.categories[0]) in m.states && StateOf(m, x).Accounted?
            && (forall c :: c in x.categories ==>
                (x.section, c) in m.outcomes && m.outcomes[(x.section, c)] == outcomes[c])
  {
    var x := l.items[i];
    var m := Account(l, x, x.categories, outcomes);
    forall a | a in m.outcomes ensures a in l.outcomes.Keys + AttemptsOf(x, x.categories) {
    }
    AccountedMeaning(l, i, m);
  }
}
