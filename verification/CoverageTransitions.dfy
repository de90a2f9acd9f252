/** Whole transitions of an attempted item, reconciliation included, and what a recomputed category state means. */
module CoverageTransitions {
  import EligibilityModel
  import opened Wrappers
  import opened AcquisitionModel
  import opened ActivationClosure
  import opened Activations
  import opened CoverageRules
  import opened CoverageInvariants
  import opened CoverageReconciliation

  /** Item `i` carries categories and all its obligations are in the state. */
  ghost predicate ItemIn(l: Ledger, i: nat, s: ItemState) {
    && i < |l.items| && l.items[i].categories != []
    && (l.items[i].id, l.items[i].categories[0]) in l.states && StateOf(l, l.items[i]) == s
  }

  /** Every attempt of the categories is open at the revision. */
  ghost predicate OpenAt(l: Ledger, item: Item, cats: seq<Category>, revision: nat) {
    forall a :: a in AttemptsOf(item, cats) ==> a in l.open && l.open[a] == revision
  }

  lemma ReconciledKeepsItem(m: Ledger, revision: nat, i: nat, s: ItemState)
    requires CoverageInv(m) && ItemIn(m, i, s) && !s.Inactive?
    ensures Reconcile(m, revision).Ok?
    ensures var n := Reconcile(m, revision).value;
            CoverageInv(n) && OnlyActivated(m, n) && Saturated(n) && n.items == m.items && ItemIn(n, i, s)
  {
    ReconcileMeaning(m, revision);
    var n := Reconcile(m, revision).value;
    assert SameOrActivated(m, n, m.items[i]);
  }

  /**
   * Completing an attempted item is refused exactly when some attempt is open at another revision, and then
   * changes nothing. Otherwise the item is accounted with exactly its outcomes, its revisions are closed, and
   * beyond that only requested activations are added.
   */
  lemma CompleteMeaning(l: Ledger, i: nat, outcomes: map<Category, Outcome>, revision: nat)
    requires CoverageInv(l) && ItemIn(l, i, Attempted)
    requires outcomes.Keys == set c | c in l.items[i].categories
    ensures var x := l.items[i];
            var r := Complete(l, x.id, x.categories, outcomes, revision);
            && (r.Ok? <==> OpenAt(l, x, x.categories, revision))
            && (r.Err? ==> r.error == (l, RevisionMismatch))
            && (r.Ok? ==>
                  && CoverageInv(r.value) && ItemIn(r.value, i, Accounted) && Saturated(r.value)
                  && OnlyActivated(Account(l, x, x.categories, outcomes), r.value)
                  && Elsewhere(l, Account(l, x, x.categories, outcomes), x)
                  && forall c :: c in x.categories ==>
                       (x.section, c) in r.value.outcomes && r.value.outcomes[(x.section, c)] == outcomes[c])
  {
    var x := l.items[i];
    FindAt(l.items, i);
    UniformAll(l, i, Attempted);
    AttemptsOpen(l, i);
    if OpenAt(l, x, x.categories, revision) {
      CompletionMeaning(l, i, outcomes);
      ReconciledKeepsItem(Account(l, x, x.categories, outcomes), revision, i, Accounted);
      CompleteIs(l, x, x.categories, outcomes, revision);
    } else {
      var a :| a in AttemptsOf(x, x.categories) && !(a in l.open && l.open[a] == revision);
    }
  }

  lemma CompleteIs(l: Ledger, x: Item, cats: seq<Category>, outcomes: map<Category, Outcome>, revision: nat)
    requires Refers(l.items, l.activations) && UniqueIds(l.items)
    requires Find(l.items, x.id) == Some(x) && AllowedCategories(x, cats)
    requires outcomes.Keys == set c | c in cats
    requires AllIn(l, x.id, cats, Attempted) && OpenAt(l, x, cats, revision)
    ensures Complete(l, x.id, cats, outcomes, revision) == Reconcile(Account(l, x, cats, outcomes), revision)
  {
  }

  /** An operational failure always accounts an attempted item, without an outcome, and reconciles. */
  lemma OperationalFailureMeaning(l: Ledger, i: nat) returns (n: Ledger)
    requires CoverageInv(l) && ItemIn(l, i, Attempted)
    ensures OperationalFailure(l, l.items[i].id, l.items[i].categories) == Ok(n)
    ensures CoverageInv(n) && ItemIn(n, i, Accounted) && Saturated(n)
    ensures Elsewhere(l, Failed(l, l.items[i]), l.items[i]) && OnlyActivated(Failed(l, l.items[i]), n)
  {
    var x := l.items[i];
    FindAt(l.items, i);
    AttemptsOpen(l, i);
    FailureMeaning(l, i);
    var last := (x.section, x.categories[|x.categories| - 1]);
    var revision := if last in l.open then l.open[last] else 0;
    ReconciledKeepsItem(Failed(l, x), revision, i, Accounted);
    n := Reconcile(Failed(l, x), revision).value;
    FailureIs(l, x, revision);
  }

  lemma FailureIs(l: Ledger, x: Item, revision: nat)
    requires Refers(l.items, l.activations) && UniqueIds(l.items)
    requires Find(l.items, x.id) == Some(x) && AllowedCategories(x, x.categories)
    requires FailEach(l, x, x.categories) == Ok(Failed(l, x))
    requires var last := (x.section, x.categories[|x.categories| - 1]);
             revision == if last in l.open then l.open[last] else 0
    ensures OperationalFailure(l, x.id, x.categories) == Reconcile(Failed(l, x), revision)
  {
  }

  // ----- one category, recomputed

  /** Some open obligation of the category is in the state. */
  ghost predicate SomeOpen(l: Ledger, c: Category, s: ItemState) {
    exists o :: o in l.states && Open(l, c, o) && l.states[o] == s
  }

  /** Every open obligation of the category has come to an end. */
  ghost predicate AllEnded(l: Ledger, c: Category) {
    forall o :: o in l.states && Open(l, c, o) ==> Terminal(l.states[o])
  }

  ghost predicate AnyOpen(l: Ledger, c: Category) {
    exists o :: o in l.states && Open(l, c, o)
  }

  /** Something open supports the category and everything open is accounted for and safe. */
  ghost predicate FullySupported(l: Ledger, c: Category) {
    && (exists o :: o in l.states && Open(l, c, o) && Supports(l, o))
    && forall o :: o in l.states && Open(l, c, o) ==> l.states[o].Accounted? && Safe(l, o)
  }

  lemma SomeInIsOpen(l: Ledger, c: Category, s: ItemState)
    requires !s.Inactive?
    ensures SomeIn(l, c, s) <==> SomeOpen(l, c, s)
  {
    if SomeIn(l, c, s) {
      var o :| o in l.states && o.1 == c && l.states[o] == s;
      assert Open(l, c, o);
    }
  }

  lemma EndedWhen(l: Ledger, c: Category)
    ensures AllEnded(l, c) <==> !SomeOpen(l, c, Attempted) && !SomeOpen(l, c, Active)
    ensures (forall o :: o in l.states && Open(l, c, o) ==> l.states[o].Accounted?) <==>
              AllEnded(l, c) && !SomeOpen(l, c, ContextUnresolved) && !SomeOpen(l, c, OverflowUndispatched)
  {
    forall o | o in l.states && Open(l, c, o)
      ensures l.states[o].Attempted? ==> SomeOpen(l, c, Attempted)
      ensures l.states[o].Active? ==> SomeOpen(l, c, Active)
      ensures l.states[o].ContextUnresolved? ==> SomeOpen(l, c, ContextUnresolved)
      ensures l.states[o].OverflowUndispatched? ==> SomeOpen(l, c, OverflowUndispatched)
    {
    }
  }

  /**
   * A category is supported exactly when something open supports it and everything open is accounted for
   * and safe. It is pending exactly when nothing is open or something has not come to an end. Otherwise it
   * is exhausted: for want of context first, then of capacity.
   */
  lemma CategoryMeaning(l: Ledger, c: Category)
    ensures var (state, accounting) := CategoryView(l, c);
            && (state.Supported? <==> FullySupported(l, c))
            && (accounting.AccountedSupport? <==> FullySupported(l, c))
            && (accounting.Pending? <==> !AnyOpen(l, c) || !AllEnded(l, c))
            && (accounting.ContextMissing? <==> AllEnded(l, c) && SomeOpen(l, c, ContextUnresolved))
            && (accounting.OverflowUnresolved? <==>
                  AllEnded(l, c) && !SomeOpen(l, c, ContextUnresolved) && SomeOpen(l, c, OverflowUndispatched))
            && (state.Exhausted? <==> AnyOpen(l, c) && AllEnded(l, c) && !FullySupported(l, c))
  {
    SomeInIsOpen(l, c, Attempted);
    SomeInIsOpen(l, c, Active);
    SomeInIsOpen(l, c, ContextUnresolved);
    SomeInIsOpen(l, c, OverflowUndispatched);
    EndedWhen(l, c);
  }
}
