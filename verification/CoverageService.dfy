/**
 * src/qualor/runtime/acquisition_coverage.py: the ledger object, its tables updated in place and its caches
 * recomputed.
 */
module CoverageService {
  import EligibilityModel
  import opened Wrappers
  import opened AcquisitionModel
  import opened ActivationClosure
  import opened Activations
  import opened CoverageRules
  import opened CoverageInvariants
  import opened CoverageReconciliation
  import opened CoverageStart

  // ----- growing one item's marks category by category

  lemma MarkedNone(states: map<Obligation, ItemState>, id: ItemId, s: ItemState)
    ensures Marked(states, id, [], s) == states
  {
    assert Obligations(id, []) == {};
  }

  lemma MarkedOneMore(states: map<Obligation, ItemState>, id: ItemId, cats: seq<Category>, k: nat, s: ItemState)
    requires k < |cats|
    ensures Marked(states, id, cats[..k + 1], s) == Marked(states, id, cats[..k], s)[(id, cats[k]) := s]
  {
    assert cats[..k + 1] == cats[..k] + [cats[k]];
    assert Obligations(id, cats[..k + 1]) == Obligations(id, cats[..k]) + {(id, cats[k])};
  }

  lemma AttemptsOneMore(item: Item, cats: seq<Category>, k: nat)
    requires k < |cats|
    ensures AttemptsOf(item, cats[..k + 1]) == AttemptsOf(item, cats[..k]) + {(item.section, cats[k])}
  {
    assert cats[..k + 1] == cats[..k] + [cats[k]];
  }

  /** The recorded outcomes once those of `cats` have been written. */
  ghost function RecordedFirst(
    outcomes: map<Attempt, Outcome>, item: Item, cats: seq<Category>, results: map<Category, Outcome>)
    : map<Attempt, Outcome>
  {
    outcomes + map c | c in results && c in cats :: (item.section, c) := results[c]
  }

  lemma RecordedNone(outcomes: map<Attempt, Outcome>, item: Item, results: map<Category, Outcome>)
    ensures RecordedFirst(outcomes, item, [], results) == outcomes
  {
  }

  lemma RecordedOneMore(
    outcomes: map<Attempt, Outcome>, item: Item, cats: seq<Category>, k: nat, results: map<Category, Outcome>)
    requires k < |cats| && cats[k] in results
    ensures RecordedFirst(outcomes, item, cats[..k + 1], results)
         == RecordedFirst(outcomes, item, cats[..k], results)[(item.section, cats[k]) := results[cats[k]]]
  {
    assert cats[..k + 1] == cats[..k] + [cats[k]];
  }

  class CoverageLedger {
    const items: seq<Item>
    var planItemStates: map<Obligation, ItemState>
    var attempts: set<Attempt>
    var outcomes: map<Attempt, Outcome>
    var openRevisions: map<Attempt, nat>
    var activations: seq<Activation>
    var overflows: seq<(ItemId, seq<Category>)>
    var states: map<Category, AcquisitionState>
    var accounting: map<Category, Accounting>

    function View(): Ledger
      reads this
    {
      Ledger(items, planItemStates, attempts, outcomes, openRevisions, activations, overflows)
    }

    /** The cached category states are what recomputing them would give. */
    ghost predicate CachesFresh()
      reads this
    {
      forall c: Category :: c in states && c in accounting && (states[c], accounting[c]) == CategoryView(View(), c)
    }

    ghost predicate Valid()
      reads this
    {
      Refers(items, activations) && UniqueIds(items) && CachesFresh()
    }

    constructor (items: seq<Item>)
      requires PlanValid(items)
      ensures Initial(items).Ok? && View() == Initial(items).value
      ensures Valid() && CoverageInv(View())
    {
      this.items := items;
      planItemStates := map[];
      attempts, outcomes, openRevisions, activations, overflows := {}, map[], map[], [], [];
      states, accounting := map[], map[];
      new;
      for k := 0 to |items|
        invariant View() == Base(items).(states := InitialStates(items[..k]))
      {
        LoadItem(items, k);
      }
      assert items[..|items|] == items;
      var acts := InitialPlanActivations(items, 0);
      InitialMeaning(items);
      var refused := ApplyActivations(acts);
      RecomputePlanStates();
    }

    method LoadItem(plan: seq<Item>, k: nat)
      requires k < |plan| && planItemStates == InitialStates(plan[..k])
      modifies this`planItemStates
      ensures planItemStates == InitialStates(plan[..k + 1])
    {
      var item := plan[k];
      var initial := if item.tier.MandatoryAnchor? then Active else Inactive;
      MarkedNone(planItemStates, item.id, initial);
      for c := 0 to |item.categories|
        invariant planItemStates == Marked(InitialStates(plan[..k]), item.id, item.categories[..c], initial)
      {
        MarkedOneMore(InitialStates(plan[..k]), item.id, item.categories, c, initial);
        planItemStates := planItemStates[(item.id, item.categories[c]) := initial];
      }
      assert item.categories[..|item.categories|] == item.categories;
      assert plan[..k + 1][..k] == plan[..k];
    }

    method RecomputePlanStates()
      modifies this`states, this`accounting
      ensures CachesFresh()
    {
      var all := EligibilityModel.REQUIRED_CATEGORIES;
      for k := 0 to |all|
        invariant forall j :: 0 <= j < k ==>
                    && all[j] in states && all[j] in accounting
                    && (states[all[j]], accounting[all[j]]) == CategoryView(View(), all[j])
      {
        var view := CategoryView(View(), all[k]);
        states, accounting := states[all[k] := view.0], accounting[all[k] := view.1];
      }
      forall c: Category
        ensures c in states && c in accounting && (states[c], accounting[c]) == CategoryView(View(), c)
      {
        EligibilityModel.AllCategoriesListed(c);
      }
    }

    method ApplyActivations(acts: seq<Activation>) returns (refused: Option<Error>)
      modifies this`planItemStates, this`activations
      ensures match Apply(old(View()), acts)
              case Ok(m) => refused.None? && View() == m
              case Err(e) => refused == Some(e.1) && View() == e.0
    {
      for k := 0 to |acts|
        invariant Apply(old(View()), acts[..k]) == Ok(View())
      {
        assert acts[..k + 1][..k] == acts[..k];
        ApplyPrefix(old(View()), acts, k + 1);
        var a := acts[k];
        if KeyOf(a) !in Keys(activations) {
          var item := Find(items, a.item);
          if item.None? { return Some(ItemNotFound); }
          if item.value.categories != [] && a.categories != item.value.categories { return Some(ActivationMismatch); }
          activations := activations + [a];
          MarkAll(a.item, a.categories, Active);
        }
      }
      assert acts[..|acts|] == acts;
      return None;
    }

    method MarkAll(id: ItemId, cats: seq<Category>, s: ItemState)
      modifies this`planItemStates
      ensures planItemStates == Marked(old(planItemStates), id, cats, s)
    {
      MarkedNone(planItemStates, id, s);
      for c := 0 to |cats|
        invariant planItemStates == Marked(old(planItemStates), id, cats[..c], s)
      {
        MarkedOneMore(old(planItemStates), id, cats, c, s);
        planItemStates := planItemStates[(id, cats[c]) := s];
      }
      assert cats[..|cats|] == cats;
    }

    /** Every request in turn, against the activations so far. */
    method ActivateRequests(requests: seq<Request>, revision: nat) returns (acts: seq<Activation>)
      requires Refers(items, activations) && UniqueIds(items)
      ensures Refers(items, acts) && acts == ActivateAll(items, activations, requests, revision)
    {
      acts := activations;
      for k := 0 to |requests|
        invariant Refers(items, acts) && acts == ActivateAll(items, activations, requests[..k], revision)
      {
        assert requests[..k + 1][..k] == requests[..k];
        ActivateMeaning(items, acts, requests[k], revision);
        acts := ActivatePlanItems(items, acts, requests[k], revision);
      }
      assert requests[..|requests|] == requests;
    }

    method ReconcilePlan(revision: nat) returns (refused: Option<Error>)
      requires Valid()
      modifies this
      ensures match Reconcile(old(View()), revision)
              case Ok(m) => refused.None? && View() == m && Valid()
              case Err(e) => refused == Some(e.1) && View() == e.0
    {
      var requests := Requests(View(), EligibilityModel.REQUIRED_CATEGORIES);
      var acts := ActivateRequests(requests, revision);
      refused := ApplyActivations(acts);
      if refused.None? {
        ApplyKeepsRefers(old(View()), acts);
        RecomputePlanStates();
      }
    }

    method BeginItem(id: ItemId, cats: seq<Category>, revision: nat) returns (refused: Option<Error>)
      requires Valid()
      modifies this
      ensures Valid()
      ensures match Begin(old(View()), id, cats, revision)
              case Ok(m) => refused.None? && View() == m
              case Err(e) => refused == Some(e) && View() == old(View())
    {
      var item := Find(items, id);
      if item.None? { return Some(ItemNotFound); }
      if !AllowedCategories(item.value, cats) { return Some(CategoryError(item.value, cats)); }
      if !AllIn(View(), id, cats, Active) { return Some(ItemNotActive); }
      if !(AttemptsOf(item.value, cats) !! attempts) { return Some(DuplicateAttempt); }
      MarkAll(id, cats, Attempted);
      OpenAttempts(item.value, cats, revision);
      RecomputePlanStates();
      return None;
    }

    method OpenAttempts(item: Item, cats: seq<Category>, revision: nat)
      modifies this`attempts, this`openRevisions
      ensures attempts == old(attempts) + AttemptsOf(item, cats)
      ensures openRevisions == old(openRevisions) + map a | a in AttemptsOf(item, cats) :: revision
    {
      for k := 0 to |cats|
        invariant attempts == old(attempts) + AttemptsOf(item, cats[..k])
        invariant openRevisions == old(openRevisions) + map a | a in AttemptsOf(item, cats[..k]) :: revision
      {
        AttemptsOneMore(item, cats, k);
        attempts := attempts + {(item.section, cats[k])};
        openRevisions := openRevisions[(item.section, cats[k]) := revision];
      }
      assert cats[..|cats|] == cats;
    }

    method CloseRevisions(item: Item, cats: seq<Category>)
      modifies this`openRevisions
      ensures openRevisions == old(openRevisions) - AttemptsOf(item, cats)
    {
      for k := 0 to |cats|
        invariant openRevisions == old(openRevisions) - AttemptsOf(item, cats[..k])
      {
        AttemptsOneMore(item, cats, k);
        openRevisions := openRevisions - {(item.section, cats[k])};
      }
      assert cats[..|cats|] == cats;
    }

    method RecordOutcomes(item: Item, cats: seq<Category>, results: map<Category, Outcome>)
      requires results.Keys == set c | c in cats
      modifies this`outcomes
      ensures outcomes == old(outcomes) + map c | c in results :: (item.section, c) := results[c]
    {
      RecordedNone(outcomes, item, results);
      for k := 0 to |cats|
        invariant outcomes == RecordedFirst(old(outcomes), item, cats[..k], results)
      {
        RecordedOneMore(old(outcomes), item, cats, k, results);
        outcomes := outcomes[(item.section, cats[k]) := results[cats[k]]];
      }
      assert cats[..|cats|] == cats;
    }

    method AccountItem(item: Item, cats: seq<Category>, results: map<Category, Outcome>)
      requires results.Keys == set c | c in cats
      modifies this`planItemStates, this`outcomes, this`openRevisions
      ensures View() == Account(old(View()), item, cats, results)
    {
      MarkAll(item.id, cats, Accounted);
      CloseRevisions(item, cats);
      RecordOutcomes(item, cats, results);
    }

    method CompleteItem(id: ItemId, cats: seq<Category>, results: map<Category, Outcome>, revision: nat)
      returns (refused: Option<Error>)
      requires Valid()
      modifies this
      ensures match Complete(old(View()), id, cats, results, revision)
              case Ok(m) => refused.None? && View() == m && Valid()
              case Err(e) => refused == Some(e.1) && View() == e.0
    {
      var item := Find(items, id);
      if item.None? { return Some(ItemNotFound); }
      if !AllowedCategories(item.value, cats) { return Some(CategoryError(item.value, cats)); }
      if results.Keys != set c | c in cats { return Some(OutcomesMismatch); }
      if !AllIn(View(), id, cats, Attempted) { return Some(AttemptNotActive); }
      if exists a :: a in AttemptsOf(item.value, cats) && !(a in openRevisions && openRevisions[a] == revision) {
        return Some(RevisionMismatch);
      }
      FindMeaning(items, id);
      AccountItem(item.value, cats, results);
      RecomputePlanStates();
      refused := ReconcilePlan(revision);
    }

    method OperationalFailureItem(id: ItemId, cats: seq<Category>) returns (refused: Option<Error>)
      requires Valid()
      modifies this
      ensures match OperationalFailure(old(View()), id, cats)
              case Ok(m) => refused.None? && View() == m && Valid()
              case Err(e) => refused == Some(e.1) && View() == e.0
    {
      var item := Find(items, id);
      if item.None? { return Some(ItemNotFound); }
      if !AllowedCategories(item.value, cats) { return Some(CategoryError(item.value, cats)); }
      FindMeaning(items, id);
      var revision: nat;
      ghost var before := View();
      refused, revision := FailCategories(item.value, cats);
      if refused.Some? { return; }
      FailEachFrame(before, item.value, cats);
      RecomputePlanStates();
      refused := ReconcilePlan(revision);
    }

    /** The loop of an operational failure: each attempted category is accounted and its revision closed. */
    method FailCategories(item: Item, cats: seq<Category>) returns (refused: Option<Error>, revision: nat)
      requires cats != []
      modifies this`planItemStates, this`openRevisions
      ensures match FailEach(old(View()), item, cats)
              case Ok(m) =>
                var last := (item.section, cats[|cats| - 1]);
                && refused.None? && View() == m
                && revision == if last in old(openRevisions) then old(openRevisions)[last] else 0
              case Err(e) => refused == Some(e.1) && View() == e.0
    {
      revision := 0;
      ghost var before := View();
      for k := 0 to |cats|
        invariant FailEach(before, item, cats[..k]) == Ok(View())
        invariant k > 0 ==> revision == if (item.section, cats[k - 1]) in before.open
                                        then before.open[(item.section, cats[k - 1])] else 0
      {
        assert cats[..k + 1][..k] == cats[..k];
        FailPrefix(before, item, cats, k + 1);
        FailEachOpen(before, item, cats[..k]);
        if !InState(View(), item.id, cats[k], Attempted) { return Some(AttemptNotActive), 0; }
        if (item.section, cats[k]) !in openRevisions { return Some(MissingRevision), 0; }
        revision := openRevisions[(item.section, cats[k])];
        openRevisions := openRevisions - {(item.section, cats[k])};
        MarkAll(item.id, [cats[k]], Accounted);
      }
      assert cats[..|cats|] == cats;
      return None, revision;
    }

    method BudgetBlockedItem(id: ItemId, cats: seq<Category>) returns (refused: Option<Error>)
      requires Valid()
      modifies this
      ensures Valid()
      ensures match BudgetBlocked(old(View()), id, cats)
              case Ok(m) => refused.None? && View() == m
              case Err(e) => refused == Some(e) && View() == old(View())
    {
      var item := Find(items, id);
      if item.None? { return Some(ItemNotFound); }
      if !AllowedCategories(item.value, cats) { return Some(CategoryError(item.value, cats)); }
      if !AllIn(View(), id, cats, Attempted) || !(AttemptsOf(item.value, cats) <= openRevisions.Keys) {
        return Some(AttemptNotActive);
      }
      MarkAll(id, cats, Active);
      CloseRevisions(item.value, cats);
      for k := 0 to |cats|
        invariant planItemStates == Marked(old(planItemStates), id, cats, Active)
        invariant outcomes == old(outcomes) && activations == old(activations) && overflows == old(overflows)
        invariant openRevisions == old(openRevisions) - AttemptsOf(item.value, cats)
        invariant attempts == old(attempts) - AttemptsOf(item.value, cats[..k])
      {
        AttemptsOneMore(item.value, cats, k);
        attempts := attempts - {(item.value.section, cats[k])};
      }
      assert cats[..|cats|] == cats;
      RecomputePlanStates();
      return None;
    }

    method MarkContextUnresolved(id: ItemId, cats: seq<Category>) returns (refused: Option<Error>)
      requires Valid()
      modifies this
      ensures match Unresolved(old(View()), id, cats)
              case Ok(m) => refused.None? && View() == m && Valid()
              case Err(e) => refused == Some(e.1) && View() == e.0
    {
      var item := Find(items, id);
      if item.None? { return Some(ItemNotFound); }
      if !AllowedCategories(item.value, cats) { return Some(CategoryError(item.value, cats)); }
      ghost var before := old(View());
      for k := 0 to |cats|
        invariant UnresolveEach(before, id, cats[..k]) == Ok(View())
        invariant Refers(items, activations)
      {
        assert cats[..k + 1][..k] == cats[..k];
        UnresolvePrefix(before, id, cats, k + 1);
        if !InState(View(), id, cats[k], Active) && !InState(View(), id, cats[k], Attempted) {
          return Some(ItemNotActive);
        }
        MarkAll(id, [cats[k]], ContextUnresolved);
      }
      assert cats[..|cats|] == cats;
      RecomputePlanStates();
      return None;
    }

    method MarkPlanOverflow() returns (refused: Option<Error>)
      requires Valid()
      modifies this
      ensures match Overflow(old(View()))
              case Ok(m) => refused.None? && View() == m && Valid()
              case Err(e) => refused == Some(e.1) && View() == e.0
    {
      var active := ActiveItems(View(), |items|);
      for k := 0 to |active|
        invariant OverflowEach(View(), active[k..]) == Overflow(old(View()))
        invariant activations == old(activations)
      {
        var (item, cats) := active[k];
        assert active[k..][1..] == active[k + 1..];
        assert active[k..][0] == active[k];
        if !(1 <= |cats| <= 2 && Unique(cats)) { return Some(OverflowInvalid); }
        overflows := overflows + [(item.id, cats)];
        MarkAll(item.id, cats, OverflowUndispatched);
      }
      RecomputePlanStates();
      return None;
    }
  }

  // ----- an error in a prefix is an error of the whole

  lemma {:induction false} ApplyPrefix(l: Ledger, acts: seq<Activation>, n: nat)
    requires n <= |acts|
    ensures Apply(l, acts[..n]).Err? ==> Apply(l, acts) == Err(Apply(l, acts[..n]).error)
  {
    if n == |acts| {
      assert acts[..n] == acts;
    } else {
      assert acts[..|acts| - 1][..n] == acts[..n];
      ApplyPrefix(l, acts[..|acts| - 1], n);
    }
  }

  lemma {:induction false} FailPrefix(l: Ledger, item: Item, cats: seq<Category>, n: nat)
    requires n <= |cats|
    ensures FailEach(l, item, cats[..n]).Err? ==> FailEach(l, item, cats) == FailEach(l, item, cats[..n])
  {
    if n == |cats| {
      assert cats[..n] == cats;
    } else {
      assert cats[..|cats| - 1][..n] == cats[..n];
      FailPrefix(l, item, cats[..|cats| - 1], n);
    }
  }

  lemma {:induction false} UnresolvePrefix(l: Ledger, id: ItemId, cats: seq<Category>, n: nat)
    requires n <= |cats|
    ensures UnresolveEach(l, id, cats[..n]).Err? ==> UnresolveEach(l, id, cats) == UnresolveEach(l, id, cats[..n])
  {
    if n == |cats| {
      assert cats[..n] == cats;
    } else {
      assert cats[..|cats| - 1][..n] == cats[..n];
      UnresolvePrefix(l, id, cats[..|cats| - 1], n);
    }
  }

  lemma {:induction false} FailEachOpen(l: Ledger, item: Item, cats: seq<Category>)
    requires FailEach(l, item, cats).Ok?
    ensures forall a :: a in FailEach(l, item, cats).value.open ==>
        a in l.open && FailEach(l, item, cats).value.open[a] == l.open[a]
  {
    if cats != [] {
      FailEachOpen(l, item, cats[..|cats| - 1]);
    }
  }

  lemma {:induction false} ApplyKeepsRefers(l: Ledger, acts: seq<Activation>)
    requires Refers(l.items, l.activations) && Refers(l.items, acts) && Apply(l, acts).Ok?
    ensures Apply(l, acts).value.items == l.items
    ensures Refers(l.items, Apply(l, acts).value.activations)
  {
    if acts != [] {
      var n := |acts| - 1;
      RefersPrefix(l.items, acts, n);
      ApplyKeepsRefers(l, acts[..n]);
      var m := Apply(l, acts[..n]).value;
      assert HasId(l.items, acts[n].item);
      AppliedRefers(m, acts[n]);
    }
  }
}
