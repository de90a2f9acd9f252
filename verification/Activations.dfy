/**
 * src/qualor/runtime/acquisition_plan.py: initial activations, requested activations and the loops that
 * compute them.
 */
module Activations {
  import EligibilityModel
  import opened Wrappers
  import Sorting
  import opened AcquisitionModel
  import opened ActivationClosure

  function Rank(c: Category): nat {
    match c
    case Deadline => 0
    case EntrantType => 1
    case Geography => 2
    case LegalEntity => 3
    case ProjectPolicy => 4
    case License => 5
    case RequiredTechnology => 6
    case FinancialSupport => 7
    case RewardConditions => 8
  }

  /** `_close_context_activations`: the cursor loop over a list that grows while it is read. */
  method CloseContextActivations(
    items: seq<Item>, given: seq<Activation>, revision: nat) returns (acts: seq<Activation>)
    requires Refers(items, given)
    ensures acts == Close(items, given, revision)
  {
    acts := given;
    var active := Keys(given);
    var queue := Queue(items, given);
    var cursor := 0;
    while cursor < |queue|
      invariant Refers(items, acts) && queue == Queue(items, acts) && active == Keys(acts)
      invariant Saturate(items, acts, cursor, revision) == Close(items, given, revision)
      decreases |Universe(items) - Keys(acts)|, |queue| - cursor
    {
      var causing := queue[cursor];
      QueueInPlan(items, acts);
      WorklistShrinks(items, acts, causing, revision);
      ghost var before := acts;
      acts, active, queue := VisitContexts(items, acts, active, queue, causing, revision);
      cursor := cursor + 1;
    }
  }

  /** One causing item: its contexts in order, and in each the plan items of that section. */
  method VisitContexts(
    items: seq<Item>, before: seq<Activation>, known: set<Key>, listed: seq<Item>, causing: Item, revision: nat)
    returns (acts: seq<Activation>, active: set<Key>, queue: seq<Item>)
    requires Refers(items, before) && causing in items && known == Keys(before) && listed == Queue(items, before)
    ensures acts == Expand(before, causing, TargetsOf(items, causing.contexts), revision)
    ensures Refers(items, acts) && active == Keys(acts) && queue == Queue(items, acts)
  {
    acts, active, queue := before, known, listed;
    for c := 0 to |causing.contexts|
      invariant acts == Expand(before, causing, TargetsOf(items, causing.contexts[..c]), revision)
      invariant Refers(items, acts) && active == Keys(acts) && queue == Queue(items, acts)
    {
      var section := InSection(items, causing.contexts[c]);
      ghost var outer := TargetsOf(items, causing.contexts[..c]);
      assert outer + section[..0] == outer;
      for t := 0 to |section|
        invariant acts == Expand(before, causing, outer + section[..t], revision)
        invariant Refers(items, acts) && active == Keys(acts) && queue == Queue(items, acts)
      {
        var target := section[t];
        ExpandLast(before, causing, outer, section, t, revision);
        InSectionMembers(items, causing.contexts[c]);
        if Edge(causing, target) && EdgeKey(causing, target) !in active {
          var activation := EdgeActivation(causing, target, revision);
          AppendToQueue(items, acts, activation, target);
          acts := acts + [activation];
          active := active + {KeyOf(activation)};
          queue := queue + [ItemOf(items, activation.item)];
        }
      }
      assert section[..|section|] == section;
      assert causing.contexts[..c + 1][..c] == causing.contexts[..c];
    }
    assert causing.contexts[..|causing.contexts|] == causing.contexts;
  }

  lemma ExpandLast(before: seq<Activation>, causing: Item, outer: seq<Item>, section: seq<Item>, t: nat, revision: nat)
    requires t < |section|
    ensures Expand(before, causing, outer + section[..t + 1], revision)
         == ExpandOne(Expand(before, causing, outer + section[..t], revision), causing, section[t], revision)
  {
    var longer := outer + section[..t + 1];
    assert longer[..|longer| - 1] == outer + section[..t];
  }

  lemma AppendToQueue(items: seq<Item>, acts: seq<Activation>, a: Activation, target: Item)
    requires Refers(items, acts) && target in items && a.item == target.id
    ensures Refers(items, acts + [a])
    ensures Keys(acts + [a]) == Keys(acts) + {KeyOf(a)}
    ensures HasId(items, a.item) && Queue(items, acts + [a]) == Queue(items, acts) + [ItemOf(items, a.item)]
  {
    var i :| 0 <= i < |items| && items[i] == target;
    assert HasId(items, a.item);
    assert (acts + [a])[..|acts|] == acts;
    forall k | 0 <= k < |acts + [a]| ensures HasId(items, (acts + [a])[k].item) {
      if k < |acts| { assert HasId(items, acts[k].item); }
    }
  }

  // ----- initial activations

  const PRECEDENCE: seq<ActivationReason> :=
    [IncompleteGoverningContext, ExplicitReferenceRequired, GlobalContextRequired, AmbiguousAnchor,
     NoSupportedAnchor, RuleLikeFallback, RoutingUncertain]

  predicate StaticReason(r: ActivationReason) {
    r.IncompleteGoverningContext? || r.RuleLikeFallback? || r.RoutingUncertain?
  }

  /** Some mandatory item carries one of the item's categories. */
  predicate Anchored(items: seq<Item>, item: Item) {
    exists i :: 0 <= i < |items| && items[i].tier.MandatoryAnchor? && Shares(items[i].categories, item.categories)
  }

  predicate StartsWith(items: seq<Item>, item: Item, r: ActivationReason) {
    r in item.reasons && (StaticReason(r) || (r.NoSupportedAnchor? && !Anchored(items, item)))
  }

  function FirstReason(items: seq<Item>, item: Item, order: seq<ActivationReason>): Option<ActivationReason> {
    if order == [] then None
    else if StartsWith(items, item, order[0]) then Some(order[0])
    else FirstReason(items, item, order[1..])
  }

  function StaticActivations(items: seq<Item>, upTo: nat, revision: nat): seq<Activation>
    requires upTo <= |items|
  {
    if upTo == 0 then []
    else
      var item := items[upTo - 1];
      var reason := FirstReason(items, item, PRECEDENCE);
      StaticActivations(items, upTo - 1, revision)
      + if item.tier.ConditionalDiscovery? && reason.Some?
        then [Activation(item.id, item.categories, reason.value, [], revision)] else []
  }

  lemma {:induction false} StaticRefers(items: seq<Item>, upTo: nat, revision: nat)
    requires upTo <= |items|
    ensures Refers(items, StaticActivations(items, upTo, revision))
    ensures forall k :: 0 <= k < |StaticActivations(items, upTo, revision)| ==>
              FromConditional(items, StaticActivations(items, upTo, revision)[k])
  {
    if upTo > 0 {
      StaticRefers(items, upTo - 1, revision);
      assert items[upTo - 1].id == items[upTo - 1].id;
      assert HasId(items, items[upTo - 1].id);
    }
  }

  /** An activation of a conditional item for exactly its categories. */
  ghost predicate FromConditional(items: seq<Item>, a: Activation) {
    exists i :: 0 <= i < |items| && items[i].tier.ConditionalDiscovery?
                && KeyOf(a) == (items[i].id, items[i].categories)
  }

  function InitialActivations(items: seq<Item>, revision: nat): seq<Activation> {
    StaticRefers(items, |items|, revision);
    Close(items, StaticActivations(items, |items|, revision), revision)
  }

  method InitialPlanActivations(items: seq<Item>, revision: nat) returns (acts: seq<Activation>)
    ensures acts == InitialActivations(items, revision)
  {
    acts := [];
    for i := 0 to |items|
      invariant acts == StaticActivations(items, i, revision)
    {
      var item := items[i];
      if item.tier.ConditionalDiscovery? {
        var reason := FirstReason(items, item, PRECEDENCE);
        if reason.Some? {
          acts := acts + [Activation(item.id, item.categories, reason.value, [], revision)];
        }
      }
    }
    StaticRefers(items, |items|, revision);
    acts := CloseContextActivations(items, acts, revision);
  }

  // ----- requested activations

  datatype Request = Request(reason: ActivationReason, categories: seq<Category>, causes: seq<ItemId>)

  predicate Asked(item: Item, r: Request) {
    item.tier.ConditionalDiscovery? && r.reason in item.reasons && Shares(r.categories, item.categories)
  }

  function Seeded(items: seq<Item>, existing: seq<Activation>, r: Request, upTo: nat, revision: nat): seq<Activation>
    requires upTo <= |items|
  {
    if upTo == 0 then existing
    else
      var item := items[upTo - 1];
      var before := Seeded(items, existing, r, upTo - 1, revision);
      if Asked(item, r) && (item.id, item.categories) !in Keys(before)
      then before + [Activation(item.id, item.categories, r.reason, r.causes, revision)] else before
  }

  lemma {:induction false} SeededGrows(
    items: seq<Item>, existing: seq<Activation>, r: Request, upTo: nat, revision: nat)
    requires upTo <= |items| && Refers(items, existing)
    ensures var after := Seeded(items, existing, r, upTo, revision);
            existing <= after && Refers(items, after) && Keys(existing) <= Keys(after)
  {
    if upTo > 0 {
      SeededGrows(items, existing, r, upTo - 1, revision);
      SeededStep(items, existing, r, upTo, revision);
    }
  }

  lemma SeededStep(items: seq<Item>, existing: seq<Activation>, r: Request, upTo: nat, revision: nat)
    requires 0 < upTo <= |items| && Refers(items, Seeded(items, existing, r, upTo - 1, revision))
    ensures var before := Seeded(items, existing, r, upTo - 1, revision);
            var after := Seeded(items, existing, r, upTo, revision);
            && before <= after && Refers(items, after) && Keys(before) <= Keys(after)
            && (Asked(items[upTo - 1], r) ==> (items[upTo - 1].id, items[upTo - 1].categories) in Keys(after))
  {
    var before := Seeded(items, existing, r, upTo - 1, revision);
    var after := Seeded(items, existing, r, upTo, revision);
    if after != before {
      AppendToQueue(items, before, after[|before|], items[upTo - 1]);
    }
  }

  lemma {:induction false} SeededHolds(
    items: seq<Item>, existing: seq<Activation>, r: Request, upTo: nat, revision: nat, i: nat)
    requires i < upTo <= |items| && Refers(items, existing) && Asked(items[i], r)
    ensures (items[i].id, items[i].categories) in Keys(Seeded(items, existing, r, upTo, revision))
  {
    SeededGrows(items, existing, r, upTo - 1, revision);
    SeededStep(items, existing, r, upTo, revision);
    if i < upTo - 1 {
      SeededHolds(items, existing, r, upTo - 1, revision, i);
    }
  }

  /** Seeding keeps the existing activations and lists whatever the request asks for. */
  lemma SeededMeaning(items: seq<Item>, existing: seq<Activation>, r: Request, revision: nat)
    requires Refers(items, existing)
    ensures var after := Seeded(items, existing, r, |items|, revision);
            && existing <= after && Refers(items, after) && Keys(existing) <= Keys(after)
            && Satisfies(items, Keys(after), r)
  {
    SeededGrows(items, existing, r, |items|, revision);
    forall i | 0 <= i < |items| && Asked(items[i], r)
      ensures (items[i].id, items[i].categories) in Keys(Seeded(items, existing, r, |items|, revision))
    {
      SeededHolds(items, existing, r, |items|, revision, i);
    }
  }

  /** The keys a request asks for directly. */
  ghost predicate Satisfies(items: seq<Item>, keys: set<Key>, r: Request) {
    forall i :: 0 <= i < |items| && Asked(items[i], r) ==> (items[i].id, items[i].categories) in keys
  }

  // ----- the order of the result

  function Position(items: seq<Item>, id: ItemId): int {
    if items == [] then -1
    else if items[|items| - 1].id == id then |items| - 1
    else Position(items[..|items| - 1], id)
  }

  function Ranks(categories: seq<Category>): seq<int> {
    if categories == [] then [] else Ranks(categories[..|categories| - 1]) + [Rank(categories[|categories| - 1])]
  }

  function SortKey(items: seq<Item>, a: Activation): seq<int> {
    [Position(items, a.item)] + Ranks(a.categories)
  }

  /** The result of activate_plan_items is in plan order. */
  function InPlanOrder(items: seq<Item>, acts: seq<Activation>): seq<Activation> {
    Sorting.Sort((a: Activation) => SortKey(items, a), acts)
  }

  ghost predicate Sorted(items: seq<Item>, acts: seq<Activation>) {
    Sorting.Sorted((a: Activation) => SortKey(items, a), acts)
  }

  lemma KeysOfPermutation(a: seq<Activation>, b: seq<Activation>)
    requires multiset(a) == multiset(b)
    ensures Keys(a) == Keys(b)
  {
    forall key ensures key in Keys(a) <==> key in Keys(b) {
      if key in Keys(a) { KeyThroughPermutation(a, b, key); }
      if key in Keys(b) { KeyThroughPermutation(b, a, key); }
    }
  }

  lemma KeyThroughPermutation(a: seq<Activation>, b: seq<Activation>, key: Key)
    requires multiset(a) == multiset(b) && key in Keys(a)
    ensures key in Keys(b)
  {
    KeysAre(a);
    KeysAre(b);
    var k :| 0 <= k < |a| && KeyOf(a[k]) == key;
    assert a[k] in multiset(b);
    var j :| 0 <= j < |b| && b[j] == a[k];
  }

  lemma RefersThroughPermutation(items: seq<Item>, a: seq<Activation>, b: seq<Activation>)
    requires multiset(a) == multiset(b) && Refers(items, a)
    ensures Refers(items, b)
  {
    forall k | 0 <= k < |b| ensures HasId(items, b[k].item) {
      assert b[k] in multiset(a);
      var j :| 0 <= j < |a| && a[j] == b[k];
      assert HasId(items, a[j].item);
    }
  }

  // ----- activate_plan_items

  function Activate(items: seq<Item>, existing: seq<Activation>, r: Request, revision: nat): seq<Activation>
    requires Refers(items, existing)
  {
    SeededMeaning(items, existing, r, revision);
    InPlanOrder(items, Close(items, Seeded(items, existing, r, |items|, revision), revision))
  }

  lemma SortKeeps(items: seq<Item>, acts: seq<Activation>)
    requires Refers(items, acts)
    ensures Refers(items, InPlanOrder(items, acts)) && Keys(InPlanOrder(items, acts)) == Keys(acts)
    ensures multiset(InPlanOrder(items, acts)) == multiset(acts) && Sorted(items, InPlanOrder(items, acts))
  {
    Sorting.SortMeaning((a: Activation) => SortKey(items, a), acts);
    KeysOfPermutation(acts, InPlanOrder(items, acts));
    RefersThroughPermutation(items, acts, InPlanOrder(items, acts));
  }

  lemma SatisfiedMore(items: seq<Item>, keys: set<Key>, more: set<Key>, r: Request)
    requires Satisfies(items, keys, r) && keys <= more
    ensures Satisfies(items, more, r)
  {
  }

  /** A request keeps every existing activation, holds what it asks for, is closed, and is in plan order. */
  lemma ActivateMeaning(items: seq<Item>, existing: seq<Activation>, r: Request, revision: nat)
    requires Refers(items, existing) && UniqueIds(items)
    ensures var after := Activate(items, existing, r, revision);
            && Refers(items, after)
            && multiset(existing) <= multiset(after)
            && Keys(existing) <= Keys(after) && Satisfies(items, Keys(after), r) && Closed(items, Keys(after))
            && Sorted(items, after)
  {
    SeededMeaning(items, existing, r, revision);
    var seeded := Seeded(items, existing, r, |items|, revision);
    var closed := Close(items, seeded, revision);
    SaturateCloses(items, seeded, 0, revision);
    SortKeeps(items, closed);
    PrefixMultiset(existing, closed);
    SatisfiedMore(items, Keys(seeded), Keys(closed), r);
  }

  /** And it holds nothing beyond any closed set that contains the existing activations and what was asked. */
  lemma ActivateIsLeast(items: seq<Item>, existing: seq<Activation>, r: Request, revision: nat, bound: set<Key>)
    requires Refers(items, existing) && UniqueIds(items)
    requires Keys(existing) <= bound && Satisfies(items, bound, r) && Closed(items, bound)
    ensures Keys(Activate(items, existing, r, revision)) <= bound
  {
    SeededMeaning(items, existing, r, revision);
    SeededWithin(items, existing, r, |items|, revision, bound);
    var seeded := Seeded(items, existing, r, |items|, revision);
    SaturateCloses(items, seeded, 0, revision);
    SaturateIsLeast(items, seeded, 0, revision, bound);
    SortKeeps(items, Close(items, seeded, revision));
  }

  lemma PrefixMultiset(a: seq<Activation>, b: seq<Activation>)
    requires a <= b
    ensures multiset(a) <= multiset(b)
  {
    assert b == a + b[|a|..];
  }

  lemma {:induction false} SeededWithin(
    items: seq<Item>, existing: seq<Activation>, r: Request, upTo: nat, revision: nat, bound: set<Key>)
    requires upTo <= |items| && Keys(existing) <= bound && Satisfies(items, bound, r)
    ensures Keys(Seeded(items, existing, r, upTo, revision)) <= bound
  {
    if upTo > 0 {
      SeededWithin(items, existing, r, upTo - 1, revision, bound);
      var before := Seeded(items, existing, r, upTo - 1, revision);
      var after := Seeded(items, existing, r, upTo, revision);
      if after != before {
        assert after[..|after| - 1] == before;
      }
    }
  }

  // ----- several requests, as one reconciliation makes them

  function ActivateAll(
    items: seq<Item>, acts: seq<Activation>, requests: seq<Request>, revision: nat): (after: seq<Activation>)
    requires Refers(items, acts) && UniqueIds(items)
    ensures Refers(items, after)
  {
    if requests == [] then acts
    else
      var n := |requests| - 1;
      var before := ActivateAll(items, acts, requests[..n], revision);
      ActivateMeaning(items, before, requests[n], revision);
      Activate(items, before, requests[n], revision)
  }

  ghost predicate AllSatisfied(items: seq<Item>, keys: set<Key>, requests: seq<Request>) {
    forall k :: 0 <= k < |requests| ==> Satisfies(items, keys, requests[k])
  }

  lemma {:induction false} ActivateAllMeaning(
    items: seq<Item>, acts: seq<Activation>, requests: seq<Request>, revision: nat)
    requires Refers(items, acts) && UniqueIds(items)
    ensures var after := ActivateAll(items, acts, requests, revision);
            && multiset(acts) <= multiset(after) && Keys(acts) <= Keys(after)
            && AllSatisfied(items, Keys(after), requests)
            && (requests != [] ==> Closed(items, Keys(after)))
  {
    if requests != [] {
      var n := |requests| - 1;
      ActivateAllMeaning(items, acts, requests[..n], revision);
      var before := ActivateAll(items, acts, requests[..n], revision);
      ActivateMeaning(items, before, requests[n], revision);
      OneMoreSatisfied(items, Keys(before), Keys(Activate(items, before, requests[n], revision)), requests);
    }
  }

  lemma OneMoreSatisfied(items: seq<Item>, keys: set<Key>, more: set<Key>, requests: seq<Request>)
    requires requests != [] && keys <= more && AllSatisfied(items, keys, requests[..|requests| - 1])
    requires Satisfies(items, more, requests[|requests| - 1])
    ensures AllSatisfied(items, more, requests)
  {
    var n := |requests| - 1;
    forall k | 0 <= k < |requests| ensures Satisfies(items, more, requests[k]) {
      if k < n {
        assert requests[..n][k] == requests[k];
        SatisfiedMore(items, keys, more, requests[k]);
      }
    }
  }

  /** On activations that already satisfy and close everything, another round adds no key. */
  lemma {:induction false} SecondRoundAddsNothing(
    items: seq<Item>, acts: seq<Activation>, requests: seq<Request>, revision: nat)
    requires Refers(items, acts) && UniqueIds(items)
    requires AllSatisfied(items, Keys(acts), requests) && (requests != [] ==> Closed(items, Keys(acts)))
    ensures Keys(ActivateAll(items, acts, requests, revision)) == Keys(acts)
  {
    if requests != [] {
      var n := |requests| - 1;
      forall k | 0 <= k < n ensures Satisfies(items, Keys(acts), requests[..n][k]) {
        assert Satisfies(items, Keys(acts), requests[k]);
      }
      SecondRoundAddsNothing(items, acts, requests[..n], revision);
      var before := ActivateAll(items, acts, requests[..n], revision);
      ActivateMeaning(items, before, requests[n], revision);
      ActivateIsLeast(items, before, requests[n], revision, Keys(acts));
    }
  }

  // ----- the loops of activate_plan_items

  method ActivatePlanItems(items: seq<Item>, existing: seq<Activation>, r: Request, revision: nat)
    returns (acts: seq<Activation>)
    requires Refers(items, existing)
    ensures acts == Activate(items, existing, r, revision)
  {
    acts := existing;
    var seen := Keys(existing);
    for i := 0 to |items|
      invariant acts == Seeded(items, existing, r, i, revision) && seen == Keys(acts)
    {
      var item := items[i];
      if Asked(item, r) && (item.id, item.categories) !in seen {
        var activation := Activation(item.id, item.categories, r.reason, r.causes, revision);
        assert (acts + [activation])[..|acts|] == acts;
        seen := seen + {KeyOf(activation)};
        acts := acts + [activation];
      }
    }
    SeededMeaning(items, existing, r, revision);
    acts := CloseContextActivations(items, acts, revision);
    acts := InPlanOrder(items, acts);
  }
}
