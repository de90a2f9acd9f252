/** src/qualor/runtime/acquisition_plan.py: activating conditional and reserve items through context edges. */
module ActivationClosure {
  import opened Wrappers
  import opened AcquisitionModel

  function KeyOf(a: Activation): Key { (a.item, a.categories) }

  function Keys(acts: seq<Activation>): (keys: set<Key>)
    ensures |keys| <= |acts|
  {
    if acts == [] then {} else Keys(acts[..|acts| - 1]) + {KeyOf(acts[|acts| - 1])}
  }

  ghost predicate HasId(items: seq<Item>, id: ItemId) {
    exists i :: 0 <= i < |items| && items[i].id == id
  }

  ghost predicate Refers(items: seq<Item>, acts: seq<Activation>) {
    forall k :: 0 <= k < |acts| ==> HasId(items, acts[k].item)
  }

  lemma RefersPrefix(items: seq<Item>, acts: seq<Activation>, n: nat)
    requires Refers(items, acts) && n <= |acts|
    ensures Refers(items, acts[..n])
  {
    forall k | 0 <= k < n ensures HasId(items, acts[..n][k].item) {
      assert HasId(items, acts[k].item);
    }
  }

  // ----- one context edge

  predicate Shares(a: seq<Category>, b: seq<Category>) {
    exists i :: 0 <= i < |a| && a[i] in b
  }

  /** The categories the target would be activated for. */
  function EdgeCategories(causing: Item, target: Item): seq<Category> {
    if target.categories != [] then if Shares(target.categories, causing.categories) then target.categories else []
    else causing.categories
  }

  predicate Edge(causing: Item, target: Item) {
    && target.section in causing.contexts
    && !target.tier.MandatoryAnchor?
    && EdgeCategories(causing, target) != []
    && (GlobalScope in target.routing || StructuralReference in causing.routing)
  }

  function EdgeKey(causing: Item, target: Item): Key { (target.id, EdgeCategories(causing, target)) }

  function EdgeActivation(causing: Item, target: Item, revision: nat): Activation {
    Activation(
      target.id, EdgeCategories(causing, target),
      if GlobalScope in target.routing then GlobalContextRequired else ExplicitReferenceRequired,
      [causing.id], revision)
  }

  // ----- the declarative meaning

  /** An item counts as active when it is mandatory or one of its activations is listed. */
  ghost predicate ActiveIn(item: Item, keys: set<Key>) {
    item.tier.MandatoryAnchor? || exists key :: key in keys && key.0 == item.id
  }

  ghost predicate Follows(items: seq<Item>, keys: set<Key>, causing: Item) {
    forall j :: 0 <= j < |items| && Edge(causing, items[j]) ==> EdgeKey(causing, items[j]) in keys
  }

  /** Every context edge from an active item leads to a listed activation. */
  ghost predicate Closed(items: seq<Item>, keys: set<Key>) {
    forall i :: 0 <= i < |items| && ActiveIn(items[i], keys) ==> Follows(items, keys, items[i])
  }

  // ----- the worklist

  function Find(items: seq<Item>, id: ItemId): Option<Item> {
    if items == [] then None
    else if items[|items| - 1].id == id then Some(items[|items| - 1])
    else Find(items[..|items| - 1], id)
  }

  lemma {:induction false} FindMeaning(items: seq<Item>, id: ItemId)
    ensures Find(items, id).Some? <==> HasId(items, id)
    ensures Find(items, id).Some? ==> Find(items, id).value in items && Find(items, id).value.id == id
  {
    if items != [] {
      var n := |items| - 1;
      FindMeaning(items[..n], id);
      if items[n].id == id {
        assert HasId(items, id);
      } else {
        if HasId(items, id) {
          var i :| 0 <= i < |items| && items[i].id == id;
          assert items[..n][i].id == id;
        }
        if HasId(items[..n], id) {
          var i :| 0 <= i < n && items[..n][i].id == id;
          assert items[i].id == id;
        }
      }
    }
  }

  function ItemOf(items: seq<Item>, id: ItemId): (r: Item)
    requires HasId(items, id)
    ensures r in items && r.id == id
  {
    FindMeaning(items, id);
    Find(items, id).value
  }

  function InSection(items: seq<Item>, section: SectionId): seq<Item> {
    if items == [] then []
    else
      var n := |items| - 1;
      InSection(items[..n], section) + if items[n].section == section then [items[n]] else []
  }

  function TargetsOf(items: seq<Item>, contexts: seq<SectionId>): seq<Item> {
    if contexts == [] then []
    else
      var n := |contexts| - 1;
      TargetsOf(items, contexts[..n]) + InSection(items, contexts[n])
  }

  function ExpandOne(acts: seq<Activation>, causing: Item, target: Item, revision: nat): seq<Activation> {
    if Edge(causing, target) && EdgeKey(causing, target) !in Keys(acts)
    then acts + [EdgeActivation(causing, target, revision)] else acts
  }

  function Expand(acts: seq<Activation>, causing: Item, targets: seq<Item>, revision: nat): seq<Activation> {
    if targets == [] then acts
    else
      var n := |targets| - 1;
      ExpandOne(Expand(acts, causing, targets[..n], revision), causing, targets[n], revision)
  }

  function Mandatory(items: seq<Item>): seq<Item> {
    if items == [] then []
    else
      var n := |items| - 1;
      Mandatory(items[..n]) + if items[n].tier.MandatoryAnchor? then [items[n]] else []
  }

  function ItemsOf(items: seq<Item>, acts: seq<Activation>): (r: seq<Item>)
    requires Refers(items, acts)
    ensures |r| == |acts|
  {
    if acts == [] then []
    else
      var n := |acts| - 1;
      RefersPrefix(items, acts, n);
      ItemsOf(items, acts[..n]) + [ItemOf(items, acts[n].item)]
  }

  /** The list the cursor runs over: mandatory items, then the item of every activation so far. */
  function Queue(items: seq<Item>, acts: seq<Activation>): seq<Item>
    requires Refers(items, acts)
  {
    Mandatory(items) + ItemsOf(items, acts)
  }

  /** Every key a context edge of this plan can produce. */
  function Universe(items: seq<Item>): set<Key> {
    set causing, target | causing in items && target in items :: EdgeKey(causing, target)
  }

  // ----- helpers about lists

  lemma {:induction false} KeysAre(acts: seq<Activation>)
    ensures forall k :: 0 <= k < |acts| ==> KeyOf(acts[k]) in Keys(acts)
    ensures forall key :: key in Keys(acts) ==> exists k :: 0 <= k < |acts| && KeyOf(acts[k]) == key
  {
    if acts != [] {
      var n := |acts| - 1;
      KeysAre(acts[..n]);
      forall key | key in Keys(acts) ensures exists k :: 0 <= k < |acts| && KeyOf(acts[k]) == key {
        if key in Keys(acts[..n]) {
          var k :| 0 <= k < n && KeyOf(acts[..n][k]) == key;
          assert KeyOf(acts[k]) == key;
        } else {
          assert KeyOf(acts[n]) == key;
        }
      }
      forall k | 0 <= k < |acts| ensures KeyOf(acts[k]) in Keys(acts) {
        if k < n { assert KeyOf(acts[..n][k]) in Keys(acts[..n]); }
      }
    }
  }

  lemma {:induction false} InSectionMembers(items: seq<Item>, section: SectionId)
    ensures forall x :: x in InSection(items, section) <==> x in items && x.section == section
  {
    if items != [] {
      InSectionMembers(items[..|items| - 1], section);
      assert items == items[..|items| - 1] + [items[|items| - 1]];
    }
  }

  lemma {:induction false} TargetsMembers(items: seq<Item>, contexts: seq<SectionId>)
    ensures forall x :: x in TargetsOf(items, contexts) <==> x in items && x.section in contexts
  {
    if contexts != [] {
      var n := |contexts| - 1;
      TargetsMembers(items, contexts[..n]);
      InSectionMembers(items, contexts[n]);
      assert contexts == contexts[..n] + [contexts[n]];
    }
  }

  lemma {:induction false} MandatoryMembers(items: seq<Item>)
    ensures forall x :: x in Mandatory(items) <==> x in items && x.tier.MandatoryAnchor?
  {
    if items != [] {
      MandatoryMembers(items[..|items| - 1]);
      assert items == items[..|items| - 1] + [items[|items| - 1]];
    }
  }

  lemma {:induction false} ItemsOfAt(items: seq<Item>, acts: seq<Activation>)
    requires Refers(items, acts)
    ensures forall k :: 0 <= k < |acts| ==>
        ItemsOf(items, acts)[k] in items && ItemsOf(items, acts)[k].id == acts[k].item
  {
    if acts != [] {
      var n := |acts| - 1;
      RefersPrefix(items, acts, n);
      ItemsOfAt(items, acts[..n]);
      forall k | 0 <= k < |acts|
        ensures ItemsOf(items, acts)[k] in items && ItemsOf(items, acts)[k].id == acts[k].item
      {
        if k < n { assert acts[..n][k] == acts[k]; }
      }
    }
  }

  lemma {:induction false} ItemsOfPrefix(items: seq<Item>, acts: seq<Activation>, longer: seq<Activation>)
    requires Refers(items, longer) && acts <= longer
    ensures Refers(items, acts) && ItemsOf(items, acts) <= ItemsOf(items, longer)
  {
    if |acts| < |longer| {
      RefersPrefix(items, longer, |longer| - 1);
      ItemsOfPrefix(items, acts, longer[..|longer| - 1]);
    } else {
      assert acts == longer;
    }
  }

  // ----- one expansion

  /** An appended activation, explained: an edge from the causing item to a plan item. */
  ghost predicate Explained(a: Activation, causing: Item, items: seq<Item>) {
    exists j :: 0 <= j < |items| && Edge(causing, items[j]) && KeyOf(a) == EdgeKey(causing, items[j])
        && a.causes == [causing.id]
  }

  lemma {:induction false} ExpandMeaning(
    items: seq<Item>, acts: seq<Activation>, causing: Item, targets: seq<Item>, revision: nat)
    requires forall x :: x in targets ==> x in items
    ensures var after := Expand(acts, causing, targets, revision);
            && acts <= after && Keys(acts) <= Keys(after)
            && (forall x :: x in targets && Edge(causing, x) ==> EdgeKey(causing, x) in Keys(after))
            && (forall k :: |acts| <= k < |after| ==> Explained(after[k], causing, items))
  {
    if targets != [] {
      var n := |targets| - 1;
      assert targets == targets[..n] + [targets[n]];
      ExpandMeaning(items, acts, causing, targets[..n], revision);
      var before := Expand(acts, causing, targets[..n], revision);
      var after := Expand(acts, causing, targets, revision);
      if after != before {
        assert after[..|after| - 1] == before;
        assert targets[n] in items;
        assert Explained(after[|before|], causing, items);
      }
    }
  }

  lemma {:induction false} ExpandAppends(
    acts: seq<Activation>, causing: Item, a: seq<Item>, b: seq<Item>, revision: nat)
    ensures Expand(acts, causing, a + b, revision) == Expand(Expand(acts, causing, a, revision), causing, b, revision)
  {
    if b == [] {
      assert a + b == a;
    } else {
      assert (a + b)[..|a + b| - 1] == a + b[..|b| - 1];
      ExpandAppends(acts, causing, a, b[..|b| - 1], revision);
    }
  }

  /** Each expansion appends keys of the universe that were not listed. */
  lemma {:induction false} ExpandGrows(
    items: seq<Item>, acts: seq<Activation>, causing: Item, targets: seq<Item>, revision: nat)
    requires causing in items && forall x :: x in targets ==> x in items
    ensures var after := Expand(acts, causing, targets, revision);
            Keys(acts) <= Keys(after) && (after == acts || Universe(items) - Keys(after) < Universe(items) - Keys(acts))
    ensures Refers(items, acts) ==> Refers(items, Expand(acts, causing, targets, revision))
  {
    if targets != [] {
      var n := |targets| - 1;
      ExpandGrows(items, acts, causing, targets[..n], revision);
      var before := Expand(acts, causing, targets[..n], revision);
      var after := Expand(acts, causing, targets, revision);
      if after != before {
        assert after[..|after| - 1] == before;
        assert targets[n] in items;
        assert EdgeKey(causing, targets[n]) in Universe(items);
        assert EdgeKey(causing, targets[n]) in Universe(items) - Keys(before);
        assert EdgeKey(causing, targets[n]) !in Universe(items) - Keys(after);
        if Refers(items, before) {
          var i :| 0 <= i < |items| && items[i] == targets[n];
          assert HasId(items, targets[n].id);
        }
      }
    }
  }

  lemma QueueInPlan(items: seq<Item>, acts: seq<Activation>)
    requires Refers(items, acts)
    ensures forall q :: 0 <= q < |Queue(items, acts)| ==>
              Queue(items, acts)[q] in items && ActiveIn(Queue(items, acts)[q], Keys(acts))
  {
    forall q | 0 <= q < |Queue(items, acts)|
      ensures Queue(items, acts)[q] in items && ActiveIn(Queue(items, acts)[q], Keys(acts))
    {
      QueuedIsActive(items, acts, q);
    }
  }

  lemma QueuedIsActive(items: seq<Item>, acts: seq<Activation>, q: nat)
    requires Refers(items, acts) && q < |Queue(items, acts)|
    ensures Queue(items, acts)[q] in items && ActiveIn(Queue(items, acts)[q], Keys(acts))
  {
    var m := |Mandatory(items)|;
    if q < m {
      MandatoryMembers(items);
      assert Queue(items, acts)[q] in Mandatory(items);
    } else {
      ItemsOfAt(items, acts);
      KeysAre(acts);
      assert Queue(items, acts)[q] == ItemsOf(items, acts)[q - m];
      assert KeyOf(acts[q - m]) in Keys(acts);
    }
  }

  lemma MandatoryIsQueued(items: seq<Item>, acts: seq<Activation>, i: nat) returns (q: nat)
    requires Refers(items, acts) && i < |items| && items[i].tier.MandatoryAnchor?
    ensures q < |Queue(items, acts)| && Queue(items, acts)[q] == items[i]
  {
    MandatoryMembers(items);
    assert items[i] in Mandatory(items);
    q :| 0 <= q < |Mandatory(items)| && Mandatory(items)[q] == items[i];
  }

  lemma ActivatedIsQueued(items: seq<Item>, acts: seq<Activation>, i: nat, k: nat)
    requires Refers(items, acts) && UniqueIds(items) && i < |items| && k < |acts| && acts[k].item == items[i].id
    ensures Queue(items, acts)[|Mandatory(items)| + k] == items[i]
  {
    ItemsOfAt(items, acts);
    var j :| 0 <= j < |items| && items[j] == ItemsOf(items, acts)[k];
    assert items[j].id == items[i].id;
  }

  /** Every active item has a place in the queue. */
  lemma ActiveIsQueued(items: seq<Item>, acts: seq<Activation>, i: nat) returns (q: nat)
    requires Refers(items, acts) && UniqueIds(items) && i < |items| && ActiveIn(items[i], Keys(acts))
    ensures q < |Queue(items, acts)| && Queue(items, acts)[q] == items[i]
  {
    if items[i].tier.MandatoryAnchor? {
      q := MandatoryIsQueued(items, acts, i);
    } else {
      KeysAre(acts);
      var key :| key in Keys(acts) && key.0 == items[i].id;
      var k :| 0 <= k < |acts| && KeyOf(acts[k]) == key;
      ActivatedIsQueued(items, acts, i, k);
      q := |Mandatory(items)| + k;
    }
  }

  lemma SmallerSet<T>(a: set<T>, b: set<T>)
    requires a < b
    ensures |a| < |b|
  {
    assert b == a + (b - a);
  }

  /** What remains to be discovered, then what remains to be visited. */
  lemma WorklistShrinks(items: seq<Item>, acts: seq<Activation>, causing: Item, revision: nat)
    requires Refers(items, acts) && causing in items
    ensures var after := Expand(acts, causing, TargetsOf(items, causing.contexts), revision);
            && Refers(items, after)
            && (after == acts || |Universe(items) - Keys(after)| < |Universe(items) - Keys(acts)|)
  {
    TargetsMembers(items, causing.contexts);
    ExpandGrows(items, acts, causing, TargetsOf(items, causing.contexts), revision);
    var after := Expand(acts, causing, TargetsOf(items, causing.contexts), revision);
    if after != acts {
      SmallerSet(Universe(items) - Keys(after), Universe(items) - Keys(acts));
    }
  }

  function Saturate(items: seq<Item>, acts: seq<Activation>, cursor: nat, revision: nat): seq<Activation>
    requires Refers(items, acts)
    decreases |Universe(items) - Keys(acts)|, |Queue(items, acts)| - cursor
  {
    if cursor >= |Queue(items, acts)| then acts
    else
      var causing := Queue(items, acts)[cursor];
      QueueInPlan(items, acts);
      WorklistShrinks(items, acts, causing, revision);
      Saturate(items, Expand(acts, causing, TargetsOf(items, causing.contexts), revision), cursor + 1, revision)
  }

  function Close(items: seq<Item>, acts: seq<Activation>, revision: nat): seq<Activation>
    requires Refers(items, acts)
  {
    Saturate(items, acts, 0, revision)
  }

  // ----- the least closed set

  ghost predicate VisitedFollow(items: seq<Item>, acts: seq<Activation>, cursor: nat)
    requires Refers(items, acts)
  {
    forall q :: 0 <= q < cursor && q < |Queue(items, acts)| ==> Follows(items, Keys(acts), Queue(items, acts)[q])
  }

  lemma VisitStep(items: seq<Item>, acts: seq<Activation>, cursor: nat, revision: nat)
    requires Refers(items, acts) && VisitedFollow(items, acts, cursor) && cursor < |Queue(items, acts)|
    ensures var causing := Queue(items, acts)[cursor];
            var after := Expand(acts, causing, TargetsOf(items, causing.contexts), revision);
            && Refers(items, after) && acts <= after && Keys(acts) <= Keys(after)
            && VisitedFollow(items, after, cursor + 1)
            && causing in items && ActiveIn(causing, Keys(acts))
            && forall k :: |acts| <= k < |after| ==> Explained(after[k], causing, items)
  {
    QueueInPlan(items, acts);
    var causing := Queue(items, acts)[cursor];
    var targets := TargetsOf(items, causing.contexts);
    TargetsMembers(items, causing.contexts);
    WorklistShrinks(items, acts, causing, revision);
    ExpandMeaning(items, acts, causing, targets, revision);
    var after := Expand(acts, causing, targets, revision);
    ItemsOfPrefix(items, acts, after);
    assert Queue(items, acts) <= Queue(items, after);
    forall q | 0 <= q < cursor + 1 && q < |Queue(items, after)|
      ensures Follows(items, Keys(after), Queue(items, after)[q])
    {
      assert Queue(items, after)[q] == Queue(items, acts)[q];
      if q == cursor {
        forall j | 0 <= j < |items| && Edge(causing, items[j]) ensures EdgeKey(causing, items[j]) in Keys(after) {
          assert items[j] in targets;
        }
      } else {
        assert Follows(items, Keys(acts), Queue(items, acts)[q]);
      }
    }
  }

  /** Once the whole queue has been visited the set is closed. */
  lemma VisitedAllIsClosed(items: seq<Item>, acts: seq<Activation>, cursor: nat)
    requires Refers(items, acts) && UniqueIds(items)
    requires VisitedFollow(items, acts, cursor) && cursor >= |Queue(items, acts)|
    ensures Closed(items, Keys(acts))
  {
    forall i | 0 <= i < |items| && ActiveIn(items[i], Keys(acts)) ensures Follows(items, Keys(acts), items[i]) {
      var q := ActiveIsQueued(items, acts, i);
    }
  }

  lemma SaturateCloses(items: seq<Item>, acts: seq<Activation>, cursor: nat, revision: nat)
    requires Refers(items, acts) && UniqueIds(items) && VisitedFollow(items, acts, cursor)
    ensures var after := Saturate(items, acts, cursor, revision);
            acts <= after && Refers(items, after) && Closed(items, Keys(after)) && Keys(acts) <= Keys(after)
    decreases |Universe(items) - Keys(acts)|, |Queue(items, acts)| - cursor
  {
    if cursor >= |Queue(items, acts)| {
      VisitedAllIsClosed(items, acts, cursor);
    } else {
      VisitStep(items, acts, cursor, revision);
      var causing := Queue(items, acts)[cursor];
      WorklistShrinks(items, acts, causing, revision);
      SaturateCloses(items, Expand(acts, causing, TargetsOf(items, causing.contexts), revision), cursor + 1, revision);
    }
  }

  /** Nothing outside any closed superset is ever added. */
  lemma SaturateIsLeast(items: seq<Item>, acts: seq<Activation>, cursor: nat, revision: nat, bound: set<Key>)
    requires Refers(items, acts) && VisitedFollow(items, acts, cursor)
    requires Closed(items, bound) && Keys(acts) <= bound
    ensures Keys(Saturate(items, acts, cursor, revision)) <= bound
    decreases |Universe(items) - Keys(acts)|, |Queue(items, acts)| - cursor
  {
    if cursor < |Queue(items, acts)| {
      VisitStep(items, acts, cursor, revision);
      var causing := Queue(items, acts)[cursor];
      WorklistShrinks(items, acts, causing, revision);
      var after := Expand(acts, causing, TargetsOf(items, causing.contexts), revision);
      KeysAre(acts);
      KeysAre(after);
      var i :| 0 <= i < |items| && items[i] == causing;
      assert ActiveIn(items[i], bound);
      forall key | key in Keys(after) ensures key in bound {
        var k :| 0 <= k < |after| && KeyOf(after[k]) == key;
        if k < |acts| {
          assert after[k] == acts[k];
        } else {
          assert Explained(after[k], causing, items);
        }
      }
      SaturateIsLeast(items, after, cursor + 1, revision, bound);
    }
  }

  /** What a cause must be: a mandatory item, or the item of an earlier activation, with an edge to the new one. */
  ghost predicate Caused(items: seq<Item>, acts: seq<Activation>, k: nat)
    requires k < |acts|
  {
    exists i :: 0 <= i < |items| && Explained(acts[k], items[i], items)
                && ActiveIn(items[i], Keys(acts[..k]))
  }

  lemma SaturateCauses(items: seq<Item>, acts: seq<Activation>, cursor: nat, revision: nat, k: nat)
    requires Refers(items, acts) && VisitedFollow(items, acts, cursor)
    requires |acts| <= k < |Saturate(items, acts, cursor, revision)|
    ensures Caused(items, Saturate(items, acts, cursor, revision), k)
    decreases |Universe(items) - Keys(acts)|, |Queue(items, acts)| - cursor
  {
    VisitStep(items, acts, cursor, revision);
    var causing := Queue(items, acts)[cursor];
    WorklistShrinks(items, acts, causing, revision);
    var after := Expand(acts, causing, TargetsOf(items, causing.contexts), revision);
    var final := Saturate(items, acts, cursor, revision);
    SaturatePrefix(items, after, cursor + 1, revision);
    if k < |after| {
      assert final[k] == after[k];
      assert Explained(after[k], causing, items);
      var i :| 0 <= i < |items| && items[i] == causing;
      KeysPrefix(acts, final[..k]);
      assert ActiveIn(items[i], Keys(final[..k]));
    } else {
      SaturateCauses(items, after, cursor + 1, revision, k);
    }
  }

  lemma SaturatePrefix(items: seq<Item>, acts: seq<Activation>, cursor: nat, revision: nat)
    requires Refers(items, acts) && VisitedFollow(items, acts, cursor)
    ensures acts <= Saturate(items, acts, cursor, revision)
    decreases |Universe(items) - Keys(acts)|, |Queue(items, acts)| - cursor
  {
    if cursor < |Queue(items, acts)| {
      VisitStep(items, acts, cursor, revision);
      var causing := Queue(items, acts)[cursor];
      WorklistShrinks(items, acts, causing, revision);
      SaturatePrefix(items, Expand(acts, causing, TargetsOf(items, causing.contexts), revision), cursor + 1, revision);
    }
  }

  lemma {:induction false} KeysPrefix(acts: seq<Activation>, longer: seq<Activation>)
    requires acts <= longer
    ensures Keys(acts) <= Keys(longer)
  {
    KeysAre(acts);
    KeysAre(longer);
    forall key | key in Keys(acts) ensures key in Keys(longer) {
      var k :| 0 <= k < |acts| && KeyOf(acts[k]) == key;
      assert longer[k] == acts[k];
    }
  }

  /**
   * The worklist yields exactly the least set of activations that contains the given ones and is closed
   * under context edges; it only appends, and everything appended has a cause that was active before it.
   */
  lemma ClosureMeaning(items: seq<Item>, acts: seq<Activation>, revision: nat)
    requires Refers(items, acts) && UniqueIds(items)
    ensures var after := Close(items, acts, revision);
            && acts <= after && Refers(items, after)
            && Closed(items, Keys(after))
            && (forall bound :: Closed(items, bound) && Keys(acts) <= bound ==> Keys(after) <= bound)
            && (forall k :: |acts| <= k < |after| ==> Caused(items, after, k))
  {
    SaturateCloses(items, acts, 0, revision);
    var after := Close(items, acts, revision);
    forall bound | Closed(items, bound) && Keys(acts) <= bound ensures Keys(after) <= bound {
      SaturateIsLeast(items, acts, 0, revision, bound);
    }
    forall k | |acts| <= k < |after| ensures Caused(items, after, k) {
      SaturateCauses(items, acts, 0, revision, k);
    }
  }
}
