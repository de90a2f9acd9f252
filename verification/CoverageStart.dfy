/** The ledger of a freshly loaded plan. */
module CoverageStart {
  import EligibilityModel
  import opened Wrappers
  import opened AcquisitionModel
  import opened ActivationClosure
  import opened Activations
  import opened CoverageRules
  import opened CoverageInvariants
  import opened CoverageReconciliation

  lemma CloseKeepsProper(items: seq<Item>, acts: seq<Activation>, revision: nat)
    requires PlanValid(items) && Refers(items, acts) && AllProper(items, Keys(acts))
    ensures AllProper(items, Keys(Close(items, acts, revision)))
  {
    SaturateCloses(items, acts, 0, revision);
    var after := Keys(Close(items, acts, revision));
    ProperPartClosed(items, after);
    SaturateIsLeast(items, acts, 0, revision, ProperPart(items, after));
  }

  lemma StaticProper(items: seq<Item>, revision: nat)
    requires PlanValid(items)
    ensures AllProper(items, Keys(StaticActivations(items, |items|, revision)))
  {
    var acts := StaticActivations(items, |items|, revision);
    StaticRefers(items, |items|, revision);
    KeysAre(acts);
    forall key | key in Keys(acts) ensures Proper(items, key) {
      var k :| 0 <= k < |acts| && KeyOf(acts[k]) == key;
      assert FromConditional(items, acts[k]);
      var i :| 0 <= i < |items| && items[i].tier.ConditionalDiscovery?
          && KeyOf(acts[k]) == (items[i].id, items[i].categories);
      AskedKeyProper(items, i);
    }
  }

  /**
   * The initial activations are the least closed set that holds every conditional item with a static
   * reason, or with none of its categories anchored.
   */
  lemma InitialActivationsMeaning(items: seq<Item>, revision: nat)
    requires PlanValid(items)
    ensures var acts := InitialActivations(items, revision);
            && Refers(items, acts) && Closed(items, Keys(acts)) && AllProper(items, Keys(acts))
            && Keys(StaticActivations(items, |items|, revision)) <= Keys(acts)
            && forall bound :: Closed(items, bound) && Keys(StaticActivations(items, |items|, revision)) <= bound ==>
                Keys(acts) <= bound
  {
    StaticRefers(items, |items|, revision);
    StaticProper(items, revision);
    ClosureMeaning(items, StaticActivations(items, |items|, revision), revision);
    KeysPrefix(StaticActivations(items, |items|, revision), InitialActivations(items, revision));
    CloseKeepsProper(items, StaticActivations(items, |items|, revision), revision);
  }

  lemma FirstReasonMeaning(items: seq<Item>, item: Item, order: seq<ActivationReason>)
    ensures FirstReason(items, item, order).Some? <==> exists k :: 0 <= k < |order| && StartsWith(items, item, order[k])
    ensures FirstReason(items, item, order).Some? ==>
              exists k :: 0 <= k < |order| && order[k] == FirstReason(items, item, order).value
                          && StartsWith(items, item, order[k])
                          && forall j :: 0 <= j < k ==> !StartsWith(items, item, order[j])
    decreases |order|
  {
    if order != [] && !StartsWith(items, item, order[0]) {
      FirstReasonMeaning(items, item, order[1..]);
      if k :| 0 <= k < |order| && StartsWith(items, item, order[k]) {
        assert order[1..][k - 1] == order[k];
      }
      if FirstReason(items, item, order[1..]).Some? {
        var k :| 0 <= k < |order[1..]| && order[1..][k] == FirstReason(items, item, order[1..]).value
                 && StartsWith(items, item, order[1..][k])
                 && forall j :: 0 <= j < k ==> !StartsWith(items, item, order[1..][j]);
        assert order[k + 1] == order[1..][k];
        forall j | 0 <= j < k + 1 ensures !StartsWith(items, item, order[j]) {
          if j > 0 { assert order[j] == order[1..][j - 1]; }
        }
      }
    }
  }

  // ----- the ledger before any activation

  function Base(items: seq<Item>): Ledger { Ledger(items, InitialStates(items), {}, map[], map[], [], []) }

  function InitialState(item: Item): ItemState { if item.tier.MandatoryAnchor? then Active else Inactive }

  lemma {:induction false} InitialStatesAt(items: seq<Item>, n: nat)
    requires UniqueIds(items) && n <= |items|
    ensures forall i, c :: 0 <= i < n && c in items[i].categories ==>
              (items[i].id, c) in InitialStates(items[..n])
                  && InitialStates(items[..n])[(items[i].id, c)] == InitialState(items[i])
    ensures forall o :: o in InitialStates(items[..n]) ==>
        exists i :: 0 <= i < n && items[i].id == o.0 && o.1 in items[i].categories
  {
    if n > 0 {
      InitialStatesAt(items, n - 1);
      assert items[..n][..n - 1] == items[..n - 1];
      var before, after := InitialStates(items[..n - 1]), InitialStates(items[..n]);
      forall i, c | 0 <= i < n && c in items[i].categories
        ensures (items[i].id, c) in after && after[(items[i].id, c)] == InitialState(items[i])
      {
        if i == n - 1 {
          assert (items[i].id, c) in Obligations(items[i].id, items[i].categories);
        } else {
          assert items[i].id != items[n - 1].id;
          assert (items[i].id, c) in before;
        }
      }
      forall o | o in after ensures exists i :: 0 <= i < n && items[i].id == o.0 && o.1 in items[i].categories {
        if o !in before {
          assert o in Obligations(items[n - 1].id, items[n - 1].categories);
        }
      }
    }
  }

  lemma BaseInv(items: seq<Item>)
    requires PlanValid(items)
    ensures Coherent(Base(items))
  {
    var l := Base(items);
    InitialStatesAt(items, |items|);
    assert items[..|items|] == items;
    forall i | 0 <= i < |items| ensures Cells(l, items[i]) {
      forall k | 0 <= k < |items[i].categories| ensures Cell(l, items[i], items[i].categories[k]) {
        assert items[i].categories[k] in items[i].categories;
        assert items[i].categories[0] in items[i].categories;
      }
    }
    forall o | o in l.states ensures ObligationKnown(l, o) {
      var i :| 0 <= i < |items| && items[i].id == o.0 && o.1 in items[i].categories;
      assert o.1 in Recorded(l, l.items[i]);
    }
  }

  /** A valid plan loads, and the ledger it starts with satisfies the invariant. */
  lemma InitialMeaning(items: seq<Item>)
    requires PlanValid(items)
    ensures Initial(items).Ok? && CoverageInv(Initial(items).value)
    ensures Initial(items).value.items == items && Initial(items).value.attempts == {}
    ensures Keys(Initial(items).value.activations) == Keys(InitialActivations(items, 0))
  {
    BaseInv(items);
    InitialActivationsMeaning(items, 0);
    ApplyMeaning(Base(items), InitialActivations(items, 0));
  }
}
