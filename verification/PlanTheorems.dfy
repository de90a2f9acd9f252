/** What the plan builder guarantees for any sections: nothing lost, nothing repeated, nothing its validators refuse. */
module PlanTheorems {
  import EligibilityModel
  import Sorting
  import opened Wrappers
  import opened AcquisitionModel
  import opened Activations
  import opened PlanBuilding

  ghost predicate InOrder(cats: seq<Category>) {
    forall i, j :: 0 <= i < j < |cats| ==> Rank(cats[i]) < Rank(cats[j])
  }

  lemma {:induction false} KeepMeaning(order: seq<Category>, allowed: Category -> bool)
    requires InOrder(order)
    ensures InOrder(Keep(order, allowed))
    ensures forall c :: c in Keep(order, allowed) <==> c in order && allowed(c)
  {
    if order != [] {
      var n := |order| - 1;
      KeepMeaning(order[..n], allowed);
      assert order == order[..n] + [order[n]];
      forall i | 0 <= i < |Keep(order[..n], allowed)| ensures Rank(Keep(order[..n], allowed)[i]) < Rank(order[n]) {
        assert Keep(order[..n], allowed)[i] in order[..n];
        var k :| 0 <= k < n && order[..n][k] == Keep(order[..n], allowed)[i];
        assert order[k] == Keep(order[..n], allowed)[i];
      }
    }
  }

  lemma CandidatesMeaning(s: RoutedSection)
    ensures InOrder(Candidates(s))
    ensures forall c :: c in Candidates(s) <==> Candidate(s, c)
  {
    var all := EligibilityModel.REQUIRED_CATEGORIES;
    forall k | 0 <= k < |all| ensures Rank(all[k]) == k {
    }
    KeepMeaning(all, c => Candidate(s, c));
    forall c ensures c in all {
      EligibilityModel.AllCategoriesListed(c);
    }
  }

  // ----- groups

  function Grouping(c: Category): Group -> bool { (g: Group) => c in g.categories }

  /** A group of one section: in order, and every category with the group's tier, reasons and signal. */
  ghost predicate GroupOf(s: RoutedSection, g: Group, anchored: Category -> bool) {
    && g.categories != [] && InOrder(g.categories)
    && forall c :: c in g.categories ==>
         g.tier == TierOf(s, c) && g.reasons == ReasonsOf(s, c, anchored(c)) && g.signal == SignalRank(s, c)
  }

  ghost predicate GroupsOf(s: RoutedSection, groups: seq<Group>, anchored: Category -> bool) {
    forall k :: 0 <= k < |groups| ==> GroupOf(s, groups[k], anchored)
  }

  ghost predicate RanksBelow(groups: seq<Group>, r: nat) {
    forall k, c :: 0 <= k < |groups| && c in groups[k].categories ==> Rank(c) < r
  }

  lemma {:induction false} AddKeeps(s: RoutedSection, groups: seq<Group>, c: Category, anchored: Category -> bool)
    requires GroupsOf(s, groups, anchored) && RanksBelow(groups, Rank(c))
    ensures var after := AddToGroup(groups, TierOf(s, c), ReasonsOf(s, c, anchored(c)), SignalRank(s, c), c);
            GroupsOf(s, after, anchored) && RanksBelow(after, Rank(c) + 1)
    decreases |groups|
  {
    if groups != [] {
      var g := groups[0];
      var after := AddToGroup(groups, TierOf(s, c), ReasonsOf(s, c, anchored(c)), SignalRank(s, c), c);
      assert GroupOf(s, g, anchored);
      forall k | 0 <= k < |groups[1..]| ensures GroupOf(s, groups[1..][k], anchored) {
        assert GroupOf(s, groups[k + 1], anchored);
      }
      forall k, d | 0 <= k < |groups[1..]| && d in groups[1..][k].categories ensures Rank(d) < Rank(c) {
        assert d in groups[k + 1].categories;
      }
      if g.tier == TierOf(s, c) && g.reasons == ReasonsOf(s, c, anchored(c)) && g.signal == SignalRank(s, c) {
        GroupGrows(s, g, c, anchored);
      } else {
        AddKeeps(s, groups[1..], c, anchored);
      }
    } else {
      assert [c][0] in [c];
    }
  }

  lemma GroupGrows(s: RoutedSection, g: Group, c: Category, anchored: Category -> bool)
    requires GroupOf(s, g, anchored) && forall d :: d in g.categories ==> Rank(d) < Rank(c)
    requires g.tier == TierOf(s, c) && g.reasons == ReasonsOf(s, c, anchored(c)) && g.signal == SignalRank(s, c)
    ensures GroupOf(s, g.(categories := g.categories + [c]), anchored)
  {
    forall i | 0 <= i < |g.categories| ensures Rank(g.categories[i]) < Rank(c) {
      assert g.categories[i] in g.categories;
    }
  }

  lemma {:induction false} AddCounts(
    groups: seq<Group>, tier: Tier, reasons: seq<ActivationReason>, signal: nat, c: Category, d: Category)
    requires forall k :: 0 <= k < |groups| ==> c !in groups[k].categories
    ensures Sorting.Count(Grouping(d), AddToGroup(groups, tier, reasons, signal, c))
         == Sorting.Count(Grouping(d), groups) + if c == d then 1 else 0
    decreases |groups|
  {
    var p := Grouping(d);
    if groups == [] {
      assert AddToGroup(groups, tier, reasons, signal, c) == [] + [Group(tier, reasons, signal, [c])];
    } else {
      var g := groups[0];
      assert groups == [g] + groups[1..];
      Sorting.CountAppend(p, [g], groups[1..]);
      if g.tier == tier && g.reasons == reasons && g.signal == signal {
        var grown := g.(categories := g.categories + [c]);
        Sorting.CountAppend(p, [grown], groups[1..]);
        assert Sorting.Count(p, [grown]) == if d in grown.categories then 1 else 0;
        assert Sorting.Count(p, [g]) == if d in g.categories then 1 else 0;
      } else {
        AddCounts(groups[1..], tier, reasons, signal, c, d);
        Sorting.CountAppend(p, [g], AddToGroup(groups[1..], tier, reasons, signal, c));
      }
    }
  }

  /** Groups of the section's own tiers and reasons that hold each of the categories exactly once. */
  ghost predicate GroupsHold(s: RoutedSection, cats: seq<Category>, anchored: Category -> bool, groups: seq<Group>) {
    && GroupsOf(s, groups, anchored)
    && RanksBelow(groups, if cats == [] then 0 else Rank(cats[|cats| - 1]) + 1)
    && forall d {:trigger Grouping(d)} :: Sorting.Count(Grouping(d), groups) == if d in cats then 1 else 0
  }

  /** Grouping loses no candidate and repeats none. */
  lemma {:induction false} GroupedMeaning(s: RoutedSection, cats: seq<Category>, anchored: Category -> bool)
    requires InOrder(cats)
    ensures GroupsHold(s, cats, anchored, Grouped(s, cats, anchored))
  {
    if cats != [] {
      var front, c := cats[..|cats| - 1], cats[|cats| - 1];
      GroupedMeaning(s, front, anchored);
      assert cats == front + [c];
      var after := GroupedOneMore(s, front, c, anchored, Grouped(s, front, anchored));
    }
  }

  lemma GroupedOneMore(
    s: RoutedSection, front: seq<Category>, c: Category, anchored: Category -> bool, before: seq<Group>)
    returns (after: seq<Group>)
    requires InOrder(front + [c]) && GroupsHold(s, front, anchored, before)
    ensures after == AddToGroup(before, TierOf(s, c), ReasonsOf(s, c, anchored(c)), SignalRank(s, c), c)
    ensures GroupsHold(s, front + [c], anchored, after)
  {
    var n := |front|;
    forall k | 0 <= k < n ensures front[k] != c && Rank(front[k]) < Rank(c) {
      assert Rank((front + [c])[k]) < Rank((front + [c])[n]);
    }
    AddKeeps(s, before, c, anchored);
    after := AddToGroup(before, TierOf(s, c), ReasonsOf(s, c, anchored(c)), SignalRank(s, c), c);
    forall d ensures Sorting.Count(Grouping(d), after) == if d in front + [c] then 1 else 0 {
      AddCounts(before, TierOf(s, c), ReasonsOf(s, c, anchored(c)), SignalRank(s, c), c, d);
    }
  }

  // ----- chunks

  function Chunking(c: Category): seq<Category> -> bool { (chunk: seq<Category>) => c in chunk }

  /** Chunks are short, in order, and hold every category of the group once. */
  lemma {:induction false} ChunksMeaning(cats: seq<Category>)
    requires InOrder(cats)
    ensures forall k :: 0 <= k < |Chunks(cats)| ==> 1 <= |Chunks(cats)[k]| <= 2 && InOrder(Chunks(cats)[k])
    ensures forall k, c :: 0 <= k < |Chunks(cats)| && c in Chunks(cats)[k] ==> c in cats
    ensures forall d :: Sorting.Count(Chunking(d), Chunks(cats)) == if d in cats then 1 else 0
    decreases |cats|
  {
    if |cats| > 2 {
      var head, tail := cats[..2], cats[2..];
      assert cats == head + tail;
      ChunksMeaning(tail);
      forall d ensures Sorting.Count(Chunking(d), Chunks(cats)) == if d in cats then 1 else 0 {
        Sorting.CountAppend(Chunking(d), [head], Chunks(tail));
        assert Sorting.Count(Chunking(d), [head]) == if d in head then 1 else 0;
        HeadNotInTail(cats, d);
      }
    } else if cats != [] {
      forall d ensures Sorting.Count(Chunking(d), [cats]) == if d in cats then 1 else 0 {
        assert [cats][..0] == [];
      }
    }
  }

  lemma HeadNotInTail(cats: seq<Category>, d: Category)
    requires InOrder(cats) && |cats| > 2
    ensures !(d in cats[..2] && d in cats[2..])
  {
    forall i, j | 0 <= i < 2 <= j < |cats| ensures cats[i] != cats[j] {
      assert Rank(cats[i]) < Rank(cats[j]);
    }
    assert forall j :: 0 <= j < |cats| - 2 ==> cats[2..][j] == cats[j + 2];
  }

  // ----- items of one section

  /** A category carried by an item, or the emptiness of a reserve item. */
  predicate Carries(item: Item, section: SectionId, c: Option<Category>) {
    item.section == section && if c.Some? then c.value in item.categories else item.categories == []
  }

  function Carrying(section: SectionId, c: Option<Category>): Item -> bool { (item: Item) => Carries(item, section, c) }

  /** What the plan should hold for a section: each of its candidates, or the one reserve item. */
  predicate Expected(s: RoutedSection, c: Option<Category>) {
    if c.Some? then Candidate(s, c.value) else Candidates(s) == []
  }

  lemma {:induction false} ChunkItemsCount(
    s: RoutedSection, chunks: seq<seq<Category>>, g: Group, digest: Payload -> string, d: Category)
    ensures Sorting.Count(Carrying(s.id, Some(d)), ChunkItems(s, chunks, g, digest))
        == Sorting.Count(Chunking(d), chunks)
  {
    if chunks != [] {
      ChunkItemsCount(s, chunks[..|chunks| - 1], g, digest, d);
    }
  }

  lemma {:induction false} GroupItemsCount(
    s: RoutedSection, groups: seq<Group>, anchored: Category -> bool, digest: Payload -> string, d: Category)
    requires GroupsOf(s, groups, anchored)
    ensures Sorting.Count(Carrying(s.id, Some(d)), GroupItems(s, groups, digest)) == Sorting.Count(Grouping(d), groups)
  {
    if groups != [] {
      var n := |groups| - 1;
      var g := groups[n];
      GroupItemsCount(s, groups[..n], anchored, digest, d);
      assert GroupOf(s, g, anchored);
      ChunksMeaning(g.categories);
      ChunkItemsCount(s, Chunks(g.categories), g, digest, d);
      Sorting.CountAppend(Carrying(s.id, Some(d)), GroupItems(s, groups[..n], digest),
          ChunkItems(s, Chunks(g.categories), g, digest));
    }
  }

  // ----- the validators of an item

  predicate RankingBounded(r: Ranking) {
    0 <= r.tierRank <= 2 && -1 <= r.categoryRank <= 8 && 0 <= r.signalRank <= 3 && r.dependencies <= MAX_CONTEXT
  }

  /** The item contract of the source. */
  ghost predicate ItemValid(item: Item) {
    && |item.categories| <= 2 && InOrder(item.categories)
    && (if item.tier.ReserveFallback?
        then item.categories == [] && item.reasons == [] && item.ranking.categoryRank == -1
        else item.categories != [] && item.ranking.categoryRank == Rank(item.categories[0]))
    && (item.tier.MandatoryAnchor? ==> item.reasons == [])
    && (item.tier.ConditionalDiscovery? ==> item.reasons != [])
    && |item.contexts| <= MAX_CONTEXT && Unique(item.contexts)
    && Unique(item.reasons) && Unique(item.routing)
    && item.ranking.tierRank == TierRank(item.tier)
    && RankingBounded(item.ranking)
  }

  /** What the section contract gives the builder. */
  ghost predicate SectionValid(s: RoutedSection) {
    |s.contexts| <= MAX_CONTEXT && Unique(s.contexts) && Unique(s.routing)
  }

  lemma {:induction false} KeepReasonsUnique(
    order: seq<ActivationReason>, s: RoutedSection, c: Category, anchored: bool)
    requires Unique(order)
    ensures Unique(KeepReasons(order, s, c, anchored))
    ensures forall r :: r in KeepReasons(order, s, c, anchored) <==> r in order && HasReason(s, c, anchored, r)
  {
    if order != [] {
      var n := |order| - 1;
      KeepReasonsUnique(order[..n], s, c, anchored);
      assert order == order[..n] + [order[n]];
    }
  }

  lemma PrecedenceListsAll(r: ActivationReason)
    ensures r in PRECEDENCE && Unique(PRECEDENCE)
  {
    match r
    case IncompleteGoverningContext => assert PRECEDENCE[0] == r;
    case ExplicitReferenceRequired => assert PRECEDENCE[1] == r;
    case GlobalContextRequired => assert PRECEDENCE[2] == r;
    case AmbiguousAnchor => assert PRECEDENCE[3] == r;
    case NoSupportedAnchor => assert PRECEDENCE[4] == r;
    case RuleLikeFallback => assert PRECEDENCE[5] == r;
    case RoutingUncertain => assert PRECEDENCE[6] == r;
  }

  /** A candidate that is no anchor always has a reason. */
  lemma ReasonsMeaning(s: RoutedSection, c: Category, anchored: bool)
    ensures Unique(ReasonsOf(s, c, anchored))
    ensures LocalMandatory(s, c) <==> ReasonsOf(s, c, anchored) == []
  {
    PrecedenceListsAll(NoSupportedAnchor);
    PrecedenceListsAll(IncompleteGoverningContext);
    PrecedenceListsAll(RuleLikeFallback);
    PrecedenceListsAll(ExplicitReferenceRequired);
    PrecedenceListsAll(GlobalContextRequired);
    KeepReasonsUnique(PRECEDENCE, s, c, anchored);
    if !LocalMandatory(s, c) {
      var reasons := ReasonsOf(s, c, anchored);
      if NoOtherReason(s, c) {
        assert NoSupportedAnchor in reasons;
      } else if !s.contextComplete {
        assert IncompleteGoverningContext in reasons;
      } else if s.ruleLike && c in s.hints {
        assert RuleLikeFallback in reasons;
      } else if StructuralReference in s.routing {
        assert ExplicitReferenceRequired in reasons;
      } else {
        assert GlobalContextRequired in reasons;
      }
    }
  }

  lemma {:induction false} LeastSignalBounded(s: RoutedSection, cats: seq<Category>)
    ensures LeastSignal(s, cats) <= 3
  {
    if cats != [] {
      LeastSignalBounded(s, cats[..|cats| - 1]);
    }
  }

  lemma MadeItemValid(
    s: RoutedSection, cats: seq<Category>, tier: Tier, reasons: seq<ActivationReason>, digest: Payload -> string)
    requires SectionValid(s) && |cats| <= 2 && InOrder(cats) && Unique(reasons)
    requires tier.ReserveFallback? <==> cats == []
    requires !tier.ConditionalDiscovery? ==> reasons == []
    requires tier.ConditionalDiscovery? ==> reasons != []
    ensures ItemValid(MakeItem(s, cats, tier, reasons, digest))
  {
    LeastSignalBounded(s, cats);
  }

  /** The group of a candidate tells its tier, and with it whether there are reasons. */
  lemma GroupShape(s: RoutedSection, g: Group, anchored: Category -> bool)
    requires GroupOf(s, g, anchored)
    ensures !g.tier.ReserveFallback? && Unique(g.reasons)
    ensures g.tier.MandatoryAnchor? <==> g.reasons == []
  {
    var c := g.categories[0];
    assert c in g.categories;
    ReasonsMeaning(s, c, anchored(c));
  }

  ghost predicate Made(item: Item, s: RoutedSection, digest: Payload -> string) {
    && ItemValid(item) && item.section == s.id && item.contexts == s.contexts && item.ranking.start == s.start
    && item.contextComplete == s.contextComplete && item.routing == s.routing
    && item.id == digest(PayloadOf(item))
  }

  function PayloadOf(item: Item): Payload {
    Payload(item.section, item.categories, item.tier, item.contexts, item.contextComplete, item.reasons, item.routing,
        item.ranking)
  }

  ghost predicate AllMade(items: seq<Item>, s: RoutedSection, digest: Payload -> string) {
    forall k :: 0 <= k < |items| ==> Made(items[k], s, digest)
  }

  lemma {:induction false} ChunkItemsMade(
    s: RoutedSection, chunks: seq<seq<Category>>, g: Group, anchored: Category -> bool, digest: Payload -> string)
    requires SectionValid(s) && GroupOf(s, g, anchored)
    requires forall k :: 0 <= k < |chunks| ==> 1 <= |chunks[k]| <= 2 && InOrder(chunks[k])
    ensures AllMade(ChunkItems(s, chunks, g, digest), s, digest)
  {
    if chunks != [] {
      var n := |chunks| - 1;
      forall k | 0 <= k < n ensures 1 <= |chunks[..n][k]| <= 2 && InOrder(chunks[..n][k]) {
        assert chunks[..n][k] == chunks[k];
      }
      ChunkItemsMade(s, chunks[..n], g, anchored, digest);
      GroupShape(s, g, anchored);
      MadeItemValid(s, chunks[n], g.tier, g.reasons, digest);
    }
  }

  lemma {:induction false} GroupItemsMade(
    s: RoutedSection, groups: seq<Group>, anchored: Category -> bool, digest: Payload -> string)
    requires SectionValid(s) && GroupsOf(s, groups, anchored)
    ensures AllMade(GroupItems(s, groups, digest), s, digest)
  {
    if groups != [] {
      var n := |groups| - 1;
      GroupItemsMade(s, groups[..n], anchored, digest);
      assert GroupOf(s, groups[n], anchored);
      ChunksMeaning(groups[n].categories);
      ChunkItemsMade(s, Chunks(groups[n].categories), groups[n], anchored, digest);
    }
  }

  /** One section's items are valid and carry each expected category, or the reserve, exactly once. */
  lemma SectionItemsMeaning(sections: seq<RoutedSection>, s: RoutedSection, digest: Payload -> string)
    requires SectionValid(s)
    ensures AllMade(SectionItems(sections, s, digest), s, digest)
    ensures forall c ::
              Sorting.Count(Carrying(s.id, c), SectionItems(sections, s, digest)) == if Expected(s, c) then 1 else 0
  {
    CandidatesMeaning(s);
    var items := SectionItems(sections, s, digest);
    if Candidates(s) == [] {
      MadeItemValid(s, [], ReserveFallback, [], digest);
      forall c ensures Sorting.Count(Carrying(s.id, c), items) == if Expected(s, c) then 1 else 0 {
        assert items[..0] == [];
        if c.Some? { assert c.value !in Candidates(s); }
      }
    } else {
      var anchored := c => MandatorySomewhere(sections, c);
      var groups := Grouped(s, Candidates(s), anchored);
      GroupedMeaning(s, Candidates(s), anchored);
      GroupItemsMade(s, groups, anchored, digest);
      assert items == GroupItems(s, groups, digest);
      forall c: Option<Category> ensures Sorting.Count(Carrying(s.id, c), items) == if Expected(s, c) then 1 else 0 {
        if c.Some? {
          GroupItemsCount(s, groups, anchored, digest, c.value);
        } else {
          NoEmptyItems(s, groups, anchored, digest);
        }
      }
    }
  }

  lemma NoEmptyItems(s: RoutedSection, groups: seq<Group>, anchored: Category -> bool, digest: Payload -> string)
    requires SectionValid(s) && GroupsOf(s, groups, anchored)
    ensures Sorting.Count(Carrying(s.id, None), GroupItems(s, groups, digest)) == 0
  {
    var items := GroupItems(s, groups, digest);
    AddressedOnly(s, groups, anchored, digest);
    Sorting.CountedNone(Carrying(s.id, None), items);
  }

  lemma {:induction false} AddressedOnly(
    s: RoutedSection, groups: seq<Group>, anchored: Category -> bool, digest: Payload -> string)
    requires GroupsOf(s, groups, anchored)
    ensures forall k :: 0 <= k < |GroupItems(s, groups, digest)| ==> GroupItems(s, groups, digest)[k].categories != []
  {
    if groups != [] {
      var n := |groups| - 1;
      AddressedOnly(s, groups[..n], anchored, digest);
      assert GroupOf(s, groups[n], anchored);
      ChunksMeaning(groups[n].categories);
      ChunkItemsAddressed(s, Chunks(groups[n].categories), groups[n], digest);
    }
  }

  lemma {:induction false} ChunkItemsAddressed(
    s: RoutedSection, chunks: seq<seq<Category>>, g: Group, digest: Payload -> string)
    requires forall k :: 0 <= k < |chunks| ==> chunks[k] != []
    ensures forall k :: 0 <= k < |ChunkItems(s, chunks, g, digest)| ==>
        ChunkItems(s, chunks, g, digest)[k].categories != []
  {
    if chunks != [] {
      var front := chunks[..|chunks| - 1];
      forall k | 0 <= k < |front| ensures front[k] != [] {
        assert front[k] == chunks[k];
      }
      ChunkItemsAddressed(s, chunks[..|chunks| - 1], g, digest);
    }
  }
}
