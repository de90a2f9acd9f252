/** src/qualor/runtime/acquisition_plan.py: from routed sections to plan items, chunk by chunk. */
module PlanBuilding {
  import EligibilityModel
  import Sorting
  import opened Wrappers
  import opened AcquisitionModel
  import opened Activations

  /** A section as the plan builder sees it. */
  datatype RoutedSection = RoutedSection(
    id: SectionId, start: nat, contexts: seq<SectionId>, contextComplete: bool,
    body: seq<Category>, heading: seq<Category>, ruleLike: bool, hints: seq<Category>, routing: seq<RoutingReason>)

  /** Everything an item's identifier is a digest of, besides the revision. */
  datatype Payload = Payload(
    section: SectionId, categories: seq<Category>, tier: Tier, contexts: seq<SectionId>,
    contextComplete: bool, reasons: seq<ActivationReason>, routing: seq<RoutingReason>, ranking: Ranking)

  datatype Record = Record(item: Item, breadth: nat)

  /** A group of a section's candidates that share tier, reasons and signal, in order. */
  datatype Group = Group(tier: Tier, reasons: seq<ActivationReason>, signal: nat, categories: seq<Category>)

  // ----- one category of one section

  /** The categories of a list, in their fixed order. */
  function Keep(order: seq<Category>, allowed: Category -> bool): seq<Category> {
    if order == [] then []
    else Keep(order[..|order| - 1], allowed) + if allowed(order[|order| - 1]) then [order[|order| - 1]] else []
  }

  predicate Candidate(s: RoutedSection, c: Category) { c in s.body || c in s.heading || c in s.hints }

  function Candidates(s: RoutedSection): seq<Category> {
    Keep(EligibilityModel.REQUIRED_CATEGORIES, c => Candidate(s, c))
  }

  predicate LocalMandatory(s: RoutedSection, c: Category) { c in s.body && RuleLikeMarker in s.routing }

  predicate MandatorySomewhere(sections: seq<RoutedSection>, c: Category) {
    exists i :: 0 <= i < |sections| && LocalMandatory(sections[i], c)
  }

  function TierRank(t: Tier): int {
    match t
    case MandatoryAnchor => 0
    case ConditionalDiscovery => 1
    case ReserveFallback => 2
  }

  function TierOf(s: RoutedSection, c: Category): Tier {
    if LocalMandatory(s, c) then MandatoryAnchor else ConditionalDiscovery
  }

  function SignalRank(s: RoutedSection, c: Category): nat {
    if LocalMandatory(s, c) then 0
    else if c in s.body then 1
    else if c in s.heading && s.ruleLike then 2
    else 3
  }

  predicate HasReason(s: RoutedSection, c: Category, anchored: bool, r: ActivationReason) {
    match r
    case IncompleteGoverningContext => !s.contextComplete
    case NoSupportedAnchor => !anchored || NoOtherReason(s, c)
    case RuleLikeFallback => s.ruleLike && c in s.hints
    case RoutingUncertain => s.ruleLike && c in s.hints
    case ExplicitReferenceRequired => StructuralReference in s.routing
    case GlobalContextRequired => GlobalScope in s.routing
    case AmbiguousAnchor => false
  }

  predicate NoOtherReason(s: RoutedSection, c: Category) {
    s.contextComplete && !(s.ruleLike && c in s.hints) && StructuralReference !in s.routing && GlobalScope !in s.routing
  }

  function KeepReasons(
    order: seq<ActivationReason>, s: RoutedSection, c: Category, anchored: bool): seq<ActivationReason>
  {
    if order == [] then []
    else
      var n := |order| - 1;
      KeepReasons(order[..n], s, c, anchored) + if HasReason(s, c, anchored, order[n]) then [order[n]] else []
  }

  /** The reasons of a candidate; an anchor needs none. */
  function ReasonsOf(s: RoutedSection, c: Category, anchored: bool): seq<ActivationReason> {
    if LocalMandatory(s, c) then [] else KeepReasons(PRECEDENCE, s, c, anchored)
  }

  // ----- grouping and chunking

  function AddToGroup(
    groups: seq<Group>, tier: Tier, reasons: seq<ActivationReason>, signal: nat, c: Category): seq<Group>
  {
    if groups == [] then [Group(tier, reasons, signal, [c])]
    else
      var g := groups[0];
      if g.tier == tier && g.reasons == reasons && g.signal == signal
      then [g.(categories := g.categories + [c])] + groups[1..]
      else [g] + AddToGroup(groups[1..], tier, reasons, signal, c)
  }

  function Grouped(s: RoutedSection, cats: seq<Category>, anchored: Category -> bool): seq<Group> {
    if cats == [] then []
    else
      var c := cats[|cats| - 1];
      AddToGroup(Grouped(s, cats[..|cats| - 1], anchored), TierOf(s, c), ReasonsOf(s, c, anchored(c)),
          SignalRank(s, c), c)
  }

  /** Slices of two, in order. */
  function Chunks(cats: seq<Category>): seq<seq<Category>> {
    if |cats| <= 2 then if cats == [] then [] else [cats]
    else [cats[..2]] + Chunks(cats[2..])
  }

  function LeastSignal(s: RoutedSection, cats: seq<Category>): nat {
    if cats == [] then 3
    else
      var rest := LeastSignal(s, cats[..|cats| - 1]);
      var last := SignalRank(s, cats[|cats| - 1]);
      if last < rest then last else rest
  }

  function MakeItem(
    s: RoutedSection, cats: seq<Category>, tier: Tier, reasons: seq<ActivationReason>, digest: Payload -> string): Item
  {
    var ranking := Ranking(
      TierRank(tier), if cats == [] then -1 else Rank(cats[0]),
      if cats == [] then 3 else LeastSignal(s, cats), |s.contexts|, s.start);
    var payload := Payload(s.id, cats, tier, s.contexts, s.contextComplete, reasons, s.routing, ranking);
    Item(digest(payload), s.id, cats, tier, s.contexts, s.contextComplete, reasons, s.routing, ranking)
  }

  function ChunkItems(s: RoutedSection, chunks: seq<seq<Category>>, g: Group, digest: Payload -> string): seq<Item> {
    if chunks == [] then []
    else
      var n := |chunks| - 1;
      ChunkItems(s, chunks[..n], g, digest) + [MakeItem(s, chunks[n], g.tier, g.reasons, digest)]
  }

  function GroupItems(s: RoutedSection, groups: seq<Group>, digest: Payload -> string): seq<Item> {
    if groups == [] then []
    else
      var g := groups[|groups| - 1];
      GroupItems(s, groups[..|groups| - 1], digest) + ChunkItems(s, Chunks(g.categories), g, digest)
  }

  /** The items of one section: one reserve item when it has no candidate, or the chunks of its groups. */
  function SectionItems(sections: seq<RoutedSection>, s: RoutedSection, digest: Payload -> string): seq<Item> {
    var cats := Candidates(s);
    if cats == [] then [MakeItem(s, [], ReserveFallback, [], digest)]
    else GroupItems(s, Grouped(s, cats, c => MandatorySomewhere(sections, c)), digest)
  }

  // ----- breadth and order

  /** How many earlier records of the tier carry the category. */
  function Depth(records: seq<Record>, tier: Tier, c: Category): nat {
    if records == [] then 0
    else
      var last := records[|records| - 1].item;
      Depth(records[..|records| - 1], tier, c) + if last.tier == tier && c in last.categories then 1 else 0
  }

  function Breadth(records: seq<Record>, tier: Tier, cats: seq<Category>): nat {
    if cats == [] then 0
    else
      var rest := Breadth(records, tier, cats[..|cats| - 1]);
      var last := Depth(records, tier, cats[|cats| - 1]);
      if last > rest then last else rest
  }

  function Recorded(records: seq<Record>, items: seq<Item>): seq<Record> {
    if items == [] then records
    else
      var before := Recorded(records, items[..|items| - 1]);
      var item := items[|items| - 1];
      before + [Record(item, Breadth(before, item.tier, item.categories))]
  }

  /** The items of each section, in the order of the sections. */
  function Parts(sections: seq<RoutedSection>, digest: Payload -> string): seq<seq<Item>> {
    seq(|sections|, k requires 0 <= k < |sections| => SectionItems(sections, sections[k], digest))
  }

  function RecordsOf(parts: seq<seq<Item>>): seq<Record> {
    if parts == [] then [] else Recorded(RecordsOf(parts[..|parts| - 1]), parts[|parts| - 1])
  }

  /** Texts compare as their characters do. */
  function Codes(s: string): seq<int> { seq(|s|, k requires 0 <= k < |s| => s[k] as int) }

  /** The sort key, with a mark below every character where one identifier ends and the next begins. */
  function OrderKey(r: Record): seq<int> {
    [r.item.ranking.tierRank, r.breadth,
     if r.item.ranking.categoryRank >= 0 then r.item.ranking.categoryRank else 9,
     r.item.ranking.signalRank, r.item.ranking.dependencies, r.item.ranking.start]
    + Codes(r.item.section) + [-1] + Codes(r.item.id)
  }

  function ItemsOfRecords(records: seq<Record>): seq<Item> {
    if records == [] then [] else ItemsOfRecords(records[..|records| - 1]) + [records[|records| - 1].item]
  }

  /** The items for sections taken in the order given. */
  function PlanItems(sections: seq<RoutedSection>, digest: Payload -> string): seq<Item> {
    ItemsOfRecords(Sorting.Sort(OrderKey, RecordsOf(Parts(sections, digest))))
  }

  function StartKey(s: RoutedSection): seq<int> { [s.start] + Codes(s.id) }

  /** Sections by their start, then by identifier. */
  function ByStart(sections: seq<RoutedSection>): seq<RoutedSection> { Sorting.Sort(StartKey, sections) }

  function BuiltPlan(sections: seq<RoutedSection>, digest: Payload -> string): seq<Item> {
    PlanItems(ByStart(sections), digest)
  }
}
