/** Records of the bounded acquisition of one indexed source (src/qualor/runtime/acquisition_plan.py). */
module AcquisitionModel {
  import EligibilityModel
  import opened Wrappers

  type Category = EligibilityModel.Category

  datatype Tier = MandatoryAnchor | ConditionalDiscovery | ReserveFallback

  datatype ActivationReason =
    | NoSupportedAnchor | AmbiguousAnchor | IncompleteGoverningContext | RuleLikeFallback
    | ExplicitReferenceRequired | GlobalContextRequired | RoutingUncertain

  datatype RoutingReason =
    | BodyCategoryTerm | HeadingCategoryTerm | RuleLikeMarker | StructuralReference | GlobalScope

  datatype Ranking = Ranking(
    tierRank: int, categoryRank: int, signalRank: int, dependencies: nat, start: nat)

  type SectionId = string
  type ItemId = string

  /** A plan item; a reserve item has no categories and category rank -1. */
  datatype Item = Item(
    id: ItemId, section: SectionId, categories: seq<Category>, tier: Tier, contexts: seq<SectionId>,
    contextComplete: bool, reasons: seq<ActivationReason>, routing: seq<RoutingReason>, ranking: Ranking)

  datatype Activation = Activation(
    item: ItemId, categories: seq<Category>, reason: ActivationReason, causes: seq<ItemId>, revision: nat)

  type Key = (ItemId, seq<Category>)

  const MAX_EXTRACTION_JOBS := 7
  const MAX_CONTEXT := 12

  ghost predicate UniqueIds(items: seq<Item>) {
    forall i, j :: 0 <= i < j < |items| ==> items[i].id != items[j].id
  }

  /** No two items share a section and a category. */
  ghost predicate UniquePairs(items: seq<Item>) {
    forall i, j, c :: 0 <= i < j < |items| && c in items[i].categories && c in items[j].categories ==>
      items[i].section != items[j].section
  }

  /** Only reserve items lack categories; nothing has more than two, or one twice. */
  predicate Addressed(item: Item) {
    && |item.categories| <= 2 && Unique(item.categories)
    && (item.tier.ReserveFallback? <==> item.categories == [])
  }

  ghost predicate PlanValid(items: seq<Item>) {
    UniqueIds(items) && UniquePairs(items) && forall i {:trigger Addressed(items[i])} :: 0 <= i < |items| ==>
        Addressed(items[i])
  }
}
