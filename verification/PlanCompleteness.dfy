/** The whole plan: sections through records and sorting to items, and the loops that build it. */
module PlanCompleteness {
  import EligibilityModel
  import Sorting
  import opened Wrappers
  import opened AcquisitionModel
  import opened Activations
  import opened PlanBuilding
  import opened PlanTheorems

  ghost predicate SectionsValid(sections: seq<RoutedSection>) {
    && (forall i, j :: 0 <= i < j < |sections| ==> sections[i].id != sections[j].id)
    && (forall i :: 0 <= i < |sections| ==> SectionValid(sections[i]))
  }

  ghost predicate InjectiveOn(digest: Payload -> string) {
    forall a, b :: digest(a) == digest(b) ==> a == b
  }

  // ----- counting over the plan

  ghost predicate ExpectedAmong(sections: seq<RoutedSection>, n: nat, id: SectionId, c: Option<Category>)
    requires n <= |sections|
  {
    exists k :: 0 <= k < n && sections[k].id == id && Expected(sections[k], c)
  }

  lemma OtherSectionNone(
    sections: seq<RoutedSection>, s: RoutedSection, id: SectionId, c: Option<Category>, digest: Payload -> string)
    requires SectionValid(s) && s.id != id
    ensures Sorting.Count(Carrying(id, c), SectionItems(sections, s, digest)) == 0
  {
    SectionItemsMeaning(sections, s, digest);
    var items := SectionItems(sections, s, digest);
    forall k | 0 <= k < |items| ensures !Carrying(id, c)(items[k]) {
      assert Made(items[k], s, digest);
    }
    Sorting.CountedNone(Carrying(id, c), items);
  }

  function ExpectedOf(s: RoutedSection, id: SectionId, c: Option<Category>): nat {
    if s.id == id && Expected(s, c) then 1 else 0
  }

  function ExpectedCount(sections: seq<RoutedSection>, n: nat, id: SectionId, c: Option<Category>): nat
    requires n <= |sections|
  {
    if n == 0 then 0 else ExpectedCount(sections, n - 1, id, c) + ExpectedOf(sections[n - 1], id, c)
  }

  lemma {:induction false} ExpectedOnce(sections: seq<RoutedSection>, n: nat, id: SectionId, c: Option<Category>)
    requires SectionsValid(sections) && n <= |sections|
    ensures ExpectedCount(sections, n, id, c) == if ExpectedAmong(sections, n, id, c) then 1 else 0
  {
    if n > 0 {
      ExpectedOnce(sections, n - 1, id, c);
    }
  }

  lemma OneSectionCount(
    sections: seq<RoutedSection>, s: RoutedSection, id: SectionId, c: Option<Category>, digest: Payload -> string)
    requires SectionValid(s)
    ensures Sorting.Count(Carrying(id, c), SectionItems(sections, s, digest)) == ExpectedOf(s, id, c)
  {
    if s.id == id {
      SectionItemsMeaning(sections, s, digest);
    } else {
      OtherSectionNone(sections, s, id, c, digest);
    }
  }

  function RecordCarrying(id: SectionId, c: Option<Category>): Record -> bool { (r: Record) => Carries(r.item, id, c) }

  lemma {:induction false} RecordedCounts(records: seq<Record>, items: seq<Item>, id: SectionId, c: Option<Category>)
    ensures Sorting.Count(RecordCarrying(id, c), Recorded(records, items))
         == Sorting.Count(RecordCarrying(id, c), records) + Sorting.Count(Carrying(id, c), items)
  {
    if items != [] {
      var n := |items| - 1;
      RecordedCounts(records, items[..n], id, c);
      assert Recorded(records, items)[..|Recorded(records, items)| - 1] == Recorded(records, items[..n]);
    }
  }

  ghost predicate CountedAs(parts: seq<seq<Item>>, sections: seq<RoutedSection>, id: SectionId, c: Option<Category>) {
    |parts| <= |sections|
    && forall k :: 0 <= k < |parts| ==> Sorting.Count(Carrying(id, c), parts[k]) == ExpectedOf(sections[k], id, c)
  }

  lemma {:induction false} RecordsCount(
    parts: seq<seq<Item>>, sections: seq<RoutedSection>, id: SectionId, c: Option<Category>)
    requires CountedAs(parts, sections, id, c)
    ensures Sorting.Count(RecordCarrying(id, c), RecordsOf(parts)) == ExpectedCount(sections, |parts|, id, c)
  {
    if parts != [] {
      var n := |parts| - 1;
      RecordsCount(parts[..n], sections, id, c);
      RecordedCounts(RecordsOf(parts[..n]), parts[n], id, c);
    }
  }

  lemma {:induction false} CountRecords(records: seq<Record>, id: SectionId, c: Option<Category>)
    ensures Sorting.Count(Carrying(id, c), ItemsOfRecords(records)) == Sorting.Count(RecordCarrying(id, c), records)
  {
    if records != [] {
      CountRecords(records[..|records| - 1], id, c);
    }
  }

  function SortedRecords(sections: seq<RoutedSection>, digest: Payload -> string): seq<Record> {
    Sorting.Sort(OrderKey, RecordsOf(Parts(sections, digest)))
  }

  /**
   * Each candidate pair occurs in exactly one item, each candidate-free section has exactly one reserve
   * item, and nothing else occurs.
   */
  lemma PlanCounts(sections: seq<RoutedSection>, id: SectionId, c: Option<Category>, digest: Payload -> string)
    requires SectionsValid(sections)
    ensures Sorting.Count(Carrying(id, c), PlanItems(sections, digest))
        == if ExpectedAmong(sections, |sections|, id, c) then 1 else 0
  {
    var records := RecordsOf(Parts(sections, digest));
    forall k | 0 <= k < |sections|
      ensures Sorting.Count(Carrying(id, c), Parts(sections, digest)[k]) == ExpectedOf(sections[k], id, c)
    {
      OneSectionCount(sections, sections[k], id, c, digest);
    }
    RecordsCount(Parts(sections, digest), sections, id, c);
    ExpectedOnce(sections, |sections|, id, c);
    Sorting.SortMeaning(OrderKey, records);
    Sorting.CountPermutation(RecordCarrying(id, c), records, SortedRecords(sections, digest));
    CountRecords(SortedRecords(sections, digest), id, c);
  }

  // ----- every item of the plan was made for a section

  ghost predicate MadeSomewhere(sections: seq<RoutedSection>, item: Item, digest: Payload -> string) {
    exists k :: 0 <= k < |sections| && Made(item, sections[k], digest)
  }

  lemma {:induction false} RecordedAt(records: seq<Record>, items: seq<Item>)
    ensures |Recorded(records, items)| == |records| + |items|
    ensures forall j :: 0 <= j < |records| ==> Recorded(records, items)[j] == records[j]
    ensures forall j :: |records| <= j < |Recorded(records, items)| ==>
        Recorded(records, items)[j].item == items[j - |records|]
  {
    if items != [] {
      RecordedAt(records, items[..|items| - 1]);
    }
  }

  /** Each record holds an item of one of the parts. */
  lemma {:induction false} RecordOrigin(parts: seq<seq<Item>>, j: nat) returns (k: nat, i: nat)
    requires j < |RecordsOf(parts)|
    ensures k < |parts| && i < |parts[k]| && RecordsOf(parts)[j].item == parts[k][i]
  {
    var n := |parts| - 1;
    var before := RecordsOf(parts[..n]);
    RecordedAt(before, parts[n]);
    if j < |before| {
      k, i := RecordOrigin(parts[..n], j);
    } else {
      k, i := n, j - |before|;
    }
  }

  lemma SectionItemMade(sections: seq<RoutedSection>, k: nat, digest: Payload -> string, i: nat) returns (item: Item)
    requires SectionsValid(sections) && k < |sections| && i < |SectionItems(sections, sections[k], digest)|
    ensures item == SectionItems(sections, sections[k], digest)[i] && Made(item, sections[k], digest)
  {
    SectionItemsMeaning(sections, sections[k], digest);
    item := SectionItems(sections, sections[k], digest)[i];
  }

  lemma {:induction false} ItemsOfRecordsAt(records: seq<Record>)
    ensures |ItemsOfRecords(records)| == |records|
    ensures forall k :: 0 <= k < |records| ==> ItemsOfRecords(records)[k] == records[k].item
  {
    if records != [] {
      ItemsOfRecordsAt(records[..|records| - 1]);
    }
  }

  lemma PlanMade(sections: seq<RoutedSection>, digest: Payload -> string, i: nat)
    requires SectionsValid(sections) && i < |PlanItems(sections, digest)|
    ensures MadeSomewhere(sections, PlanItems(sections, digest)[i], digest)
  {
    var j := RecordBehind(RecordsOf(Parts(sections, digest)), i);
    var k, at := RecordOrigin(Parts(sections, digest), j);
    var item := SectionItemMade(sections, k, digest, at);
  }

  lemma RecordBehind(records: seq<Record>, i: nat) returns (j: nat)
    requires i < |ItemsOfRecords(Sorting.Sort(OrderKey, records))|
    ensures j < |records| && records[j].item == ItemsOfRecords(Sorting.Sort(OrderKey, records))[i]
  {
    var sorted := Sorting.Sort(OrderKey, records);
    Sorting.SortMeaning(OrderKey, records);
    ItemsOfRecordsAt(sorted);
    j := StillThere(sorted, records, i);
  }

  // ----- the plan contract

  /** Two positions never carry the same category of the same section, nor the same reserve. */
  lemma NoRepetition(
    sections: seq<RoutedSection>, digest: Payload -> string, i: nat, j: nat, id: SectionId, c: Option<Category>)
    requires SectionsValid(sections) && i < j < |PlanItems(sections, digest)|
    requires Carries(PlanItems(sections, digest)[i], id, c)
    ensures !Carries(PlanItems(sections, digest)[j], id, c)
  {
    PlanCounts(sections, id, c, digest);
    if Carries(PlanItems(sections, digest)[j], id, c) {
      Sorting.CountedOnce(Carrying(id, c), PlanItems(sections, digest), i, j);
    }
  }

  lemma DifferentIds(sections: seq<RoutedSection>, digest: Payload -> string, i: nat, j: nat)
    requires SectionsValid(sections) && InjectiveOn(digest) && i < j < |PlanItems(sections, digest)|
    ensures PlanItems(sections, digest)[i].id != PlanItems(sections, digest)[j].id
  {
    var a, b := PlanItems(sections, digest)[i], PlanItems(sections, digest)[j];
    PlanMade(sections, digest, i);
    PlanMade(sections, digest, j);
    if a.id == b.id {
      assert PayloadOf(a) == PayloadOf(b);
      var c := if a.categories == [] then None else Some(a.categories[0]);
      assert Carries(a, a.section, c) && Carries(b, a.section, c);
      NoRepetition(sections, digest, i, j, a.section, c);
    }
  }

  lemma TiersOrdered(sections: seq<RoutedSection>, digest: Payload -> string, i: nat, j: nat)
    requires SectionsValid(sections) && i < j < |PlanItems(sections, digest)|
    ensures TierRank(PlanItems(sections, digest)[i].tier) <= TierRank(PlanItems(sections, digest)[j].tier)
  {
    var sorted := SortedRecords(sections, digest);
    Sorting.SortMeaning(OrderKey, RecordsOf(Parts(sections, digest)));
    ItemsOfRecordsAt(sorted);
    PlanMade(sections, digest, i);
    PlanMade(sections, digest, j);
    var low, high := OrderKey(sorted[i]), OrderKey(sorted[j]);
    assert !Sorting.LexLess(high, low);
    assert low[0] == TierRank(sorted[i].item.tier) && high[0] == TierRank(sorted[j].item.tier);
  }

  /** The candidate categories of a section always give it an item, and so does having none. */
  lemma SectionRepresented(sections: seq<RoutedSection>, digest: Payload -> string, k: nat) returns (i: nat)
    requires SectionsValid(sections) && k < |sections|
    ensures i < |PlanItems(sections, digest)| && PlanItems(sections, digest)[i].section == sections[k].id
  {
    var s := sections[k];
    CandidatesMeaning(s);
    var c := if Candidates(s) == [] then None else Some(Candidates(s)[0]);
    if c.Some? { assert Candidates(s)[0] in Candidates(s); }
    assert Expected(s, c);
    PlanCounts(sections, s.id, c, digest);
    i := Sorting.CountedWitness(Carrying(s.id, c), PlanItems(sections, digest));
  }

  lemma ItemAddressed(item: Item)
    requires ItemValid(item)
    ensures Addressed(item)
  {
    forall i, j | 0 <= i < j < |item.categories| ensures item.categories[i] != item.categories[j] {
      assert Rank(item.categories[i]) < Rank(item.categories[j]);
    }
  }

  /**
   * The builder's plan for any indexed sections: valid items in the order mandatory, conditional, reserve;
   * distinct identifiers; no pair repeated; and every section represented, so no validator ever refuses it.
   */
  lemma PlanMeaning(sections: seq<RoutedSection>, digest: Payload -> string)
    requires SectionsValid(sections) && InjectiveOn(digest)
    ensures var items := PlanItems(sections, digest);
            && PlanValid(items)
            && (forall i :: 0 <= i < |items| ==> ItemValid(items[i]) && MadeSomewhere(sections, items[i], digest))
            && (forall i, j :: 0 <= i < j < |items| ==> TierRank(items[i].tier) <= TierRank(items[j].tier))
            && (items == [] <==> sections == [])
  {
    var items := PlanItems(sections, digest);
    forall i | 0 <= i < |items|
      ensures ItemValid(items[i]) && Addressed(items[i]) && MadeSomewhere(sections, items[i], digest)
    {
      PlanMade(sections, digest, i);
      ItemAddressed(items[i]);
    }
    forall i, j | 0 <= i < j < |items|
      ensures items[i].id != items[j].id && TierRank(items[i].tier) <= TierRank(items[j].tier)
    {
      DifferentIds(sections, digest, i, j);
      TiersOrdered(sections, digest, i, j);
    }
    forall i, j, c | 0 <= i < j < |items| && c in items[i].categories && c in items[j].categories
      ensures items[i].section != items[j].section
    {
      if items[i].section == items[j].section {
        assert Carries(items[i], items[i].section, Some(c)) && Carries(items[j], items[i].section, Some(c));
        NoRepetition(sections, digest, i, j, items[i].section, Some(c));
      }
    }
    if sections != [] {
      var i := SectionRepresented(sections, digest, 0);
    } else {
      assert Parts(sections, digest) == [];
      assert SortedRecords(sections, digest) == [];
    }
  }

  // ----- the loops of build_acquisition_plan

  datatype PlanError = IndexIncomplete | InventoryIncomplete

  predicate ContextsKnown(sections: seq<RoutedSection>) {
    forall i, c :: 0 <= i < |sections| && c in sections[i].contexts ==>
        exists j :: 0 <= j < |sections| && sections[j].id == c
  }

  /** The depth table: how often each tier has used each category so far. */
  ghost predicate DepthTable(depths: map<(Tier, Category), nat>, records: seq<Record>) {
    forall t, c :: DepthAt(depths, t, c) == Depth(records, t, c)
  }

  function DepthAt(depths: map<(Tier, Category), nat>, t: Tier, c: Category): nat {
    if (t, c) in depths then depths[(t, c)] else 0
  }

  lemma DepthOneMore(records: seq<Record>, r: Record, t: Tier, c: Category)
    ensures Depth(records + [r], t, c)
         == Depth(records, t, c) + if r.item.tier == t && c in r.item.categories then 1 else 0
  {
    assert (records + [r])[..|records|] == records;
  }

  /** One item recorded: its breadth read from the table, then the table advanced for its categories. */
  method RecordItem(item: Item, before: seq<Record>, depths: map<(Tier, Category), nat>)
    returns (records: seq<Record>, advanced: map<(Tier, Category), nat>)
    requires DepthTable(depths, before) && Unique(item.categories)
    ensures records == before + [Record(item, Breadth(before, item.tier, item.categories))]
    ensures DepthTable(advanced, records)
  {
    var breadth := BreadthFromTable(item, before, depths);
    advanced := AdvanceTable(item, depths);
    records := before + [Record(item, breadth)];
    forall t, c ensures DepthAt(advanced, t, c) == Depth(records, t, c) {
      DepthOneMore(before, Record(item, breadth), t, c);
    }
  }

  /** The greatest depth among the item's categories. */
  method BreadthFromTable(
    item: Item, ghost before: seq<Record>, depths: map<(Tier, Category), nat>) returns (breadth: nat)
    requires DepthTable(depths, before)
    ensures breadth == Breadth(before, item.tier, item.categories)
  {
    breadth := 0;
    for k := 0 to |item.categories|
      invariant breadth == Breadth(before, item.tier, item.categories[..k])
    {
      assert item.categories[..k + 1][..k] == item.categories[..k];
      var depth := DepthAt(depths, item.tier, item.categories[k]);
      assert depth == Depth(before, item.tier, item.categories[k]);
      if depth > breadth {
        breadth := depth;
      }
    }
    assert item.categories[..|item.categories|] == item.categories;
  }

  /** One more use of each of the item's categories in its tier. */
  method AdvanceTable(item: Item, depths: map<(Tier, Category), nat>) returns (advanced: map<(Tier, Category), nat>)
    requires Unique(item.categories)
    ensures forall t, c ::
              (DepthAt(advanced, t, c)
               == DepthAt(depths, t, c) + if t == item.tier && c in item.categories then 1 else 0)
  {
    advanced := depths;
    for k := 0 to |item.categories|
      invariant forall t, c ::
                  (DepthAt(advanced, t, c)
                   == DepthAt(depths, t, c) + if t == item.tier && c in item.categories[..k] then 1 else 0)
    {
      var key := (item.tier, item.categories[k]);
      assert item.categories[..k + 1] == item.categories[..k] + [item.categories[k]];
      advanced := advanced[key := DepthAt(advanced, item.tier, item.categories[k]) + 1];
    }
    assert item.categories[..|item.categories|] == item.categories;
  }

  method RecordSection(
    made: seq<Item>, ghost s: RoutedSection, ghost digest: Payload -> string, before: seq<Record>,
    table: map<(Tier, Category), nat>)
    returns (records: seq<Record>, depths: map<(Tier, Category), nat>)
    requires AllMade(made, s, digest) && DepthTable(table, before)
    ensures records == Recorded(before, made) && DepthTable(depths, records)
  {
    records, depths := before, table;
    for k := 0 to |made|
      invariant records == Recorded(before, made[..k]) && DepthTable(depths, records)
    {
      assert made[..k + 1][..k] == made[..k];
      assert Made(made[k], s, digest);
      ItemAddressed(made[k]);
      records, depths := RecordItem(made[k], records, depths);
    }
    assert made[..|made|] == made;
  }

  method RecordSections(sections: seq<RoutedSection>, digest: Payload -> string) returns (records: seq<Record>)
    requires SectionsValid(sections)
    ensures records == RecordsOf(Parts(sections, digest))
  {
    records := [];
    var depths: map<(Tier, Category), nat> := map[];
    for n := 0 to |sections|
      invariant records == RecordsOf(Parts(sections, digest)[..n]) && DepthTable(depths, records)
    {
      assert SectionValid(sections[n]);
      SectionItemsMeaning(sections, sections[n], digest);
      var made := SectionItems(sections, sections[n], digest);
      records, depths := RecordSection(made, sections[n], digest, records, depths);
      RecordsStep(Parts(sections, digest), n);
    }
    assert Parts(sections, digest)[..|sections|] == Parts(sections, digest);
  }

  lemma RecordsStep(parts: seq<seq<Item>>, n: nat)
    requires n < |parts|
    ensures RecordsOf(parts[..n + 1]) == Recorded(RecordsOf(parts[..n]), parts[n])
  {
    assert parts[..n + 1][..n] == parts[..n];
  }

  /** Builds the plan, or refuses an index that is empty or refers outside itself. */
  method BuildAcquisitionPlan(sections: seq<RoutedSection>, digest: Payload -> string)
    returns (r: Result<seq<Item>, PlanError>)
    requires SectionsValid(sections)
    ensures r == if sections == [] || !ContextsKnown(sections) then Err(IndexIncomplete)
                 else Ok(BuiltPlan(sections, digest))
  {
    if sections == [] || !ContextsKnown(sections) {
      return Err(IndexIncomplete);
    }
    ByStartKeeps(sections);
    var records := RecordSections(ByStart(sections), digest);
    var items := ItemsOfRecords(Sorting.Sort(OrderKey, records));
    if !(forall n :: 0 <= n < |sections| ==> Listed(items, sections[n].id)) {
      EverySectionListed(sections, digest);
      return Err(InventoryIncomplete);
    }
    return Ok(items);
  }

  predicate Listed(items: seq<Item>, id: SectionId) {
    exists i :: 0 <= i < |items| && items[i].section == id
  }

  lemma EverySectionListed(sections: seq<RoutedSection>, digest: Payload -> string)
    requires SectionsValid(sections)
    ensures forall n :: 0 <= n < |sections| ==> Listed(BuiltPlan(sections, digest), sections[n].id)
  {
    ByStartKeeps(sections);
    forall n | 0 <= n < |sections| ensures Listed(BuiltPlan(sections, digest), sections[n].id) {
      var k := StillThere(sections, ByStart(sections), n);
      var i := SectionRepresented(ByStart(sections), digest, k);
    }
  }

  // ----- the order of the sections

  lemma StillThere<T>(before: seq<T>, after: seq<T>, n: nat) returns (k: nat)
    requires multiset(before) == multiset(after) && n < |before|
    ensures k < |after| && after[k] == before[n]
  {
    assert before[n] in multiset(after);
    k :| 0 <= k < |after| && after[k] == before[n];
  }

  /** Sorting keeps the sections valid and among themselves. */
  lemma ByStartKeeps(sections: seq<RoutedSection>)
    requires SectionsValid(sections)
    ensures multiset(ByStart(sections)) == multiset(sections) && SectionsValid(ByStart(sections))
  {
    Sorting.SortMeaning(StartKey, sections);
    var sorted := ByStart(sections);
    forall i | 0 <= i < |sorted| ensures SectionValid(sorted[i]) {
      var k := StillThere(sorted, sections, i);
    }
    forall i, j | 0 <= i < j < |sorted| ensures sorted[i].id != sorted[j].id {
      if sorted[i].id == sorted[j].id {
        SameIdTwice(sections, sorted, i, j);
      }
    }
  }

  function Named(id: SectionId): RoutedSection -> bool { (s: RoutedSection) => s.id == id }

  lemma SameIdTwice(sections: seq<RoutedSection>, sorted: seq<RoutedSection>, i: nat, j: nat)
    requires multiset(sections) == multiset(sorted) && i < j < |sorted| && sorted[i].id == sorted[j].id
    ensures exists a, b :: 0 <= a < b < |sections| && sections[a].id == sections[b].id
  {
    var p := Named(sorted[i].id);
    Sorting.CountedOnce(p, sorted, i, j);
    Sorting.CountPermutation(p, sections, sorted);
    var a, b := Sorting.CountedTwice(p, sections);
  }

  /** What is expected of the plan does not depend on the order of the sections. */
  lemma ExpectedAnyOrder(sections: seq<RoutedSection>, sorted: seq<RoutedSection>, id: SectionId, c: Option<Category>)
    requires multiset(sections) == multiset(sorted) && ExpectedAmong(sections, |sections|, id, c)
    ensures ExpectedAmong(sorted, |sorted|, id, c)
  {
    var n :| 0 <= n < |sections| && sections[n].id == id && Expected(sections[n], c);
    var k := StillThere(sections, sorted, n);
  }

  /**
   * The plan built from sections in any order meets its contract, and carries each expected pair or reserve
   * exactly once and nothing else.
   */
  lemma BuiltMeaning(sections: seq<RoutedSection>, id: SectionId, c: Option<Category>, digest: Payload -> string)
    requires SectionsValid(sections) && InjectiveOn(digest)
    ensures PlanValid(BuiltPlan(sections, digest)) && (BuiltPlan(sections, digest) == [] <==> sections == [])
    ensures Sorting.Count(Carrying(id, c), BuiltPlan(sections, digest))
         == if ExpectedAmong(sections, |sections|, id, c) then 1 else 0
  {
    ByStartKeeps(sections);
    var sorted := ByStart(sections);
    assert |multiset(sorted)| == |sorted| && |multiset(sections)| == |sections|;
    PlanMeaning(sorted, digest);
    PlanCounts(sorted, id, c, digest);
    if ExpectedAmong(sections, |sections|, id, c) { ExpectedAnyOrder(sections, sorted, id, c); }
    if ExpectedAmong(sorted, |sorted|, id, c) { ExpectedAnyOrder(sorted, sections, id, c); }
  }
}
