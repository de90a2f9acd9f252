/** src/qualor/runtime/sections.py: the loops of `index_source`, with the drafts and the severed set they grow. */
module SectionIndexer {
  import opened Wrappers
  import opened AcquisitionModel
  import opened SourceText
  import opened SpanSegments
  import opened SectionRanges
  import opened SectionContexts
  import opened SectionIndexing

  /** The positions the source marks: an unsafe draft and the one after it. */
  ghost predicate Marked(drafts: seq<Draft>, k: nat) {
    k <= |drafts| && ((k < |drafts| && !drafts[k].safe) || (k > 0 && !drafts[k - 1].safe))
  }

  ghost predicate SeveredSet(severed: set<nat>, drafts: seq<Draft>) {
    forall k: nat {:trigger Marked(drafts, k)} :: k in severed <==> Marked(drafts, k)
  }

  lemma SeveredAppend(severed: set<nat>, drafts: seq<Draft>, d: Draft)
    requires SeveredSet(severed, drafts)
    ensures SeveredSet(if d.safe then severed else severed + {|drafts|, |drafts| + 1}, drafts + [d])
  {
    var more := if d.safe then severed else severed + {|drafts|, |drafts| + 1};
    forall k: nat ensures k in more <==> Marked(drafts + [d], k) {
      assert k in severed <==> Marked(drafts, k);
    }
  }

  method AppendGroup(pieces: seq<Piece>, group: nat, before: seq<Draft>, cuts: set<nat>)
    returns (drafts: seq<Draft>, severed: set<nat>)
    requires SeveredSet(cuts, before)
    ensures drafts == before + GroupDrafts(pieces, group, |before|) && SeveredSet(severed, drafts)
  {
    drafts, severed := before, cuts;
    for k := 0 to |pieces|
      invariant drafts == before + GroupDrafts(pieces[..k], group, |before|) && SeveredSet(severed, drafts)
    {
      var p := pieces[k];
      assert pieces[..k + 1][..k] == pieces[..k];
      SeveredAppend(severed, drafts, Draft(p.start, p.end, p.safe, group, |before|));
      drafts := drafts + [Draft(p.start, p.end, p.safe, group, |before|)];
      if !p.safe {
        severed := severed + {|drafts| - 1, |drafts|};
      }
    }
    assert pieces[..|pieces|] == pieces;
  }

  method BuildDrafts(text: Text, isHeading: Text -> bool) returns (drafts: seq<Draft>, severed: set<nat>)
    ensures drafts == Drafts(text, isHeading)
    ensures forall k :: 0 <= k < |drafts| ==> (k in severed <==> Severed(drafts, k))
  {
    RegionsMeaning(text, isHeading);
    RegionsWithin(text, Regions(text, isHeading), 0);
    var regions := LogicalRegions(text, isHeading);
    drafts, severed := [], {};
    for g := 0 to |regions|
      invariant drafts == DraftsUpTo(text, regions, g) && SeveredSet(severed, drafts)
    {
      var ok, pieces := BoundedRanges(text, regions[g].start, regions[g].end);
      drafts, severed := AppendGroup(pieces, g, drafts, severed);
    }
    forall k | 0 <= k < |drafts| ensures k in severed <==> Severed(drafts, k) {
      assert k in severed <==> Marked(drafts, k);
    }
  }

  /** The loop that keeps the first occurrence of every other section's identifier. */
  method CollectContext(self: SectionId, candidates: seq<SectionId>) returns (ordered: seq<SectionId>)
    ensures ordered == Collect(self, candidates)
  {
    ordered := [];
    for k := 0 to |candidates|
      invariant ordered == Collect(self, candidates[..k])
    {
      assert candidates[..k + 1][..k] == candidates[..k];
      if candidates[k] != self && candidates[k] !in ordered {
        ordered := ordered + [candidates[k]];
      }
    }
    assert candidates[..|candidates|] == candidates;
  }

  method BuildSection(text: Text, drafts: seq<Draft>, severed: bool, k: nat, facts: Facts, digest: (nat, nat) -> string)
    returns (section: Section)
    requires k < |drafts| && drafts[k].first <= k && FactsValid(facts, drafts) && severed == Severed(drafts, k)
    requires drafts[k].start <= drafts[k].end <= |text|
    ensures section == SectionOfDraft(text, drafts, k, facts, digest)
  {
    var parent := ParentOf(drafts, k, digest);
    var candidates := (if parent.Some? then [parent.value] else [])
        + GoverningIds(drafts, facts.governing(drafts[k].group), digest);
    var ordered := CollectContext(IdAt(drafts, k, digest), candidates);
    var overflow := |ordered| > MAX_CONTEXT;
    var spans := SegmentSection(text, drafts[k].start, drafts[k].end);
    section := Section(
      IdAt(drafts, k, digest), drafts[k].start, drafts[k].end, parent,
      if overflow then ordered[..MAX_CONTEXT] else ordered,
      !(facts.incomplete(drafts[k].group) || overflow || severed), spans);
  }

  method BuildSections(text: Text, drafts: seq<Draft>, severed: set<nat>, facts: Facts, digest: (nat, nat) -> string)
    returns (sections: seq<Section>)
    requires DraftsReady(text, drafts, facts)
    requires forall k :: 0 <= k < |drafts| ==> (k in severed <==> Severed(drafts, k))
    ensures sections == SectionsUpTo(text, drafts, |drafts|, facts, digest)
  {
    sections := [];
    for k := 0 to |drafts|
      invariant sections == SectionsUpTo(text, drafts, k, facts, digest)
    {
      TileAt(text, drafts, 0, |text|, k);
      var section := BuildSection(text, drafts, k in severed, k, facts, digest);
      sections := sections + [section];
    }
  }

  method IndexSource(text: Text, isHeading: Text -> bool, facts: Facts, digest: (nat, nat) -> string)
    returns (sections: seq<Section>)
    requires FactsValid(facts, Drafts(text, isHeading))
    ensures sections == IndexOf(text, isHeading, facts, digest)
  {
    var drafts, severed := BuildDrafts(text, isHeading);
    DraftsAreReady(text, isHeading, facts);
    sections := BuildSections(text, drafts, severed, facts, digest);
  }
}
