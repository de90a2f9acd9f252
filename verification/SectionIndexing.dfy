/**
 * src/qualor/runtime/sections.py: the sections of a whole source. What headings, references and global
 * markers say is a parameter; where the cuts fall and what they sever is computed here.
 */
module SectionIndexing {
  import opened Wrappers
  import opened AcquisitionModel
  import opened SourceText
  import opened SpanSegments
  import opened SectionRanges
  import opened SectionContexts

  /** A section before its context is known: its logical group and the first draft of that group. */
  datatype Draft = Draft(start: nat, end: nat, safe: bool, group: nat, first: nat)

  /** What the vocabulary says about a group: the drafts that govern it, in order, and whether that is incomplete. */
  datatype Facts = Facts(governing: nat -> seq<nat>, incomplete: nat -> bool)

  // ----- drafts

  function GroupDrafts(pieces: seq<Piece>, group: nat, first: nat): seq<Draft> {
    if pieces == [] then []
    else
      var p := pieces[|pieces| - 1];
      GroupDrafts(pieces[..|pieces| - 1], group, first) + [Draft(p.start, p.end, p.safe, group, first)]
  }

  function DraftsUpTo(text: Text, regions: seq<Region>, n: nat): seq<Draft>
    requires n <= |regions| && forall k :: 0 <= k < |regions| ==> regions[k].start <= regions[k].end <= |text|
  {
    if n == 0 then []
    else
      var before := DraftsUpTo(text, regions, n - 1);
      before + GroupDrafts(Pieces(text, regions[n - 1].start, regions[n - 1].end), n - 1, |before|)
  }

  lemma {:induction false} RegionsWithin(text: Text, regions: seq<Region>, from: nat)
    requires RegionsTile(text, regions, from)
    ensures forall k :: 0 <= k < |regions| ==> regions[k].start <= regions[k].end <= |text|
    decreases |regions|
  {
    if regions != [] {
      RegionsWithin(text, regions[1..], regions[0].end);
      forall k | 0 <= k < |regions| ensures regions[k].start <= regions[k].end <= |text| {
        if k > 0 { assert regions[k] == regions[1..][k - 1]; }
      }
    }
  }

  function Drafts(text: Text, isHeading: Text -> bool): seq<Draft> {
    RegionsMeaning(text, isHeading);
    RegionsWithin(text, Regions(text, isHeading), 0);
    DraftsUpTo(text, Regions(text, isHeading), |Regions(text, isHeading)|)
  }

  // ----- the drafts tile the source

  /** An edge no clause is cut at: a line start, the end of a sentence or clause, or the edge of the source. */
  predicate CleanEdge(text: Text, p: nat) {
    || p == 0 || p == |text| || LineStart(text, p)
    || EndsWith(text, 0, p, SENTENCE) || EndsWith(text, 0, p, CLAUSE)
  }

  lemma SafeIsClean(text: Text, start: nat, end: nat)
    requires start < end <= |text| && EndsClause(text, start, end)
    ensures CleanEdge(text, end)
  {
    if EndsWith(text, start, end, PARAGRAPH) {
      assert text[end - 2..end][1] == text[end - 1];
    } else if EndsWith(text, start, end, LINE) {
      assert text[end - 1..end][0] == text[end - 1];
    }
  }

  ghost predicate DraftsTile(text: Text, drafts: seq<Draft>, from: nat, end: nat)
    requires from <= end <= |text|
    decreases |drafts|
  {
    if drafts == [] then from == end
    else
      var d := drafts[0];
      && d.start == from && from < d.end <= end && Fits(text, d.start, d.end)
      && (d.safe ==> CleanEdge(text, d.end))
      && DraftsTile(text, drafts[1..], d.end, end)
  }

  lemma {:induction false} DraftsTileAppend(text: Text, a: seq<Draft>, b: seq<Draft>, from: nat, mid: nat, end: nat)
    requires from <= mid <= end <= |text| && DraftsTile(text, a, from, mid) && DraftsTile(text, b, mid, end)
    ensures DraftsTile(text, a + b, from, end)
    decreases |a|
  {
    if a == [] {
      assert a + b == b;
    } else {
      assert (a + b)[1..] == a[1..] + b;
      DraftsTileAppend(text, a[1..], b, a[0].end, mid, end);
    }
  }

  lemma {:induction false} GroupDraftsCons(p: Piece, rest: seq<Piece>, group: nat, first: nat)
    ensures GroupDrafts([p] + rest, group, first)
        == [Draft(p.start, p.end, p.safe, group, first)] + GroupDrafts(rest, group, first)
  {
    if rest == [] {
      assert [p] + rest == [p];
      assert GroupDrafts([p], group, first)
          == GroupDrafts([], group, first) + [Draft(p.start, p.end, p.safe, group, first)];
    } else {
      assert ([p] + rest)[..|rest|] == [p] + rest[..|rest| - 1];
      GroupDraftsCons(p, rest[..|rest| - 1], group, first);
    }
  }

  lemma {:induction false} GroupTiles(text: Text, pieces: seq<Piece>, from: nat, end: nat, group: nat, first: nat)
    requires from <= end <= |text| && PiecesTile(text, pieces, from, end) && CleanEdge(text, end)
    ensures DraftsTile(text, GroupDrafts(pieces, group, first), from, end)
    decreases |pieces|
  {
    if pieces != [] {
      var p := pieces[0];
      GroupTiles(text, pieces[1..], p.end, end, group, first);
      assert pieces == [p] + pieces[1..];
      GroupDraftsCons(p, pieces[1..], group, first);
      var d := Draft(p.start, p.end, p.safe, group, first);
      assert ([d] + GroupDrafts(pieces[1..], group, first))[1..] == GroupDrafts(pieces[1..], group, first);
      if p.safe && p.end != end {
        SafeIsClean(text, p.start, p.end);
      }
    }
  }

  /** The end of region `n - 1`, where the drafts of the first `n` regions end. */
  function RegionEnd(regions: seq<Region>, n: nat): nat
    requires n <= |regions|
  {
    if n == 0 then 0 else regions[n - 1].end
  }

  lemma {:induction false} RegionEdges(text: Text, regions: seq<Region>, from: nat, k: nat)
    requires RegionsTile(text, regions, from) && k < |regions|
    ensures k == 0 ==> regions[k].start == from
    ensures k > 0 ==> regions[k].start == regions[k - 1].end
    ensures regions[k].start <= regions[k].end <= |text| && LineStart(text, regions[k].start)
    ensures k + 1 == |regions| ==> regions[k].end == |text|
    decreases |regions|
  {
    if k > 0 {
      RegionEdges(text, regions[1..], regions[0].end, k - 1);
    } else if |regions| == 1 {
      assert regions[1..] == [];
    }
  }

  lemma RegionEndClean(text: Text, regions: seq<Region>, k: nat)
    requires RegionsTile(text, regions, 0) && k < |regions|
    ensures CleanEdge(text, regions[k].end)
  {
    RegionEdges(text, regions, 0, k);
    if k + 1 < |regions| {
      RegionEdges(text, regions, 0, k + 1);
    }
  }

  lemma {:induction false} DraftsUpToTile(text: Text, regions: seq<Region>, n: nat)
    requires RegionsTile(text, regions, 0) && n <= |regions|
    requires forall k :: 0 <= k < |regions| ==> regions[k].start <= regions[k].end <= |text|
    ensures RegionEnd(regions, n) <= |text| && DraftsTile(text, DraftsUpTo(text, regions, n), 0, RegionEnd(regions, n))
  {
    if n > 0 {
      DraftsUpToTile(text, regions, n - 1);
      RegionEdges(text, regions, 0, n - 1);
      RegionEndClean(text, regions, n - 1);
      var before, r := DraftsUpTo(text, regions, n - 1), regions[n - 1];
      PiecesMeaning(text, r.start, r.end);
      GroupTiles(text, Pieces(text, r.start, r.end), r.start, r.end, n - 1, |before|);
      DraftsTileAppend(text, before, GroupDrafts(Pieces(text, r.start, r.end), n - 1, |before|), 0, r.start, r.end);
    }
  }

  /** The drafts of any source follow each other from its first character to its last, each within both bounds. */
  lemma DraftsMeaning(text: Text, isHeading: Text -> bool)
    ensures DraftsTile(text, Drafts(text, isHeading), 0, |text|)
  {
    RegionsMeaning(text, isHeading);
    var regions := Regions(text, isHeading);
    RegionsWithin(text, regions, 0);
    DraftsUpToTile(text, regions, |regions|);
    if regions != [] {
      RegionEdges(text, regions, 0, |regions| - 1);
    }
  }

  /** Reading the tiling at one position. */
  lemma {:induction false} TileAt(text: Text, drafts: seq<Draft>, from: nat, end: nat, k: nat)
    requires from <= end <= |text| && DraftsTile(text, drafts, from, end) && k < |drafts|
    ensures from <= drafts[k].start < drafts[k].end <= end && Fits(text, drafts[k].start, drafts[k].end)
    ensures k == 0 ==> drafts[k].start == from
    ensures k > 0 ==> drafts[k].start == drafts[k - 1].end
    ensures k + 1 == |drafts| ==> drafts[k].end == end
    ensures drafts[k].safe ==> CleanEdge(text, drafts[k].end)
    decreases |drafts|
  {
    if k > 0 {
      TileAt(text, drafts[1..], drafts[0].end, end, k - 1);
    } else if |drafts| == 1 {
      assert drafts[1..] == [];
    }
  }

  lemma {:induction false} TileOrdered(text: Text, drafts: seq<Draft>, i: nat, j: nat)
    requires DraftsTile(text, drafts, 0, |text|) && i < j < |drafts|
    ensures drafts[i].end <= drafts[j].start
    decreases j - i
  {
    TileAt(text, drafts, 0, |text|, j);
    if i + 1 < j {
      TileAt(text, drafts, 0, |text|, j - 1);
      TileOrdered(text, drafts, i, j - 1);
    }
  }

  // ----- groups

  ghost predicate FirstsBefore(drafts: seq<Draft>) {
    forall k :: 0 <= k < |drafts| ==> drafts[k].first <= k
  }

  lemma {:induction false} GroupDraftsFields(pieces: seq<Piece>, group: nat, first: nat)
    ensures |GroupDrafts(pieces, group, first)| == |pieces|
    ensures forall k :: 0 <= k < |pieces| ==> GroupDrafts(pieces, group, first)[k].first == first
  {
    if pieces != [] {
      GroupDraftsFields(pieces[..|pieces| - 1], group, first);
    }
  }

  lemma {:induction false} DraftsFirsts(text: Text, regions: seq<Region>, n: nat)
    requires n <= |regions| && forall k :: 0 <= k < |regions| ==> regions[k].start <= regions[k].end <= |text|
    ensures FirstsBefore(DraftsUpTo(text, regions, n))
  {
    if n > 0 {
      DraftsFirsts(text, regions, n - 1);
      GroupDraftsFields(Pieces(text, regions[n - 1].start, regions[n - 1].end), n - 1,
          |DraftsUpTo(text, regions, n - 1)|);
    }
  }

  // ----- sections

  /** Either side of a forced cut may hold half of a governing clause. */
  predicate Severed(drafts: seq<Draft>, k: nat)
    requires k < |drafts|
  {
    !drafts[k].safe || (k > 0 && !drafts[k - 1].safe)
  }

  function IdAt(drafts: seq<Draft>, k: nat, digest: (nat, nat) -> string): SectionId
    requires k < |drafts|
  {
    digest(drafts[k].start, drafts[k].end)
  }

  function GoverningIds(drafts: seq<Draft>, governing: seq<nat>, digest: (nat, nat) -> string): seq<SectionId>
    requires forall i :: 0 <= i < |governing| ==> governing[i] < |drafts|
  {
    if governing == [] then []
    else GoverningIds(drafts, governing[..|governing| - 1], digest) + [IdAt(drafts, governing[|governing| - 1], digest)]
  }

  /** The candidates in order, without the section itself and without repetitions. */
  function Collect(self: SectionId, candidates: seq<SectionId>): seq<SectionId> {
    if candidates == [] then []
    else
      var front := Collect(self, candidates[..|candidates| - 1]);
      var last := candidates[|candidates| - 1];
      if last == self || last in front then front else front + [last]
  }

  ghost predicate FactsValid(facts: Facts, drafts: seq<Draft>) {
    forall g, i :: 0 <= i < |facts.governing(g)| ==> facts.governing(g)[i] < |drafts|
  }

  function ParentOf(drafts: seq<Draft>, k: nat, digest: (nat, nat) -> string): Option<SectionId>
    requires k < |drafts| && drafts[k].first <= k
  {
    if drafts[k].first == k then None else Some(IdAt(drafts, drafts[k].first, digest))
  }

  function OrderedContext(drafts: seq<Draft>, k: nat, facts: Facts, digest: (nat, nat) -> string): seq<SectionId>
    requires k < |drafts| && drafts[k].first <= k && FactsValid(facts, drafts)
  {
    var parent := ParentOf(drafts, k, digest);
    Collect(IdAt(drafts, k, digest),
            (if parent.Some? then [parent.value] else [])
                + GoverningIds(drafts, facts.governing(drafts[k].group), digest))
  }

  function SectionOfDraft(text: Text, drafts: seq<Draft>, k: nat, facts: Facts, digest: (nat, nat) -> string): Section
    requires k < |drafts| && drafts[k].first <= k && FactsValid(facts, drafts)
    requires drafts[k].start <= drafts[k].end <= |text|
  {
    var ordered := OrderedContext(drafts, k, facts, digest);
    Section(
      IdAt(drafts, k, digest), drafts[k].start, drafts[k].end, ParentOf(drafts, k, digest),
      if |ordered| > MAX_CONTEXT then ordered[..MAX_CONTEXT] else ordered,
      !(facts.incomplete(drafts[k].group) || |ordered| > MAX_CONTEXT || Severed(drafts, k)),
      SectionSegments(text, drafts[k].start, drafts[k].end))
  }

  /** Drafts a section can be made from. */
  ghost predicate DraftsReady(text: Text, drafts: seq<Draft>, facts: Facts) {
    DraftsTile(text, drafts, 0, |text|) && FirstsBefore(drafts) && FactsValid(facts, drafts)
  }

  function SectionsUpTo(
    text: Text, drafts: seq<Draft>, n: nat, facts: Facts, digest: (nat, nat) -> string): (s: seq<Section>)
    requires n <= |drafts| && DraftsReady(text, drafts, facts)
    ensures |s| == n
  {
    if n == 0 then []
    else
      TileAt(text, drafts, 0, |text|, n - 1);
      SectionsUpTo(text, drafts, n - 1, facts, digest) + [SectionOfDraft(text, drafts, n - 1, facts, digest)]
  }

  function IndexOf(text: Text, isHeading: Text -> bool, facts: Facts, digest: (nat, nat) -> string): seq<Section>
    requires FactsValid(facts, Drafts(text, isHeading))
  {
    DraftsAreReady(text, isHeading, facts);
    SectionsUpTo(text, Drafts(text, isHeading), |Drafts(text, isHeading)|, facts, digest)
  }

  lemma DraftsAreReady(text: Text, isHeading: Text -> bool, facts: Facts)
    requires FactsValid(facts, Drafts(text, isHeading))
    ensures DraftsReady(text, Drafts(text, isHeading), facts)
  {
    DraftsMeaning(text, isHeading);
    RegionsMeaning(text, isHeading);
    RegionsWithin(text, Regions(text, isHeading), 0);
    DraftsFirsts(text, Regions(text, isHeading), |Regions(text, isHeading)|);
  }

  lemma {:induction false} SectionsAt(
    text: Text, drafts: seq<Draft>, n: nat, facts: Facts, digest: (nat, nat) -> string, k: nat)
    requires k < n <= |drafts| && DraftsReady(text, drafts, facts)
    ensures drafts[k].start <= drafts[k].end <= |text| && drafts[k].first <= k
    ensures SectionsUpTo(text, drafts, n, facts, digest)[k] == SectionOfDraft(text, drafts, k, facts, digest)
  {
    TileAt(text, drafts, 0, |text|, k);
    if k < n - 1 {
      SectionsAt(text, drafts, n - 1, facts, digest, k);
    }
  }
}
