/** What every section index guarantees about its text. */
module IndexTheorems {
  import opened Wrappers
  import opened AcquisitionModel
  import opened SourceText
  import opened SpanSegments
  import opened SectionRanges
  import opened SectionContexts
  import opened SectionIndexing

  /** Digests of different non-empty ranges are different. */
  ghost predicate Injective(digest: (nat, nat) -> string) {
    forall a, b, c, d :: digest(a, b) == digest(c, d) ==> a == c && b == d
  }

  // ----- governing context

  lemma {:induction false} CollectMeaning(self: SectionId, candidates: seq<SectionId>)
    ensures forall id :: id in Collect(self, candidates) <==> id in candidates && id != self
    ensures Unique(Collect(self, candidates))
  {
    if candidates != [] {
      var n := |candidates| - 1;
      CollectMeaning(self, candidates[..n]);
      assert candidates == candidates[..n] + [candidates[n]];
    }
  }

  lemma {:induction false} CollectFirst(self: SectionId, candidates: seq<SectionId>)
    requires candidates != [] && candidates[0] != self
    ensures Collect(self, candidates) != [] && Collect(self, candidates)[0] == candidates[0]
  {
    if |candidates| > 1 {
      CollectFirst(self, candidates[..|candidates| - 1]);
    } else {
      assert candidates[..0] == [];
    }
  }

  lemma {:induction false} GoverningPresent(drafts: seq<Draft>, governing: seq<nat>, digest: (nat, nat) -> string)
    requires forall i :: 0 <= i < |governing| ==> governing[i] < |drafts|
    ensures forall id :: id in GoverningIds(drafts, governing, digest) ==> DraftId(drafts, id, digest)
  {
    if governing != [] {
      GoverningPresent(drafts, governing[..|governing| - 1], digest);
      assert DraftId(drafts, IdAt(drafts, governing[|governing| - 1], digest), digest);
    }
  }

  ghost predicate DraftId(drafts: seq<Draft>, id: SectionId, digest: (nat, nat) -> string) {
    exists k :: 0 <= k < |drafts| && IdAt(drafts, k, digest) == id
  }

  lemma DistinctIds(text: Text, drafts: seq<Draft>, i: nat, j: nat, digest: (nat, nat) -> string)
    requires DraftsTile(text, drafts, 0, |text|) && i < j < |drafts| && Injective(digest)
    ensures IdAt(drafts, i, digest) != IdAt(drafts, j, digest)
    ensures drafts[i].start < drafts[j].start
  {
    TileOrdered(text, drafts, i, j);
    TileAt(text, drafts, 0, |text|, i);
  }

  ghost predicate AllDraftIds(drafts: seq<Draft>, ids: seq<SectionId>, digest: (nat, nat) -> string) {
    forall c :: 0 <= c < |ids| ==> DraftId(drafts, ids[c], digest)
  }

  lemma OrderedMeaning(text: Text, drafts: seq<Draft>, k: nat, facts: Facts, digest: (nat, nat) -> string)
    requires DraftsReady(text, drafts, facts) && k < |drafts| && Injective(digest)
    ensures drafts[k].first <= k
    ensures var ordered, parent := OrderedContext(drafts, k, facts, digest), ParentOf(drafts, k, digest);
            && Unique(ordered) && IdAt(drafts, k, digest) !in ordered && AllDraftIds(drafts, ordered, digest)
            && (parent.Some? ==> ordered != [] && ordered[0] == parent.value && DraftId(drafts, parent.value, digest))
  {
    var self, parent := IdAt(drafts, k, digest), ParentOf(drafts, k, digest);
    var governing := GoverningIds(drafts, facts.governing(drafts[k].group), digest);
    var candidates := (if parent.Some? then [parent.value] else []) + governing;
    CollectMeaning(self, candidates);
    GoverningPresent(drafts, facts.governing(drafts[k].group), digest);
    if parent.Some? {
      DistinctIds(text, drafts, drafts[k].first, k, digest);
      CollectFirst(self, candidates);
      assert DraftId(drafts, parent.value, digest);
    }
    var ordered := OrderedContext(drafts, k, facts, digest);
    forall c | 0 <= c < |ordered| ensures DraftId(drafts, ordered[c], digest) {
      assert ordered[c] in Collect(self, candidates);
    }
  }

  lemma PrefixKeeps(drafts: seq<Draft>, ordered: seq<SectionId>, self: SectionId, digest: (nat, nat) -> string)
    requires Unique(ordered) && self !in ordered && AllDraftIds(drafts, ordered, digest)
    ensures var ids := if |ordered| > MAX_CONTEXT then ordered[..MAX_CONTEXT] else ordered;
            && |ids| <= MAX_CONTEXT && Unique(ids) && self !in ids && AllDraftIds(drafts, ids, digest)
            && (ordered != [] ==> ids != [] && ids[0] == ordered[0])
  {
    var ids := if |ordered| > MAX_CONTEXT then ordered[..MAX_CONTEXT] else ordered;
    forall c | 0 <= c < |ids| ensures DraftId(drafts, ids[c], digest) && ids[c] != self {
      assert ids[c] == ordered[c];
    }
  }

  /**
   * A section's context: resolvable, free of repetitions and of itself, at most twelve, its parent always
   * among them.
   */
  lemma ContextMeaning(text: Text, drafts: seq<Draft>, k: nat, facts: Facts, digest: (nat, nat) -> string)
    requires DraftsReady(text, drafts, facts) && k < |drafts| && Injective(digest)
    ensures drafts[k].start <= drafts[k].end <= |text| && drafts[k].first <= k
    ensures var s := SectionOfDraft(text, drafts, k, facts, digest);
            && |s.contexts| <= MAX_CONTEXT && Unique(s.contexts) && s.id !in s.contexts
            && AllDraftIds(drafts, s.contexts, digest)
            && (s.parent.Some? ==> s.parent.value in s.contexts && DraftId(drafts, s.parent.value, digest))
  {
    TileAt(text, drafts, 0, |text|, k);
    OrderedMeaning(text, drafts, k, facts, digest);
    PrefixKeeps(drafts, OrderedContext(drafts, k, facts, digest), IdAt(drafts, k, digest), digest);
  }

  // ----- the index as the scheduler and the reader see it

  lemma DraftIdPresent(text: Text, drafts: seq<Draft>, facts: Facts, digest: (nat, nat) -> string, id: SectionId)
    requires DraftsReady(text, drafts, facts) && DraftId(drafts, id, digest)
    ensures Present(SectionsUpTo(text, drafts, |drafts|, facts, digest), id)
  {
    var k :| 0 <= k < |drafts| && IdAt(drafts, k, digest) == id;
    SectionsAt(text, drafts, |drafts|, facts, digest, k);
    assert SectionsUpTo(text, drafts, |drafts|, facts, digest)[k].id == id;
  }

  ghost predicate ParentsListed(index: seq<Section>) {
    forall k :: 0 <= k < |index| && index[k].parent.Some? ==> index[k].parent.value in index[k].contexts
  }

  /** The index is well formed, and every parent is among its child's contexts, even when the list was cut at twelve. */
  lemma SectionsAreValid(text: Text, drafts: seq<Draft>, facts: Facts, digest: (nat, nat) -> string)
    requires DraftsReady(text, drafts, facts) && Injective(digest)
    ensures var index := SectionsUpTo(text, drafts, |drafts|, facts, digest);
            IndexValid(index) && ParentsListed(index)
  {
    var index := SectionsUpTo(text, drafts, |drafts|, facts, digest);
    forall i, j | 0 <= i < j < |index| ensures index[i].id != index[j].id && index[i].start < index[j].start {
      SectionsAt(text, drafts, |drafts|, facts, digest, i);
      SectionsAt(text, drafts, |drafts|, facts, digest, j);
      DistinctIds(text, drafts, i, j, digest);
    }
    forall i | 0 <= i < |index|
      ensures AllPresent(index, index[i].contexts)
      ensures index[i].parent.Some? ==>
          Present(index, index[i].parent.value) && index[i].parent.value in index[i].contexts
    {
      SectionsAt(text, drafts, |drafts|, facts, digest, i);
      ContextMeaning(text, drafts, i, facts, digest);
      forall c | 0 <= c < |index[i].contexts| ensures Present(index, index[i].contexts[c]) {
        assert DraftId(drafts, index[i].contexts[c], digest);
        DraftIdPresent(text, drafts, facts, digest, index[i].contexts[c]);
      }
      if index[i].parent.Some? {
        DraftIdPresent(text, drafts, facts, digest, index[i].parent.value);
      }
    }
  }

  lemma IndexIsValid(text: Text, isHeading: Text -> bool, facts: Facts, digest: (nat, nat) -> string)
    requires FactsValid(facts, Drafts(text, isHeading)) && Injective(digest)
    ensures IndexValid(IndexOf(text, isHeading, facts, digest))
        && ParentsListed(IndexOf(text, isHeading, facts, digest))
  {
    DraftsAreReady(text, isHeading, facts);
    SectionsAreValid(text, Drafts(text, isHeading), facts, digest);
  }

  // ----- sections and their spans

  /**
   * One section of the index: bounded, covered by its spans, at most twelve of them, and clean at both
   * edges when complete.
   */
  ghost predicate SectionSound(text: Text, s: Section) {
    && s.start < s.end <= |text| && Fits(text, s.start, s.end)
    && Covers(text, s.spans, s.start, s.end) && Bounded(text, s.spans)
    && |s.spans| <= MAX_SECTION_SPANS
    && (s.complete ==> CleanEdge(text, s.start) && CleanEdge(text, s.end))
  }

  /** Neighbours meet; the first starts the source and the last ends it. */
  ghost predicate SectionsMeet(text: Text, index: seq<Section>) {
    && (index == [] <==> text == [])
    && (index != [] ==> index[0].start == 0 && index[|index| - 1].end == |text|)
    && (forall k :: 0 < k < |index| ==> index[k - 1].end == index[k].start)
  }

  lemma SectionIsSound(text: Text, drafts: seq<Draft>, facts: Facts, digest: (nat, nat) -> string, k: nat)
    requires DraftsReady(text, drafts, facts) && k < |drafts|
    ensures drafts[k].start <= drafts[k].end <= |text| && drafts[k].first <= k
    ensures SectionSound(text, SectionOfDraft(text, drafts, k, facts, digest))
  {
    TileAt(text, drafts, 0, |text|, k);
    CleanWhenUnsevered(text, drafts, facts, k);
    SegmentsSound(text, drafts[k].start, drafts[k].end, SectionSegments(text, drafts[k].start, drafts[k].end));
  }

  lemma SegmentsSound(text: Text, start: nat, end: nat, spans: seq<Range>)
    requires start <= end <= |text| && Fits(text, start, end) && spans == SectionSegments(text, start, end)
    ensures Covers(text, spans, start, end) && Bounded(text, spans) && |spans| <= MAX_SECTION_SPANS
  {
    SectionSegmentsMeaning(text, start, end);
    SectionSpanLimit(text, start, end);
  }

  /** A draft with no unsafe cut at either end has clean edges. */
  lemma CleanWhenUnsevered(text: Text, drafts: seq<Draft>, facts: Facts, k: nat)
    requires DraftsReady(text, drafts, facts) && k < |drafts|
    ensures drafts[k].start <= drafts[k].end <= |text|
    ensures !Severed(drafts, k) ==> CleanEdge(text, drafts[k].start) && CleanEdge(text, drafts[k].end)
  {
    TileAt(text, drafts, 0, |text|, k);
    if k > 0 {
      TileAt(text, drafts, 0, |text|, k - 1);
    }
  }

  lemma SectionsMeetAll(text: Text, drafts: seq<Draft>, facts: Facts, digest: (nat, nat) -> string)
    requires DraftsReady(text, drafts, facts)
    ensures SectionsMeet(text, SectionsUpTo(text, drafts, |drafts|, facts, digest))
  {
    var index := SectionsUpTo(text, drafts, |drafts|, facts, digest);
    if drafts != [] {
      SectionBounds(text, drafts, facts, digest, 0);
      SectionBounds(text, drafts, facts, digest, |drafts| - 1);
      TileAt(text, drafts, 0, |text|, 0);
      TileAt(text, drafts, 0, |text|, |drafts| - 1);
    }
    forall k | 0 < k < |index| ensures index[k - 1].end == index[k].start {
      TileAt(text, drafts, 0, |text|, k);
      SectionBounds(text, drafts, facts, digest, k);
      SectionBounds(text, drafts, facts, digest, k - 1);
    }
  }

  lemma SectionBounds(text: Text, drafts: seq<Draft>, facts: Facts, digest: (nat, nat) -> string, k: nat)
    requires DraftsReady(text, drafts, facts) && k < |drafts|
    ensures var s := SectionsUpTo(text, drafts, |drafts|, facts, digest)[k];
            s.start == drafts[k].start && s.end == drafts[k].end
  {
    SectionsAt(text, drafts, |drafts|, facts, digest, k);
  }

  /**
   * The sections of any text tile it, each within 700 characters and 800 bytes; each carries at most
   * twelve spans, in order, with nothing but spaces between them; and a complete section is not cut at a
   * plain space or a hard size cap on either side.
   */
  lemma IndexMeaning(text: Text, isHeading: Text -> bool, facts: Facts, digest: (nat, nat) -> string)
    requires FactsValid(facts, Drafts(text, isHeading))
    ensures SectionsMeet(text, IndexOf(text, isHeading, facts, digest))
    ensures forall k :: 0 <= k < |IndexOf(text, isHeading, facts, digest)| ==>
              SectionSound(text, IndexOf(text, isHeading, facts, digest)[k])
  {
    DraftsAreReady(text, isHeading, facts);
    var drafts := Drafts(text, isHeading);
    SectionsMeetAll(text, drafts, facts, digest);
    forall k | 0 <= k < |drafts| ensures SectionSound(text, IndexOf(text, isHeading, facts, digest)[k]) {
      SectionsAt(text, drafts, |drafts|, facts, digest, k);
      SectionIsSound(text, drafts, facts, digest, k);
    }
  }

  lemma {:induction false} MeetOrdered(text: Text, index: seq<Section>, i: nat, j: nat)
    requires SectionsMeet(text, index) && forall k :: 0 <= k < |index| ==> SectionSound(text, index[k])
    requires i < j < |index|
    ensures index[i].end <= index[j].start
    decreases j - i
  {
    assert index[j - 1].end == index[j].start;
    if i + 1 < j {
      MeetOrdered(text, index, i, j - 1);
      assert SectionSound(text, index[j - 1]);
    }
  }

  /** The section a character lies in. */
  lemma {:induction false} SectionAround(text: Text, index: seq<Section>, p: nat, n: nat) returns (i: nat)
    requires SectionsMeet(text, index) && forall k :: 0 <= k < |index| ==> SectionSound(text, index[k])
    requires 0 < n <= |index| && p < index[n - 1].end
    ensures i < n && index[i].start <= p < index[i].end
  {
    if p >= index[n - 1].start || n == 1 {
      i := n - 1;
    } else {
      assert index[n - 2].end == index[n - 1].start;
      i := SectionAround(text, index, p, n - 1);
    }
  }

  /** Every character that is no space lies in exactly one span of exactly one section, at its own offset. */
  lemma EveryCharacterOnce(
    text: Text, isHeading: Text -> bool, facts: Facts, digest: (nat, nat) -> string, p: nat) returns (i: nat, k: nat)
    requires FactsValid(facts, Drafts(text, isHeading)) && p < |text| && !IsSpace(text[p])
    ensures var index := IndexOf(text, isHeading, facts, digest);
            && i < |index| && k < |index[i].spans| && Inside(index[i].spans[k], p)
            && forall j, m :: 0 <= j < |index| && 0 <= m < |index[j].spans| && Inside(index[j].spans[m], p) ==>
                j == i && m == k
  {
    IndexMeaning(text, isHeading, facts, digest);
    var index := IndexOf(text, isHeading, facts, digest);
    i := SectionAround(text, index, p, |index|);
    assert SectionSound(text, index[i]);
    k := CoversExactlyOnce(text, index[i].spans, index[i].start, index[i].end, p);
    forall j, m | 0 <= j < |index| && 0 <= m < |index[j].spans| && Inside(index[j].spans[m], p)
      ensures j == i && m == k
    {
      assert SectionSound(text, index[j]);
      CoversAfter(text, index[j].spans, index[j].start, index[j].end, m);
      if j < i { MeetOrdered(text, index, j, i); }
      if i < j { MeetOrdered(text, index, i, j); }
    }
  }
}
