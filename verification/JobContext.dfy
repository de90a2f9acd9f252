/** src/qualor/runtime/section_extraction.py: reading an issued job back against the index and the text. */
module JobContext {
  import opened Wrappers
  import opened AcquisitionModel
  import opened SourceText
  import opened SpanSegments
  import opened SectionRanges
  import opened SectionContexts
  import opened SectionIndexing
  import opened IndexTheorems

  const MAX_SOURCE_BYTES := 9000
  const MAX_SPANS := 12

  datatype ReadError = ContextMismatch | SpanMismatch | SpanSourceMismatch | ContextTooLarge

  /** What reading a job gives: the context sections, the spans, and whether all of it is complete. */
  datatype Reading = Reading(contexts: seq<SectionId>, spans: seq<Span>, complete: bool)

  /** The sections a job on this target must name: everything it is governed by, parents included. */
  function Required(index: seq<Section>, target: Section): set<SectionId>
    requires IndexValid(index) && target in index
  {
    TargetPresent(index, target);
    Explore(index, [target.id], {}, true)
  }

  predicate AllComplete(index: seq<Section>, ids: set<SectionId>) {
    forall i :: 0 <= i < |index| && index[i].id in ids ==> index[i].complete
  }

  /** Every span lies in its section, in order, with only spaces between: the check of one section. */
  function CheckSpans(text: Text, spans: seq<Span>, cursor: nat, start: nat, end: nat): Option<ReadError>
    requires start <= cursor <= end <= |text|
    decreases |spans|
  {
    if spans == [] then if AllSpace(text, cursor, end) then None else Some(SpanMismatch)
    else
      var s := spans[0];
      if !(start <= s.start < s.end <= end) then Some(SpanSourceMismatch)
      else if s.start < cursor || !AllSpace(text, cursor, s.start) then Some(SpanMismatch)
      else CheckSpans(text, spans[1..], s.end, start, end)
  }

  function CheckSections(text: Text, sections: seq<Section>): Option<ReadError> {
    if sections == [] then None
    else
      var s := sections[|sections| - 1];
      var before := CheckSections(text, sections[..|sections| - 1]);
      if before.Some? then before
      else if !(s.start <= s.end <= |text|) then Some(SpanSourceMismatch)
      else CheckSpans(text, s.spans, s.start, s.start, s.end)
  }

  function TotalBytes(text: Text, spans: seq<Span>): nat {
    if spans == [] then 0
    else
      var s := spans[|spans| - 1];
      TotalBytes(text, spans[..|spans| - 1]) + if s.start <= s.end <= |text| then Size(text[s.start..s.end]) else 0
  }

  /** `_job_context` for a job of this source, after its identifiers have been matched. */
  function ReadJob(
    text: Text, truncated: bool, index: seq<Section>, target: Section, contexts: seq<SectionId>, spans: seq<Span>)
    : Result<Reading, ReadError>
    requires IndexValid(index) && target in index
  {
    var required := Required(index, target);
    var sections := InOrder(index, required, target.id);
    var admitted := [target] + sections;
    var expected := Distinct(SpansOf(admitted));
    if contexts != IdsOf(sections) then Err(ContextMismatch)
    else if spans != expected || expected == [] then Err(SpanMismatch)
    else
      var fault := CheckSections(text, admitted);
      if fault.Some? then Err(fault.value)
      else if |expected| > MAX_SPANS || |contexts| > MAX_CONTEXT then Err(ContextTooLarge)
      else if TotalBytes(text, expected) > MAX_SOURCE_BYTES then Err(ContextTooLarge)
      else Ok(Reading(contexts, expected, !truncated && AllComplete(index, required) && AllHaveSpans(admitted)))
  }

  // ----- the two closures agree

  /** Started from a complete target, the scheduler and the reader find the same sections. */
  lemma ClosuresAgree(index: seq<Section>, target: Section)
    requires IndexValid(index) && ParentsListed(index) && target in index
    requires AllPresent(index, target.contexts) && Gather(index, target.contexts, {target.id}).Some?
    ensures Required(index, target) == Gather(index, target.contexts, {target.id}).value
    ensures target.complete ==> AllComplete(index, Required(index, target))
  {
    TargetPresent(index, target);
    var visited := {target.id};
    FrontierOfTarget(index, target);
    GatherIsExplore(index, target.contexts, visited);
    ExploreCloses(index, target.contexts, visited, false);
    var small := Explore(index, target.contexts, visited, false);
    ParentsChangeNothing(index, small);
    assert Frontier(index, [target.id], {}, true);
    ExploreCloses(index, [target.id], {}, true);
    var large := Required(index, target);
    assert Within([target.id], small);
    ExploreIsLeast(index, [target.id], {}, true, small);
    TargetWithin(index, target, large);
    ClosedWithout(index, large);
    ExploreIsLeast(index, target.contexts, visited, false, large);
    if target.complete {
      forall i | 0 <= i < |index| && index[i].id in small ensures index[i].complete {
        if index[i].id == target.id { SectionAt(index, i); }
      }
    }
  }

  lemma FrontierOfTarget(index: seq<Section>, target: Section)
    requires IndexValid(index) && target in index
    ensures Frontier(index, target.contexts, {target.id}, false)
  {
    TargetPresent(index, target);
    forall i, id | 0 <= i < |index| && index[i].id in {target.id} && Governs(index[i], id, false)
      ensures id in {target.id} || id in target.contexts
    {
      SectionAt(index, i);
    }
  }

  /** A set closed under contexts is closed under parents, when parents are listed as contexts. */
  lemma ParentsChangeNothing(index: seq<Section>, ids: set<SectionId>)
    requires ParentsListed(index) && ClosedFrom(index, ids, false)
    ensures ClosedFrom(index, ids, true)
  {
    forall i, id | 0 <= i < |index| && index[i].id in ids && Governs(index[i], id, true) ensures id in ids {
      assert Governs(index[i], id, false);
    }
  }

  lemma ClosedWithout(index: seq<Section>, ids: set<SectionId>)
    requires ClosedFrom(index, ids, true)
    ensures ClosedFrom(index, ids, false)
  {
    forall i, id | 0 <= i < |index| && index[i].id in ids && Governs(index[i], id, false) ensures id in ids {
      assert Governs(index[i], id, true);
    }
  }

  lemma TargetWithin(index: seq<Section>, target: Section, ids: set<SectionId>)
    requires target in index && ClosedFrom(index, ids, true) && Within([target.id], ids)
    ensures target.id in ids && Within(target.contexts, ids)
  {
    assert [target.id][0] in ids;
    var i :| 0 <= i < |index| && index[i] == target;
    forall k | 0 <= k < |target.contexts| ensures target.contexts[k] in ids {
      assert Governs(index[i], target.contexts[k], true);
    }
  }

  // ----- the spans of sound sections pass the reader's checks

  lemma {:induction false} CoveredSpansPass(text: Text, spans: seq<Span>, cursor: nat, start: nat, end: nat)
    requires start <= cursor <= end <= |text| && Covers(text, spans, cursor, end)
    ensures CheckSpans(text, spans, cursor, start, end).None?
    decreases |spans|
  {
    if spans != [] {
      CoveredSpansPass(text, spans[1..], spans[0].end, start, end);
    }
  }

  lemma {:induction false} SoundSectionsPass(text: Text, sections: seq<Section>)
    requires forall k :: 0 <= k < |sections| ==> SectionSound(text, sections[k])
    ensures CheckSections(text, sections).None?
  {
    if sections != [] {
      var s := sections[|sections| - 1];
      SoundSectionsPass(text, sections[..|sections| - 1]);
      assert SectionSound(text, s);
      CoveredSpansPass(text, s.spans, s.start, s.start, s.end);
    }
  }

  // ----- sections with spans are no more than their distinct spans

  lemma {:induction false} SpansOfMembers(sections: seq<Section>)
    ensures forall s :: s in SpansOf(sections) ==> exists k :: 0 <= k < |sections| && s in sections[k].spans
  {
    if sections != [] {
      var n := |sections| - 1;
      SpansOfMembers(sections[..n]);
      forall s | s in SpansOf(sections) ensures exists k :: 0 <= k < |sections| && s in sections[k].spans {
        if s in SpansOf(sections[..n]) {
          var k :| 0 <= k < n && s in sections[..n][k].spans;
          assert s in sections[k].spans;
        } else {
          assert s in sections[n].spans;
        }
      }
    }
  }

  lemma {:induction false} DistinctGrows(a: seq<Span>, b: seq<Span>)
    ensures |Distinct(a)| <= |Distinct(a + b)|
    ensures (exists s :: s in b && s !in a) ==> |Distinct(a)| < |Distinct(a + b)|
  {
    if b == [] {
      assert a + b == a;
    } else {
      var n := |b| - 1;
      assert (a + b)[..|a + b| - 1] == a + b[..n];
      DistinctGrows(a, b[..n]);
      DistinctMembers(a + b[..n]);
      if s :| s in b && s !in a {
        assert b == b[..n] + [b[n]];
        if s !in b[..n] {
          assert s == b[n];
          assert s !in a + b[..n];
        }
      }
    }
  }

  /** The spans of different sound sections are different. */
  ghost predicate SpansDisjoint(sections: seq<Section>) {
    forall i, j, s :: 0 <= i < j < |sections| && s in sections[i].spans ==> s !in sections[j].spans
  }

  lemma {:induction false} SectionsWithinSpans(sections: seq<Section>)
    requires AllHaveSpans(sections) && SpansDisjoint(sections)
    ensures |sections| <= |Distinct(SpansOf(sections))|
  {
    if sections != [] {
      var n := |sections| - 1;
      SectionsWithinSpans(sections[..n]);
      SpansOfMembers(sections[..n]);
      var s := sections[n].spans[0];
      assert s in sections[n].spans;
      forall k | 0 <= k < n ensures s !in sections[..n][k].spans {
        assert sections[..n][k] == sections[k];
      }
      assert s !in SpansOf(sections[..n]);
      DistinctGrows(SpansOf(sections[..n]), sections[n].spans);
    }
  }

  // ----- an issued job reads back

  lemma {:induction false} InOrderMembers(index: seq<Section>, ids: set<SectionId>, target: SectionId)
    requires forall i, j :: 0 <= i < j < |index| ==> index[i].id != index[j].id
    ensures forall k :: 0 <= k < |InOrder(index, ids, target)| ==>
              InOrder(index, ids, target)[k] in index && InOrder(index, ids, target)[k].id != target
    ensures forall j, k :: 0 <= j < k < |InOrder(index, ids, target)| ==>
              InOrder(index, ids, target)[j].id != InOrder(index, ids, target)[k].id
  {
    if index != [] {
      var n := |index| - 1;
      InOrderMembers(index[..n], ids, target);
      var front := InOrder(index[..n], ids, target);
      forall k | 0 <= k < |front| ensures front[k] in index && front[k].id != index[n].id {
        var i :| 0 <= i < n && index[..n][i] == front[k];
        assert index[i] == front[k];
      }
    }
  }

  /** A span of one section starts in no other. */
  lemma DifferentSectionsDifferentSpans(text: Text, index: seq<Section>, x: Section, y: Section, s: Span)
    requires SectionsMeet(text, index) && forall k :: 0 <= k < |index| ==> SectionSound(text, index[k])
    requires x in index && y in index && x.id != y.id && s in x.spans
    ensures s !in y.spans
  {
    var i :| 0 <= i < |index| && index[i] == x;
    var j :| 0 <= j < |index| && index[j] == y;
    assert SectionSound(text, index[i]) && SectionSound(text, index[j]);
    if s in y.spans {
      var a :| 0 <= a < |x.spans| && x.spans[a] == s;
      var b :| 0 <= b < |y.spans| && y.spans[b] == s;
      CoversAfter(text, x.spans, x.start, x.end, a);
      CoversAfter(text, y.spans, y.start, y.end, b);
      if i < j { MeetOrdered(text, index, i, j); }
      if j < i { MeetOrdered(text, index, j, i); }
    }
  }

  ghost predicate IdsDiffer(sections: seq<Section>) {
    forall j, k :: 0 <= j < k < |sections| ==> sections[j].id != sections[k].id
  }

  ghost predicate AllFrom(index: seq<Section>, sections: seq<Section>) {
    forall k :: 0 <= k < |sections| ==> sections[k] in index
  }

  lemma AdmittedShape(index: seq<Section>, ids: set<SectionId>, target: Section)
    requires IndexValid(index) && target in index
    ensures IdsDiffer([target] + InOrder(index, ids, target.id))
        && AllFrom(index, [target] + InOrder(index, ids, target.id))
  {
    InOrderMembers(index, ids, target.id);
  }

  lemma AdmittedSpans(text: Text, index: seq<Section>, sections: seq<Section>)
    requires SectionsMeet(text, index) && forall k :: 0 <= k < |index| ==> SectionSound(text, index[k])
    requires IdsDiffer(sections) && AllFrom(index, sections)
    ensures SpansDisjoint(sections)
    ensures forall k :: 0 <= k < |sections| ==> SectionSound(text, sections[k])
  {
    forall i, j, s | 0 <= i < j < |sections| && s in sections[i].spans ensures s !in sections[j].spans {
      DifferentSectionsDifferentSpans(text, index, sections[i], sections[j], s);
    }
    forall k | 0 <= k < |sections| ensures SectionSound(text, sections[k]) {
      assert sections[k] in index;
      var i :| 0 <= i < |index| && index[i] == sections[k];
    }
  }

  lemma {:induction false} IdsOfLength(sections: seq<Section>)
    ensures |IdsOf(sections)| == |sections|
  {
    if sections != [] {
      IdsOfLength(sections[..|sections| - 1]);
    }
  }

  /**
   * Reading an issued job back over a sound index: the context and the spans are the ones re-derived, so
   * neither they nor the tiling are ever refused; the job fails to read exactly when its spans exceed the
   * byte limit of one request, and what it reads is complete exactly when the source was not truncated.
   */
  lemma IssuedJobReads(
    text: Text, truncated: bool, index: seq<Section>, target: Section, contexts: seq<SectionId>, spans: seq<Span>)
    requires IndexValid(index) && ParentsListed(index) && SectionsMeet(text, index)
    requires forall k :: 0 <= k < |index| ==> SectionSound(text, index[k])
    requires target in index && ContextFor(index, target) == Some((contexts, spans))
    ensures ReadJob(text, truncated, index, target, contexts, spans)
         == if TotalBytes(text, spans) > MAX_SOURCE_BYTES then Err(ContextTooLarge)
            else Ok(Reading(contexts, spans, !truncated))
  {
    TargetPresent(index, target);
    ClosuresAgree(index, target);
    var required := Required(index, target);
    var sections := InOrder(index, required, target.id);
    var admitted := [target] + sections;
    AdmittedShape(index, required, target);
    AdmittedSpans(text, index, admitted);
    SoundSectionsPass(text, admitted);
    SectionsWithinSpans(admitted);
    IdsOfLength(sections);
  }

  /** Over the index of any source, whatever its vocabulary facts, every issued job reads back. */
  lemma IndexedJobsRead(
    text: Text, truncated: bool, isHeading: Text -> bool, facts: Facts, digest: (nat, nat) -> string,
    target: Section, contexts: seq<SectionId>, spans: seq<Span>)
    requires FactsValid(facts, Drafts(text, isHeading)) && Injective(digest)
    requires target in IndexOf(text, isHeading, facts, digest)
    ensures IndexValid(IndexOf(text, isHeading, facts, digest))
    ensures var index := IndexOf(text, isHeading, facts, digest);
            ContextFor(index, target) == Some((contexts, spans)) ==>
              ReadJob(text, truncated, index, target, contexts, spans)
              == if TotalBytes(text, spans) > MAX_SOURCE_BYTES then Err(ContextTooLarge)
                 else Ok(Reading(contexts, spans, !truncated))
  {
    var index := IndexOf(text, isHeading, facts, digest);
    IndexIsValid(text, isHeading, facts, digest);
    IndexMeaning(text, isHeading, facts, digest);
    if ContextFor(index, target) == Some((contexts, spans)) {
      IssuedJobReads(text, truncated, index, target, contexts, spans);
    }
  }

  // ----- the reader's loops

  method GatherRequired(index: seq<Section>, target: Section) returns (required: set<SectionId>)
    requires IndexValid(index) && target in index
    ensures required == Required(index, target)
  {
    TargetPresent(index, target);
    var pending := [target.id];
    required := {};
    while pending != []
      invariant AllPresent(index, pending)
      invariant Explore(index, pending, required, true) == Explore(index, [target.id], {}, true)
      decreases |AllIds(index) - required|, |pending|
    {
      var id := pending[|pending| - 1];
      assert Present(index, id);
      ghost var rest := pending[..|pending| - 1];
      assert AllPresent(index, rest);
      pending := pending[..|pending| - 1];
      if id !in required {
        NextPresent(index, rest, id, true);
        StackShrinks(index, required, id);
        required := required + {id};
        pending := pending + Next(SectionOf(index, id), true);
      }
    }
  }

  /** The moving cursor over one section's spans. */
  method WalkSpans(text: Text, spans: seq<Span>, start: nat, end: nat) returns (fault: Option<ReadError>)
    requires start <= end <= |text|
    ensures fault == CheckSpans(text, spans, start, start, end)
  {
    var cursor := start;
    for k := 0 to |spans|
      invariant start <= cursor <= end
      invariant CheckSpans(text, spans[k..], cursor, start, end) == CheckSpans(text, spans, start, start, end)
    {
      var s := spans[k];
      assert spans[k..][0] == s && spans[k..][1..] == spans[k + 1..];
      if !(start <= s.start < s.end <= end) {
        return Some(SpanSourceMismatch);
      }
      if s.start < cursor || !AllSpace(text, cursor, s.start) {
        return Some(SpanMismatch);
      }
      cursor := s.end;
    }
    return if AllSpace(text, cursor, end) then None else Some(SpanMismatch);
  }
}
