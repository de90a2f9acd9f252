/**
 * The governing context of a section, derived twice: by the scheduler while it issues a job
 * (src/qualor/runtime/section_scheduler.py) and again when the job is read back
 * (src/qualor/runtime/section_extraction.py).
 */
module SectionContexts {
  import opened Wrappers
  import opened AcquisitionModel
  import SourceText

  /** A span capability: its identifier is a keyed digest of these offsets and the text between them. */
  type Span = SourceText.Range

  datatype Section = Section(
    id: SectionId, start: nat, end: nat, parent: Option<SectionId>, contexts: seq<SectionId>,
    complete: bool, spans: seq<Span>)

  const MAX_JOB_SPANS := 12

  ghost predicate Present(index: seq<Section>, id: SectionId) {
    exists i :: 0 <= i < |index| && index[i].id == id
  }

  ghost predicate AllPresent(index: seq<Section>, ids: seq<SectionId>) {
    forall k :: 0 <= k < |ids| ==> Present(index, ids[k])
  }

  /** Sections in strictly increasing order, with resolvable references. */
  ghost predicate IndexValid(index: seq<Section>) {
    && (forall i, j :: 0 <= i < j < |index| ==> index[i].id != index[j].id && index[i].start < index[j].start)
    && (forall i :: 0 <= i < |index| ==> AllPresent(index, index[i].contexts))
    && (forall i :: 0 <= i < |index| && index[i].parent.Some? ==> Present(index, index[i].parent.value))
  }

  function SectionOf(index: seq<Section>, id: SectionId): (s: Section)
    requires Present(index, id)
    ensures s in index && s.id == id
  {
    if index[|index| - 1].id == id then index[|index| - 1] else SectionOf(index[..|index| - 1], id)
  }

  lemma SectionAt(index: seq<Section>, i: nat)
    requires IndexValid(index) && i < |index|
    ensures Present(index, index[i].id) && SectionOf(index, index[i].id) == index[i]
  {
    assert Present(index, index[i].id);
    var s := SectionOf(index, index[i].id);
    var j :| 0 <= j < |index| && index[j] == s;
    assert i == j;
  }

  lemma ContextsPresent(index: seq<Section>, id: SectionId)
    requires IndexValid(index) && Present(index, id)
    ensures AllPresent(index, SectionOf(index, id).contexts)
    ensures SectionOf(index, id).parent.Some? ==> Present(index, SectionOf(index, id).parent.value)
  {
    var s := SectionOf(index, id);
    var j :| 0 <= j < |index| && index[j] == s;
  }

  // ----- the declarative meaning

  /** What a section refers to, with or without its parent. */
  predicate Governs(s: Section, id: SectionId, parents: bool) {
    id in s.contexts || (parents && s.parent == Some(id))
  }

  ghost predicate ClosedFrom(index: seq<Section>, ids: set<SectionId>, parents: bool) {
    forall i, id :: 0 <= i < |index| && index[i].id in ids && Governs(index[i], id, parents) ==> id in ids
  }

  function AllIds(index: seq<Section>): set<SectionId> {
    set i | 0 <= i < |index| :: index[i].id
  }

  // ----- the scheduler's stack loop

  lemma StackShrinks(index: seq<Section>, visited: set<SectionId>, id: SectionId)
    requires Present(index, id) && id !in visited
    ensures |AllIds(index) - (visited + {id})| < |AllIds(index) - visited|
  {
    assert id in AllIds(index) - visited;
    assert AllIds(index) - visited == (AllIds(index) - (visited + {id})) + {id};
  }

  /** Pops until the stack is empty; a context section that is not complete ends the search. */
  function Gather(index: seq<Section>, pending: seq<SectionId>, visited: set<SectionId>): Option<set<SectionId>>
    requires IndexValid(index) && AllPresent(index, pending)
    decreases |AllIds(index) - visited|, |pending|
  {
    if pending == [] then Some(visited)
    else
      var id := pending[|pending| - 1];
      var rest := pending[..|pending| - 1];
      if id in visited then Gather(index, rest, visited)
      else
        var s := SectionOf(index, id);
        ContextsPresent(index, id);
        StackShrinks(index, visited, id);
        if !s.complete then None else Gather(index, rest + s.contexts, visited + {id})
  }

  function Next(s: Section, parents: bool): seq<SectionId> {
    s.contexts + if parents && s.parent.Some? then [s.parent.value] else []
  }

  lemma NextPresent(index: seq<Section>, rest: seq<SectionId>, id: SectionId, parents: bool)
    requires IndexValid(index) && Present(index, id) && AllPresent(index, rest)
    ensures AllPresent(index, rest + Next(SectionOf(index, id), parents))
  {
    ContextsPresent(index, id);
    var s := SectionOf(index, id);
    var next := Next(s, parents);
    forall k | 0 <= k < |rest + next| ensures Present(index, (rest + next)[k]) {
      if k < |rest| {
        assert Present(index, rest[k]);
      } else if k - |rest| < |s.contexts| {
        assert Present(index, s.contexts[k - |rest|]);
      }
    }
  }

  /** The stack loop without the early exit; the reader runs it with parents. */
  function Explore(index: seq<Section>, pending: seq<SectionId>, visited: set<SectionId>, parents: bool): set<SectionId>
    requires IndexValid(index) && AllPresent(index, pending)
    decreases |AllIds(index) - visited|, |pending|
  {
    if pending == [] then visited
    else
      var id := pending[|pending| - 1];
      var rest := pending[..|pending| - 1];
      if id in visited then Explore(index, rest, visited, parents)
      else
        NextPresent(index, rest, id, parents);
        StackShrinks(index, visited, id);
        Explore(index, rest + Next(SectionOf(index, id), parents), visited + {id}, parents)
  }

  // ----- both loops compute the least closed set

  ghost predicate Within(ids: seq<SectionId>, bound: set<SectionId>) {
    forall k :: 0 <= k < |ids| ==> ids[k] in bound
  }

  lemma WithinAppend(a: seq<SectionId>, b: seq<SectionId>, bound: set<SectionId>)
    ensures Within(a + b, bound) <==> Within(a, bound) && Within(b, bound)
  {
    if Within(a + b, bound) {
      forall k | 0 <= k < |a| ensures a[k] in bound { assert (a + b)[k] in bound; }
      forall k | 0 <= k < |b| ensures b[k] in bound { assert (a + b)[|a| + k] in bound; }
    }
  }

  /** Whatever a visited section refers to is visited or still pending. */
  ghost predicate Frontier(index: seq<Section>, pending: seq<SectionId>, visited: set<SectionId>, parents: bool) {
    forall i, id :: 0 <= i < |index| && index[i].id in visited && Governs(index[i], id, parents) ==>
      id in visited || id in pending
  }

  lemma FrontierSkip(index: seq<Section>, rest: seq<SectionId>, last: SectionId, visited: set<SectionId>, parents: bool)
    requires last in visited && Frontier(index, rest + [last], visited, parents)
    ensures Frontier(index, rest, visited, parents)
  {
  }

  lemma FrontierVisit(
    index: seq<Section>, rest: seq<SectionId>, last: SectionId, visited: set<SectionId>, parents: bool)
    requires IndexValid(index) && Present(index, last)
    requires Frontier(index, rest + [last], visited, parents)
    ensures Frontier(index, rest + Next(SectionOf(index, last), parents), visited + {last}, parents)
  {
    forall i, id | 0 <= i < |index| && index[i].id in visited + {last} && Governs(index[i], id, parents)
      ensures id in visited + {last} || id in rest + Next(SectionOf(index, last), parents)
    {
      if index[i].id == last {
        SectionAt(index, i);
        GovernsNext(index[i], id, parents);
      } else {
        assert index[i].id in visited;
        assert id in visited || id in rest + [last];
      }
    }
  }

  lemma GovernsNext(s: Section, id: SectionId, parents: bool)
    ensures Governs(s, id, parents) ==> id in Next(s, parents)
  {
  }

  lemma ExploreCloses(index: seq<Section>, pending: seq<SectionId>, visited: set<SectionId>, parents: bool)
    requires IndexValid(index) && AllPresent(index, pending) && Frontier(index, pending, visited, parents)
    ensures var v := Explore(index, pending, visited, parents);
            visited <= v && Within(pending, v) && ClosedFrom(index, v, parents)
    decreases |AllIds(index) - visited|, |pending|
  {
    if pending != [] {
      var id, rest := pending[|pending| - 1], pending[..|pending| - 1];
      assert pending == rest + [id];
      var v := Explore(index, pending, visited, parents);
      if id in visited {
        FrontierSkip(index, rest, id, visited, parents);
        ExploreCloses(index, rest, visited, parents);
      } else {
        var next := Next(SectionOf(index, id), parents);
        NextPresent(index, rest, id, parents);
        StackShrinks(index, visited, id);
        FrontierVisit(index, rest, id, visited, parents);
        ExploreCloses(index, rest + next, visited + {id}, parents);
        WithinAppend(rest, next, v);
      }
      WithinAppend(rest, [id], v);
    }
  }

  lemma ExploreIsLeast(
    index: seq<Section>, pending: seq<SectionId>, visited: set<SectionId>, parents: bool, bound: set<SectionId>)
    requires IndexValid(index) && AllPresent(index, pending)
    requires ClosedFrom(index, bound, parents) && visited <= bound && Within(pending, bound)
    ensures Explore(index, pending, visited, parents) <= bound
    decreases |AllIds(index) - visited|, |pending|
  {
    if pending != [] {
      var id, rest := pending[|pending| - 1], pending[..|pending| - 1];
      assert pending == rest + [id];
      WithinAppend(rest, [id], bound);
      if id in visited {
        ExploreIsLeast(index, rest, visited, parents, bound);
      } else {
        NextPresent(index, rest, id, parents);
        StackShrinks(index, visited, id);
        NextWithin(index, id, parents, bound);
        WithinAppend(rest, Next(SectionOf(index, id), parents), bound);
        assert [id][0] in bound;
        ExploreIsLeast(index, rest + Next(SectionOf(index, id), parents), visited + {id}, parents, bound);
      }
    }
  }

  lemma NextWithin(index: seq<Section>, id: SectionId, parents: bool, bound: set<SectionId>)
    requires IndexValid(index) && Present(index, id) && id in bound && ClosedFrom(index, bound, parents)
    ensures Within(Next(SectionOf(index, id), parents), bound)
  {
    var s := SectionOf(index, id);
    var i :| 0 <= i < |index| && index[i] == s;
    forall k | 0 <= k < |Next(s, parents)| ensures Next(s, parents)[k] in bound {
      assert Governs(index[i], Next(s, parents)[k], parents);
    }
  }

  /** The scheduler's loop gives what exploring gives, unless a section it would visit is incomplete. */
  lemma GatherIsExplore(index: seq<Section>, pending: seq<SectionId>, visited: set<SectionId>)
    requires IndexValid(index) && AllPresent(index, pending) && Frontier(index, pending, visited, false)
    ensures var v := Explore(index, pending, visited, false);
            && (Gather(index, pending, visited).Some? ==> Gather(index, pending, visited).value == v)
            && (Gather(index, pending, visited).Some? <==> CompleteBeyond(index, v, visited))
    decreases |AllIds(index) - visited|, |pending|
  {
    if pending != [] {
      var id, rest := pending[|pending| - 1], pending[..|pending| - 1];
      assert pending == rest + [id];
      if id in visited {
        FrontierSkip(index, rest, id, visited, false);
        GatherIsExplore(index, rest, visited);
      } else {
        var s := SectionOf(index, id);
        NextPresent(index, rest, id, false);
        assert Next(s, false) == s.contexts;
        StackShrinks(index, visited, id);
        FrontierVisit(index, rest, id, visited, false);
        ExploreCloses(index, rest + s.contexts, visited + {id}, false);
        var i :| 0 <= i < |index| && index[i] == s;
        if s.complete {
          GatherIsExplore(index, rest + s.contexts, visited + {id});
          CompleteStep(index, Explore(index, pending, visited, false), visited, i);
        } else {
          assert index[i].id in Explore(index, pending, visited, false);
        }
      }
    } else {
      assert CompleteBeyond(index, visited, visited);
    }
  }

  ghost predicate CompleteBeyond(index: seq<Section>, v: set<SectionId>, visited: set<SectionId>) {
    forall i :: 0 <= i < |index| && index[i].id in v && index[i].id !in visited ==> index[i].complete
  }

  lemma CompleteStep(index: seq<Section>, v: set<SectionId>, visited: set<SectionId>, i: nat)
    requires IndexValid(index) && i < |index| && index[i].complete
    ensures CompleteBeyond(index, v, visited) <==> CompleteBeyond(index, v, visited + {index[i].id})
  {
    if CompleteBeyond(index, v, visited + {index[i].id}) {
      forall j | 0 <= j < |index| && index[j].id in v && index[j].id !in visited ensures index[j].complete {
        if index[j].id == index[i].id {
          SectionAt(index, i);
          SectionAt(index, j);
        }
      }
    }
  }

  // ----- what a job carries

  /** The chosen sections other than the target, in order of their start. */
  function InOrder(index: seq<Section>, ids: set<SectionId>, target: SectionId): seq<Section> {
    if index == [] then []
    else
      var last := index[|index| - 1];
      InOrder(index[..|index| - 1], ids, target)
      + if last.id in ids && last.id != target then [last] else []
  }

  function IdsOf(sections: seq<Section>): seq<SectionId> {
    if sections == [] then [] else IdsOf(sections[..|sections| - 1]) + [sections[|sections| - 1].id]
  }

  function SpansOf(sections: seq<Section>): seq<Span> {
    if sections == [] then [] else SpansOf(sections[..|sections| - 1]) + sections[|sections| - 1].spans
  }

  predicate AllHaveSpans(sections: seq<Section>) {
    forall k :: 0 <= k < |sections| ==> sections[k].spans != []
  }

  lemma TargetPresent(index: seq<Section>, target: Section)
    requires IndexValid(index) && target in index
    ensures Present(index, target.id) && SectionOf(index, target.id) == target && AllPresent(index, target.contexts)
  {
    var i :| 0 <= i < |index| && index[i] == target;
    SectionAt(index, i);
  }

  /** `_context_for`: context sections and spans of a job on this section, or nothing when it cannot be issued. */
  function ContextFor(index: seq<Section>, target: Section): Option<(seq<SectionId>, seq<Span>)>
    requires IndexValid(index) && target in index
  {
    TargetPresent(index, target);
    var gathered := Gather(index, target.contexts, {target.id});
    if gathered.None? || !target.complete then None
    else
      var contexts := InOrder(index, gathered.value, target.id);
      var admitted := [target] + contexts;
      var spans := Distinct(SpansOf(admitted));
      if !AllHaveSpans(admitted) || spans == [] || |spans| > MAX_JOB_SPANS then None
      else Some((IdsOf(contexts), spans))
  }
}
