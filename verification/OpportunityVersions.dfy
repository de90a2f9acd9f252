/**
 * Optimistic opportunity versions: the append-only `opportunity_versions` table, the observers that
 * write it and the run captures that resolve a version first and commit it later.
 */
module OpportunityVersions {
  import opened Wrappers

  /** `semantics` is the canonical projection, standing for its digest; `details` is everything else. */
  datatype Record = Record(id: string, version: int, semantics: string, details: string)

  datatype Row = Row(record: Record, digest: string)

  type Table = seq<Row>

  datatype Error = KeyTaken | SnapshotDiverges | NotCurrent | NotAuthority | RestRefused

  // ----- src/qualor/persistence/repositories.py

  function Put(table: Table, record: Record, digest: string): Result<Table, Error> {
    if exists i :: 0 <= i < |table| && table[i].record.id == record.id && table[i].record.version == record.version
    then Err(KeyTaken)
    else Ok(table + [Row(record, digest)])
  }

  /** The row of this id with the greatest version. */
  function Latest(table: Table, id: string): Option<Row> {
    if table == [] then None
    else
      var last := table[|table| - 1];
      var before := Latest(table[..|table| - 1], id);
      if last.record.id == id && (before.None? || before.value.record.version < last.record.version)
      then Some(last) else before
  }

  // ----- src/qualor/workspace/lifecycle.py and run_capture.py

  function NextVersion(latest: Option<Row>): int {
    if latest.None? then 1 else latest.value.record.version + 1
  }

  predicate Unchanged(latest: Option<Row>, record: Record) {
    latest.Some? && latest.value.digest == record.semantics
  }

  /** `persist_observation`: the table after it. */
  function Observe(table: Table, observed: Record): Result<Table, Error> {
    var latest := Latest(table, observed.id);
    if Unchanged(latest, observed) then Ok(table)
    else Put(table, observed.(version := NextVersion(latest)), observed.semantics)
  }

  /** `resolve_opportunity_version`: the record to decide on, nothing written. */
  function Resolve(table: Table, observed: Record): Record {
    var latest := Latest(table, observed.id);
    if Unchanged(latest, observed) then latest.value.record
    else observed.(version := NextVersion(latest))
  }

  /** The opportunity part of `_persist_graph`. */
  function Commit(table: Table, graph: Record): Result<Table, Error> {
    var latest := Latest(table, graph.id);
    if latest.None? then
      if graph.version != 1 then Err(NotCurrent) else Put(table, graph, graph.semantics)
    else if latest.value.digest == graph.semantics then
      if latest.value.record != graph then Err(SnapshotDiverges) else Ok(table)
    else if graph.version == latest.value.record.version + 1 then Put(table, graph, graph.semantics)
    else Err(NotCurrent)
  }

  // ----- the stored history of one opportunity

  function History(table: Table, id: string): seq<Row> {
    if table == [] then []
    else
      var last := table[|table| - 1];
      History(table[..|table| - 1], id) + if last.record.id == id then [last] else []
  }

  /** The version at `k` is numbered in order and differs in digest from the one before it. */
  ghost predicate Link(history: seq<Row>, id: string, k: nat)
    requires k < |history|
  {
    && history[k].record.id == id
    && history[k].record.version == k + 1
    && history[k].digest == history[k].record.semantics
    && (k > 0 ==> history[k].digest != history[k - 1].digest)
  }

  ghost predicate Chain(history: seq<Row>, id: string) {
    forall k {:trigger Link(history, id, k)} :: 0 <= k < |history| ==> Link(history, id, k)
  }

  /** Every opportunity's versions are 1..n and neighbours differ in digest. */
  ghost predicate Chained(table: Table) {
    forall id :: Chain(History(table, id), id)
  }

  function Last(history: seq<Row>): Option<Row> {
    if history == [] then None else Some(history[|history| - 1])
  }

  lemma {:induction false} LatestIsLast(table: Table, id: string)
    requires Chain(History(table, id), id)
    ensures Latest(table, id) == Last(History(table, id))
    ensures NextVersion(Latest(table, id)) == |History(table, id)| + 1
    ensures Latest(table, id).Some? ==>
              var last := Latest(table, id).value;
              last.record.id == id && last.record.version == |History(table, id)|
                  && last.digest == last.record.semantics
  {
    if table != [] {
      var n := |table| - 1;
      var h, before := History(table, id), History(table[..n], id);
      assert before <= h;
      assert Chain(before, id) by {
        forall k | 0 <= k < |before| ensures Link(before, id, k) {
          assert Link(h, id, k);
        }
      }
      LatestIsLast(table[..n], id);
      if h != [] {
        assert Link(h, id, |h| - 1);
      }
      if table[n].record.id == id && before != [] {
        assert h[|before| - 1] == before[|before| - 1];
        assert h[|before|] == table[n];
      }
    }
  }

  lemma {:induction false} HistoryHolds(table: Table, id: string, i: nat)
    requires i < |table| && table[i].record.id == id
    ensures table[i] in History(table, id)
  {
    var n := |table| - 1;
    if i < n {
      HistoryHolds(table[..n], id, i);
      assert table[..n][i] == table[i];
    }
  }

  /** In a chained table the next version's key is free, so the insert never violates uniqueness. */
  lemma NextKeyFree(table: Table, record: Record)
    requires Chained(table) && record.version == NextVersion(Latest(table, record.id))
    ensures Put(table, record, record.semantics) == Ok(table + [Row(record, record.semantics)])
  {
    LatestIsLast(table, record.id);
    var h := History(table, record.id);
    assert Chain(h, record.id);
    forall i | 0 <= i < |table| && table[i].record.id == record.id ensures table[i].record.version != record.version {
      HistoryHolds(table, record.id, i);
      var k :| 0 <= k < |h| && h[k] == table[i];
      assert Link(h, record.id, k);
    }
  }

  lemma AppendKeepsChained(table: Table, record: Record)
    requires Chained(table)
    requires record.version == NextVersion(Latest(table, record.id))
    requires !Unchanged(Latest(table, record.id), record)
    ensures Chained(table + [Row(record, record.semantics)])
    ensures forall id :: History(table + [Row(record, record.semantics)], id) ==
                         History(table, id) + if id == record.id then [Row(record, record.semantics)] else []
  {
    var row := Row(record, record.semantics);
    var longer := table + [row];
    assert longer[..|table|] == table;
    forall id ensures History(longer, id) == History(table, id) + if id == record.id then [row] else [] {
    }
    forall id ensures Chain(History(longer, id), id) {
      var h := History(table, id);
      assert Chain(h, id);
      if id == record.id {
        LatestIsLast(table, id);
        assert History(longer, id) == h + [row];
      }
      forall k | 0 <= k < |History(longer, id)| ensures Link(History(longer, id), id, k) {
        if k < |h| {
          assert Link(h, id, k);
        }
      }
    }
  }

  // ----- each operation on a chained table

  /** An observation adds one version exactly when its digest differs from the latest, and never fails. */
  lemma ObserveMeaning(table: Table, observed: Record)
    requires Chained(table)
    ensures Observe(table, observed).Ok? && Chained(Observe(table, observed).value)
    ensures var after := Observe(table, observed).value;
            var h := History(table, observed.id);
            && Last(History(after, observed.id)).Some?
            && Last(History(after, observed.id)).value.digest == observed.semantics
            && (after != table <==> h == [] || h[|h| - 1].digest != observed.semantics)
            && |after| <= |table| + 1 && table <= after
  {
    LatestIsLast(table, observed.id);
    if !Unchanged(Latest(table, observed.id), observed) {
      var record := observed.(version := NextVersion(Latest(table, observed.id)));
      NextKeyFree(table, record);
      AppendKeepsChained(table, record);
    }
  }

  /** A commit keeps the chain, and after it the graph's record is the latest version. */
  lemma CommitMeaning(table: Table, graph: Record)
    requires Chained(table)
    ensures Commit(table, graph) != Err(KeyTaken)
    ensures Commit(table, graph).Ok? <==>
            || (Latest(table, graph.id).Some? && Latest(table, graph.id).value.record == graph)
            || (graph.version == NextVersion(Latest(table, graph.id)) && !Unchanged(Latest(table, graph.id), graph))
    ensures Commit(table, graph).Ok? ==>
              var after := Commit(table, graph).value;
              Chained(after) && Last(History(after, graph.id)) == Some(Row(graph, graph.semantics))
  {
    LatestIsLast(table, graph.id);
    var latest := Latest(table, graph.id);
    assert Chain(History(table, graph.id), graph.id);
    if graph.version == NextVersion(latest) && !Unchanged(latest, graph) {
      NextKeyFree(table, graph);
      AppendKeepsChained(table, graph);
    }
  }

  // ----- runs

  datatype Authority = Authority(id: string, version: int, digest: string)

  function AuthorityOf(r: Record): Authority { Authority(r.id, r.version, r.semantics) }

  datatype Capture = Capture(resolved: Option<Authority>, persisted: bool, failed: bool)

  datatype State = State(table: Table, captures: map<string, Capture>)

  /** `available` and `accepted` say whether the parts of the call outside this model succeed. */
  datatype Event =
    | Observed(record: Record)
    | Resolved(capture: string, record: Record, available: bool)
    | Finished(capture: string, graph: Option<Record>, accepted: bool)

  function CaptureOf(s: State, name: string): Capture {
    if name in s.captures then s.captures[name] else Capture(None, false, false)
  }

  /** The transaction of `run_finished`: the new table, or an error after which nothing is kept. */
  function Finish(table: Table, c: Capture, graph: Option<Record>, accepted: bool): Result<Table, Error> {
    if graph.None? then if accepted then Ok(table) else Err(RestRefused)
    else if c.resolved.Some? && c.resolved.value != AuthorityOf(graph.value) then Err(NotAuthority)
    else
      var r := Commit(table, graph.value);
      if r.Ok? && !accepted then Err(RestRefused) else r
  }

  function Step(s: State, e: Event): State {
    match e
    case Observed(record) =>
      var r := Observe(s.table, record);
      if r.Ok? then s.(table := r.value) else s
    case Resolved(name, record, available) =>
      var c := CaptureOf(s, name);
      s.(captures := s.captures[name :=
        if available then c.(resolved := Some(AuthorityOf(Resolve(s.table, record)))) else c.(failed := true)])
    case Finished(name, graph, accepted) =>
      var c := CaptureOf(s, name);
      if c.persisted || c.failed then s
      else
        var r := Finish(s.table, c, graph, accepted);
        if r.Ok? then State(r.value, s.captures[name := c.(persisted := true)])
        else s.(captures := s.captures[name := c.(failed := true)])
  }

  function Run(s: State, events: seq<Event>): State {
    if events == [] then s else Step(Run(s, events[..|events| - 1]), events[|events| - 1])
  }

  lemma StepChained(s: State, e: Event)
    requires Chained(s.table)
    ensures Chained(Step(s, e).table)
    ensures s.table <= Step(s, e).table
  {
    match e
    case Observed(record) => ObserveMeaning(s.table, record);
    case Resolved(_, _, _) =>
    case Finished(_, graph, _) => if graph.Some? { CommitMeaning(s.table, graph.value); }
  }

  /**
   * Under any interleaving of observers and captures, every opportunity's versions are 1..n without repeats
   * of a digest.
   */
  lemma {:induction false} RunsAreChained(s: State, events: seq<Event>)
    requires Chained(s.table)
    ensures Chained(Run(s, events).table)
    ensures s.table <= Run(s, events).table
  {
    if events != [] {
      RunsAreChained(s, events[..|events| - 1]);
      StepChained(Run(s, events[..|events| - 1]), events[|events| - 1]);
    }
  }

  lemma EmptyIsChained()
    ensures Chained([])
  {
    forall id ensures Chain(History([], id), id) {
      assert History([], id) == [];
    }
  }

  lemma {:induction false} HistoryGrows(table: Table, later: Table, id: string)
    requires table <= later
    ensures History(table, id) <= History(later, id)
  {
    if |table| < |later| {
      HistoryGrows(table, later[..|later| - 1], id);
    } else {
      assert table == later;
    }
  }

  /** A row stays the latest exactly as long as no version of the opportunity is written. */
  lemma StillLatest(table: Table, later: Table, id: string)
    requires Chained(table) && Chained(later) && table <= later
    ensures Latest(later, id) == Latest(table, id) <==> History(later, id) == History(table, id)
    ensures Latest(later, id).Some? && Latest(later, id) != Latest(table, id) ==>
              NextVersion(Latest(table, id)) <= Latest(later, id).value.record.version
  {
    HistoryGrows(table, later, id);
    LatestIsLast(table, id);
    LatestIsLast(later, id);
    assert Chain(History(table, id), id) && Chain(History(later, id), id);
    if |History(later, id)| == |History(table, id)| {
      assert History(later, id) == History(table, id);
    }
  }

  /**
   * A capture resolves at `s`, any run happens, and it commits a graph with the resolved authority at
   * `t`. The commit succeeds exactly when that record is the latest version already, or it is a new
   * version and nobody has written this opportunity since.
   */
  lemma StaleWriterRefused(s: State, events: seq<Event>, observed: Record, graph: Record)
    requires Chained(s.table)
    requires AuthorityOf(graph) == AuthorityOf(Resolve(s.table, observed))
    ensures var t := Run(s, events).table;
            Commit(t, graph).Ok? <==>
              || Latest(t, graph.id) == Some(Row(graph, graph.semantics))
              || (!Unchanged(Latest(s.table, graph.id), graph) && History(t, graph.id) == History(s.table, graph.id))
  {
    RunsAreChained(s, events);
    LaterCommit(s.table, Run(s, events).table, observed, graph);
  }

  lemma LaterCommit(table: Table, later: Table, observed: Record, graph: Record)
    requires Chained(table) && Chained(later) && table <= later
    requires AuthorityOf(graph) == AuthorityOf(Resolve(table, observed))
    ensures Commit(later, graph).Ok? <==>
              || Latest(later, graph.id) == Some(Row(graph, graph.semantics))
              || (!Unchanged(Latest(table, graph.id), graph) && History(later, graph.id) == History(table, graph.id))
  {
    LatestIsLast(table, observed.id);
    assert graph.id == observed.id;
    HistoryGrows(table, later, graph.id);
    LatestIsLast(later, graph.id);
    CommitMeaning(later, graph);
    var h, longer := History(table, graph.id), History(later, graph.id);
    assert |longer| == |h| ==> longer == h;
  }

  /** A finished capture's row is the latest; a refused one leaves the table and can never be finished again. */
  lemma FinishWritesOrNothing(s: State, name: string, graph: Record, accepted: bool)
    requires Chained(s.table)
    ensures var after := Step(s, Finished(name, Some(graph), accepted));
            && (CaptureOf(after, name).persisted && !CaptureOf(s, name).persisted ==>
                  Latest(after.table, graph.id) == Some(Row(graph, graph.semantics)))
            && (!CaptureOf(after, name).persisted || CaptureOf(s, name).persisted ==> after.table == s.table)
            && (!CaptureOf(after, name).persisted ==> CaptureOf(after, name).failed)
  {
    CommitMeaning(s.table, graph);
    StepChained(s, Finished(name, Some(graph), accepted));
    LatestIsLast(Step(s, Finished(name, Some(graph), accepted)).table, graph.id);
  }

  // ----- the objects

  class OpportunityStore {
    var table: Table

    constructor ()
      ensures table == []
    {
      table := [];
    }

    method PutOpportunityVersion(record: Record, digest: string) returns (r: Result<(), Error>)
      modifies this
      ensures Put(old(table), record, digest) == if r.Ok? then Ok(table) else Err(r.error)
      ensures r.Err? ==> table == old(table)
    {
      if exists i :: 0 <= i < |table| && table[i].record.id == record.id && table[i].record.version == record.version {
        return Err(KeyTaken);
      }
      table := table + [Row(record, digest)];
      return Ok(());
    }

    method LatestWithDigest(id: string) returns (latest: Option<Row>)
      ensures latest == Latest(table, id)
    {
      latest := None;
      for k := 0 to |table|
        invariant latest == Latest(table[..k], id)
      {
        assert table[..k + 1][..k] == table[..k];
        if table[k].record.id == id && (latest.None? || latest.value.record.version < table[k].record.version) {
          latest := Some(table[k]);
        }
      }
      assert table[..|table|] == table;
    }

    /** `WorkspaceLifecycle.persist_observation`; the answer says whether a version was created. */
    method PersistObservation(observed: Record) returns (r: Result<(int, bool), Error>)
      modifies this
      ensures Observe(old(table), observed) == if r.Ok? then Ok(table) else Err(r.error)
      ensures r.Ok? ==> r.value.1 == (table != old(table))
      ensures r.Ok? ==> r.value.0 == Resolve(old(table), observed).version
      ensures r.Err? ==> table == old(table)
    {
      var latest := LatestWithDigest(observed.id);
      if Unchanged(latest, observed) {
        return Ok((latest.value.record.version, false));
      }
      var version := NextVersion(latest);
      var put := PutOpportunityVersion(observed.(version := version), observed.semantics);
      return if put.Ok? then Ok((version, true)) else Err(put.error);
    }

    /** The opportunity part of `_persist_graph`. */
    method PersistGraph(graph: Record) returns (r: Result<(), Error>)
      modifies this
      ensures Commit(old(table), graph) == if r.Ok? then Ok(table) else Err(r.error)
      ensures r.Err? ==> table == old(table)
    {
      var latest := LatestWithDigest(graph.id);
      if latest.None? {
        if graph.version != 1 { return Err(NotCurrent); }
        r := PutOpportunityVersion(graph, graph.semantics);
      } else if latest.value.digest == graph.semantics {
        if latest.value.record != graph { return Err(SnapshotDiverges); }
        r := Ok(());
      } else if graph.version == latest.value.record.version + 1 {
        r := PutOpportunityVersion(graph, graph.semantics);
      } else {
        r := Err(NotCurrent);
      }
    }
  }

  /** The capture fields that decide whether and what `run_finished` writes. */
  class WorkspaceRunCapture {
    const store: OpportunityStore
    var resolved: Option<Authority>
    var persisted: bool
    var failed: bool

    function View(): Capture
      reads this
    {
      Capture(resolved, persisted, failed)
    }

    constructor (store: OpportunityStore)
      ensures this.store == store && View() == Capture(None, false, false)
    {
      this.store := store;
      resolved, persisted, failed := None, false, false;
    }

    method ResolveOpportunityVersion(observed: Record, available: bool) returns (record: Record)
      modifies this
      ensures var before := State(store.table, map["" := old(View())]);
              CaptureOf(Step(before, Resolved("", observed, available)), "") == View()
      ensures record == if available then Resolve(store.table, observed) else observed
    {
      if !available {
        failed := true;
        return observed;
      }
      var latest := store.LatestWithDigest(observed.id);
      if Unchanged(latest, observed) {
        record := latest.value.record;
      } else {
        record := observed.(version := NextVersion(latest));
      }
      resolved := Some(AuthorityOf(record));
    }

    /** False when the run is already persisted, which the source raises. */
    method RunFinished(graph: Option<Record>, accepted: bool) returns (allowed: bool)
      modifies this, store
      ensures allowed == !old(persisted)
      ensures var before := State(old(store.table), map["" := old(View())]);
              var after := Step(before, Finished("", graph, accepted));
              store.table == after.table && View() == CaptureOf(after, "")
    {
      if persisted { return false; }
      if failed { return true; }
      var snapshot := store.table;
      var ok := accepted;
      if graph.Some? {
        if resolved.Some? && resolved.value != AuthorityOf(graph.value) {
          ok := false;
        } else {
          var r := store.PersistGraph(graph.value);
          ok := r.Ok? && accepted;
        }
      }
      if ok {
        persisted := true;
      } else {
        store.table := snapshot;
        failed := true;
      }
      return true;
    }
  }
}
