/** What holds over whole runs of the workspace. */
module WorkspaceTheorems {
  import opened Wrappers
  import opened WorkspaceRecords
  import opened ApprovalRules
  import opened ApprovalHistory
  import opened ApprovalSteps
  import opened DraftingRules
  import opened DraftingHistory
  import opened WorkspaceRuns

  /** Nothing has been requested yet; the inputs may already have versions. */
  ghost predicate Initial(w: World) {
    w.db.approvals == [] && w.db.jobs == [] && w.db.packs == [] && w.flights == []
  }

  ghost predicate Follows(ws: seq<World>, es: seq<Event>, i: nat)
    requires i < |es| && |ws| == |es| + 1
  {
    ws[i + 1] == Step(ws[i], es[i])
  }

  ghost predicate Run(ws: seq<World>, es: seq<Event>) {
    && |ws| == |es| + 1 && Initial(ws[0])
    && forall i {:trigger Follows(ws, es, i)} :: 0 <= i < |es| ==> Follows(ws, es, i)
  }

  /** The clock never runs backwards. */
  ghost predicate TimelyRun(ws: seq<World>, es: seq<Event>) {
    Run(ws, es) && forall i {:trigger Timely(ws[i], es[i])} :: 0 <= i < |es| ==> Timely(ws[i], es[i])
  }

  function HistoryAt(ws: seq<World>, n: nat, id: nat): seq<Approval>
    requires n < |ws|
  {
    History(ws[n].db.approvals, id)
  }

  function LastAt(ws: seq<World>, n: nat, id: nat): Approval
    requires n < |ws| && HistoryAt(ws, n, id) != []
  {
    LastOf(HistoryAt(ws, n, id)).value
  }

  // ----- invariants of every reachable world

  lemma {:induction false} Reachable(ws: seq<World>, es: seq<Event>, n: nat)
    requires Run(ws, es) && n < |ws|
    ensures WorldInv(ws[n])
    ensures n < |es| ==> ws[n + 1] == Step(ws[n], es[n])
  {
    if n > 0 {
      Reachable(ws, es, n - 1);
      StepKeepsInv(ws[n - 1], es[n - 1]);
    }
    assert n < |es| ==> Follows(ws, es, n);
  }

  lemma {:induction false} ReachableInTime(ws: seq<World>, es: seq<Event>, n: nat)
    requires TimelyRun(ws, es) && n < |ws|
    ensures WorldInv(ws[n]) && ClockInv(ws[n])
  {
    Reachable(ws, es, n);
    if n > 0 {
      ReachableInTime(ws, es, n - 1);
      Reachable(ws, es, n - 1);
      StepKeepsClockInv(ws[n - 1], es[n - 1]);
    }
  }

  /**
    In every reachable store an approval's versions are 1..n with one binding, mode and expiry;
    a revoked row is the last; a consumption instant is set once and kept; keys are never shared.
   */
  lemma StoredHistories(ws: seq<World>, es: seq<Event>, n: nat, id: nat, i: nat, j: nat)
    requires Run(ws, es) && n < |ws| && i <= j < |HistoryAt(ws, n, id)|
    ensures var h := HistoryAt(ws, n, id);
            && h[j].id == id && h[j].version == j + 1
            && h[j].binding == h[i].binding && h[j].mode == h[i].mode && h[j].expiresAt == h[i].expiresAt
            && (h[i].state.Revoked? ==> i == j == |h| - 1)
            && (h[i].consumedAt.Some? ==> h[j].consumedAt == h[i].consumedAt)
            && |h| <= 4
    ensures KeysUnique(ws[n].db.approvals)
  {
    Reachable(ws, es, n);
    var h := HistoryAt(ws, n, id);
    HistoryMembers(ws[n].db.approvals, id);
    assert h[j] in h;
    HistoryFacts(h, i, j);
    HistoryFacts(h, 0, i);
    RevokedIsFinal(h, i);
  }

  /** Later worlds only extend earlier histories. */
  lemma {:induction false} HistoriesGrow(ws: seq<World>, es: seq<Event>, m: nat, n: nat, id: nat)
    requires Run(ws, es) && m <= n < |ws|
    ensures HistoryAt(ws, m, id) <= HistoryAt(ws, n, id)
  {
    if m < n {
      HistoriesGrow(ws, es, m, n - 1, id);
      HistoryStep(ws, es, n - 1, id);
    }
  }

  lemma HistoryStep(ws: seq<World>, es: seq<Event>, i: nat, id: nat)
    requires Run(ws, es) && i < |es|
    ensures HistoryAt(ws, i, id) <= HistoryAt(ws, i + 1, id)
  {
    Reachable(ws, es, i);
    StepEffects(ws[i], es[i], id);
  }

  // ----- one consumption and one pack for each authority

  /** With a clock that never runs backwards, at most one approval of a binding and mode is ever consumed. */
  lemma AtMostOneConsumed(ws: seq<World>, es: seq<Event>, n: nat, a: nat, b: nat)
    requires TimelyRun(ws, es) && n < |ws|
    requires HistoryAt(ws, n, a) != [] && LastAt(ws, n, a).consumedAt.Some?
    requires HistoryAt(ws, n, b) != [] && LastAt(ws, n, b).consumedAt.Some?
    requires SameAuthority(LastAt(ws, n, a), LastAt(ws, n, b).binding, LastAt(ws, n, b).mode)
    ensures a == b
  {
    ReachableInTime(ws, es, n);
    assert OneLiveOf(HistoryAt(ws, n, a), HistoryAt(ws, n, b), a, b, ws[n].clock);
  }

  /** The consumption a pack was drafted for. */
  lemma PackConsumption(db: Db, flights: seq<Flight>, i: nat) returns (a: Approval)
    requires DraftInv(db, flights) && i < |db.packs|
    ensures a in db.approvals && ConsumptionRow(a)
    ensures a.id == db.packs[i].approvalId && a.version == db.packs[i].approvalVersion
    ensures db.packs[i].snapshot == a.binding.snapshot
  {
    assert PackBelongs(db, db.packs[i]);
    var m :| 0 <= m < |db.jobs| && db.jobs[m].approvalId == db.packs[i].approvalId
             && db.jobs[m].approvalVersion == db.packs[i].approvalVersion;
    assert Owned(db, db.jobs[m]);
    var o :| 0 <= o < |db.approvals| && ConsumptionRow(db.approvals[o])
             && db.approvals[o].id == db.packs[i].approvalId && db.approvals[o].version == db.packs[i].approvalVersion;
    a := db.approvals[o];
    assert Drafted(db, a);
    PacksForMembers(db.packs, a.id, a.version);
    assert db.packs[i] in PacksFor(db.packs, a.id, a.version);
  }

  lemma {:induction false} TwoPacksCounted(packs: seq<Pack>, i: nat, k: nat, id: nat, version: nat)
    requires i < k < |packs|
    requires packs[i].approvalId == id && packs[i].approvalVersion == version
    requires packs[k].approvalId == id && packs[k].approvalVersion == version
    ensures |PacksFor(packs, id, version)| >= 2
  {
    var n := |packs| - 1;
    if k < n {
      TwoPacksCounted(packs[..n], i, k, id, version);
    } else {
      PacksForMembers(packs[..n], id, version);
      assert packs[..n][i] == packs[i];
      assert packs[i] in PacksFor(packs[..n], id, version);
    }
  }

  /** With such a clock there is at most one draft pack for each binding and mode. */
  lemma AtMostOnePack(ws: seq<World>, es: seq<Event>, n: nat, i: nat, k: nat, a: Approval, b: Approval)
    requires TimelyRun(ws, es) && n < |ws| && i < k < |ws[n].db.packs|
    requires a in ws[n].db.approvals && b in ws[n].db.approvals
    requires a.id == ws[n].db.packs[i].approvalId && b.id == ws[n].db.packs[k].approvalId
    ensures !SameAuthority(a, b.binding, b.mode)
  {
    Reachable(ws, es, n);
    var db := ws[n].db;
    var x := PackConsumption(db, ws[n].flights, i);
    var y := PackConsumption(db, ws[n].flights, k);
    LastOfConsumed(db.approvals, x, a);
    LastOfConsumed(db.approvals, y, b);
    if SameAuthority(a, b.binding, b.mode) {
      AtMostOneConsumed(ws, es, n, a.id, b.id);
      OneConsumption(db.approvals, x, y);
      var o :| 0 <= o < |db.approvals| && db.approvals[o] == x;
      assert Drafted(db, db.approvals[o]);
      TwoPacksCounted(db.packs, i, k, x.id, x.version);
      assert false;
    }
  }

  lemma LastOfConsumed(t: seq<Approval>, x: Approval, a: Approval)
    requires TableInv(t) && x in t && a in t && x.id == a.id && ConsumptionRow(x)
    ensures var h := History(t, a.id);
            h != [] && LastOf(h).value.consumedAt.Some? && SameAuthority(LastOf(h).value, a.binding, a.mode)
  {
    var h := History(t, a.id);
    HistoryMembers(t, a.id);
    assert x in h && a in h;
    var i :| 0 <= i < |h| && h[i] == x;
    var k :| 0 <= k < |h| && h[k] == a;
    ConsumeKeyThird(h, i);
    HistoryFacts(h, i, |h| - 1);
    HistoryFacts(h, 0, k);
  }

  // ----- what has lapsed stays lapsed

  /** An approval that lapsed unconsumed, by revocation or expiry, is never consumed later. */
  lemma {:induction false} LapsedStaysLapsed(ws: seq<World>, es: seq<Event>, m: nat, n: nat, id: nat)
    requires TimelyRun(ws, es) && m <= n < |ws|
    requires HistoryAt(ws, m, id) != [] && !Live(LastAt(ws, m, id), ws[m].clock)
    ensures HistoryAt(ws, n, id) != [] && !Live(LastAt(ws, n, id), ws[n].clock)
    ensures LastAt(ws, n, id).consumedAt.None?
  {
    if m < n {
      LapsedStaysLapsed(ws, es, m, n - 1, id);
      Reachable(ws, es, n - 1);
      assert Timely(ws[n - 1], es[n - 1]);
      StepKeepsLapsed(ws[n - 1], es[n - 1], id);
    }
  }

  ghost predicate Lapsed(h: seq<Approval>, clock: int) { h != [] && !Live(LastOf(h).value, clock) }

  lemma StepKeepsLapsed(w: World, e: Event, id: nat)
    requires WorldInv(w) && Timely(w, e) && Lapsed(History(w.db.approvals, id), w.clock)
    ensures Lapsed(History(Step(w, e).db.approvals, id), Step(w, e).clock)
  {
    var w' := Step(w, e);
    StepEffects(w, e, id);
    if Instant(e).Some? {
      StepAdvances(w, e);
      if Live(LastOf(History(w'.db.approvals, id)).value, w'.clock) {
        LastStep(w.db.approvals, w'.db.approvals, id, w.clock, w'.clock);
      }
    }
  }

  // ----- version-bound consumption

  /** Stored versions of the inputs never go down, and a version's contents never change. */
  ghost predicate InputsGrow(db: Db, db': Db) {
    && OpportunitiesGrow(db.opportunities, db'.opportunities)
    && VersionsGrow(db.founders, db'.founders)
    && VersionsGrow(db.projects, db'.projects)
    && VersionsGrow(db.decisions, db'.decisions)
  }

  ghost predicate OpportunitiesGrow(m: map<nat, Opportunity>, m': map<nat, Opportunity>) {
    forall id :: id in m ==> id in m' && (m'[id] == m[id] || m[id].version < m'[id].version)
  }

  ghost predicate VersionsGrow(m: map<nat, nat>, m': map<nat, nat>) {
    forall id :: id in m ==> id in m' && m[id] <= m'[id]
  }

  lemma StepGrowsInputs(w: World, e: Event)
    requires WorldInv(w)
    ensures InputsGrow(w.db, Step(w, e).db)
  {
    match e
    case RequestCall(_, _, _, _, _, _) => RequestEffect(w, e, 0);
    case ConfirmCall(_, _, _, _, _, _) => ConfirmEffect(w, e, 0);
    case ValidateCall(_, _, _, _, _) => RevokingEffect(w, e, 0);
    case RevokeCall(_, _, _) => RevokingEffect(w, e, 0);
    case StartCall(svc, id, raw, now, oracle, inputs, jobId) =>
      StartMeaning(w.db, w.flights, svc, id, raw, now, oracle, inputs, jobId);
    case FinishCall(k, outcome) =>
      if k < |w.flights| { FinishKeepsInv(w.db, w.flights, k, outcome); }
    case _ =>
  }

  lemma InputsGrowOnward(a: Db, b: Db, c: Db)
    requires InputsGrow(a, b) && InputsGrow(b, c)
    ensures InputsGrow(a, c)
  {
    OpportunitiesGrowOnward(a.opportunities, b.opportunities, c.opportunities);
  }

  lemma OpportunitiesGrowOnward(a: map<nat, Opportunity>, b: map<nat, Opportunity>, c: map<nat, Opportunity>)
    requires OpportunitiesGrow(a, b) && OpportunitiesGrow(b, c)
    ensures OpportunitiesGrow(a, c)
  {
  }

  lemma {:induction false} InputsGrowOverRuns(ws: seq<World>, es: seq<Event>, m: nat, n: nat)
    requires Run(ws, es) && m <= n < |ws|
    ensures InputsGrow(ws[m].db, ws[n].db)
  {
    if m < n {
      InputsGrowOverRuns(ws, es, m, n - 1);
      InputsStep(ws, es, n - 1);
      InputsGrowOnward(ws[m].db, ws[n - 1].db, ws[n].db);
    } else {
      InputsStay(ws[m].db);
    }
  }

  lemma InputsStay(db: Db)
    ensures InputsGrow(db, db)
  {
  }

  lemma InputsStep(ws: seq<World>, es: seq<Event>, i: nat)
    requires Run(ws, es) && i < |es|
    ensures InputsGrow(ws[i].db, ws[i + 1].db)
  {
    Reachable(ws, es, i);
    StepGrowsInputs(ws[i], es[i]);
  }

  /** Versions that are the latest at two instants were the latest, with the same contents, in between. */
  lemma UpToDateBetween(ws: seq<World>, es: seq<Event>, i: nat, j: nat, k: nat, s: Snapshot)
    requires Run(ws, es) && i <= j <= k < |ws| && UpToDate(ws[i].db, s) && UpToDate(ws[k].db, s)
    ensures UpToDate(ws[j].db, s)
    ensures ws[j].db.opportunities[s.opportunityId] == ws[i].db.opportunities[s.opportunityId]
  {
    InputsGrowOverRuns(ws, es, i, j);
    InputsGrowOverRuns(ws, es, j, k);
  }

  /** Step `i` appended row `k` of the history, under current versions unless it is a revocation. */
  ghost predicate Appended(ws: seq<World>, es: seq<Event>, i: nat, id: nat, k: nat, a: Approval)
    requires i < |es| && |ws| == |es| + 1
  {
    && |HistoryAt(ws, i, id)| == k && |HistoryAt(ws, i + 1, id)| == k + 1 && HistoryAt(ws, i + 1, id)[k] == a
    && (!a.state.Revoked? ==> UpToDate(ws[i].db, a.binding.snapshot))
    && (k == 0 ==> DatedBy(ws[i].db, a))
    && Instant(es[i]) == Some(a.updatedAt)
  }

  lemma NewRow(ws: seq<World>, es: seq<Event>, i: nat, id: nat, k: nat)
    requires Run(ws, es) && i < |es|
    requires |HistoryAt(ws, i, id)| <= k < |HistoryAt(ws, i + 1, id)|
    ensures Appended(ws, es, i, id, k, HistoryAt(ws, i + 1, id)[k])
  {
    Reachable(ws, es, i);
    StepEffects(ws[i], es[i], id);
  }

  lemma NothingAtStart(ws: seq<World>, es: seq<Event>, id: nat)
    requires Run(ws, es)
    ensures |HistoryAt(ws, 0, id)| == 0
  {
  }

  lemma {:induction false} StepOfRow(ws: seq<World>, es: seq<Event>, n: nat, id: nat, k: nat) returns (i: nat)
    requires Run(ws, es) && n < |ws| && k < |HistoryAt(ws, n, id)|
    ensures i < n && Appended(ws, es, i, id, k, HistoryAt(ws, n, id)[k])
  {
    if n == 0 {
      NothingAtStart(ws, es, id);
      assert false;
    }
    if k < |HistoryAt(ws, n - 1, id)| {
      i := StepOfRow(ws, es, n - 1, id, k);
      HistoriesGrow(ws, es, n - 1, n, id);
    } else {
      i := n - 1;
      NewRow(ws, es, n - 1, id, k);
    }
  }

  /** The three steps behind a consumed approval and the worlds between them. */
  ghost predicate VersionBound(ws: seq<World>, id: nat, i: nat, j: nat, k: nat, n: nat)
    requires i < j < k < n < |ws| && |HistoryAt(ws, n, id)| >= 3
  {
    var h := HistoryAt(ws, n, id);
    var s := h[0].binding.snapshot;
    && |HistoryAt(ws, i, id)| == 0 && |HistoryAt(ws, i + 1, id)| == 1
    && |HistoryAt(ws, j, id)| == 1 && |HistoryAt(ws, j + 1, id)| == 2
    && |HistoryAt(ws, k, id)| == 2 && |HistoryAt(ws, k + 1, id)| == 3
    && UpToDate(ws[i].db, s)
    && (forall m :: i <= m <= k ==>
          UpToDate(ws[m].db, s) && ws[m].db.opportunities[s.opportunityId] == ws[i].db.opportunities[s.opportunityId])
    && DatedBy(ws[i].db, h[0])
    && h[0].createdAt <= h[1].updatedAt <= h[2].updatedAt < h[0].expiresAt
    && LastOf(h).value.consumedAt == Some(h[2].updatedAt)
  }

  /**
    A consumed approval was requested, confirmed and consumed in that order, while every version it
    names was the latest throughout; the consumption came after the confirmation and before both
    24 hours had passed and the deadline was reached.
   */
  lemma ConsumedIsVersionBound(ws: seq<World>, es: seq<Event>, n: nat, id: nat)
    requires Run(ws, es) && n < |ws|
    requires HistoryAt(ws, n, id) != [] && LastAt(ws, n, id).consumedAt.Some?
    ensures |HistoryAt(ws, n, id)| >= 3
    ensures exists i: nat, j: nat, k: nat :: i < j < k < n && VersionBound(ws, id, i, j, k, n)
  {
    Reachable(ws, es, n);
    var h := HistoryAt(ws, n, id);
    ConsumedThird(h, |h| - 1);
    LegalAt(h, 0);
    HistoryFacts(h, 0, 1);
    HistoryFacts(h, 0, 2);
    var i := StepOfRow(ws, es, n, id, 0);
    var j := StepOfRow(ws, es, n, id, 1);
    var k := StepOfRow(ws, es, n, id, 2);
    if j <= i { HistoriesGrow(ws, es, j, i, id); }
    if k <= j { HistoriesGrow(ws, es, k, j, id); }
    StepOrder(ws, es, id, i, j, 0);
    StepOrder(ws, es, id, j, k, 1);
    CurrentBetween(ws, es, i, k, h[0].binding.snapshot);
    assert VersionBound(ws, id, i, j, k, n);
  }

  lemma CurrentBetween(ws: seq<World>, es: seq<Event>, i: nat, k: nat, s: Snapshot)
    requires Run(ws, es) && i < k < |ws| && UpToDate(ws[i].db, s) && UpToDate(ws[k].db, s)
    ensures forall m :: i <= m <= k ==>
              UpToDate(ws[m].db, s) && ws[m].db.opportunities[s.opportunityId]
                  == ws[i].db.opportunities[s.opportunityId]
  {
    forall m | i <= m <= k
      ensures UpToDate(ws[m].db, s)
      ensures ws[m].db.opportunities[s.opportunityId] == ws[i].db.opportunities[s.opportunityId]
    {
      UpToDateBetween(ws, es, i, m, k, s);
    }
  }

  lemma StepOrder(ws: seq<World>, es: seq<Event>, id: nat, i: nat, j: nat, k: nat)
    requires Run(ws, es) && i + 1 < |ws| && j + 1 < |ws|
    requires |HistoryAt(ws, i + 1, id)| == k + 1 && |HistoryAt(ws, i, id)| == k
    requires |HistoryAt(ws, j, id)| == k + 1 && |HistoryAt(ws, j + 1, id)| == k + 2
    ensures i < j
  {
    if j <= i {
      HistoriesGrow(ws, es, j, i, id);
    }
  }

  // ----- drafting

  /**
    In every reachable store each consumption has one job, with versions {1} or {1, 2}, and a pack
    exactly when version 2 is completed; replaying the consuming key returns that state unchanged.
   */
  lemma EveryConsumptionIsDrafted(
    ws: seq<World>, es: seq<Event>, n: nat, a: Approval, svc: Service, now: int, oracle: Oracle,
    inputs: Result<Inputs, DraftReason>, jobId: nat)
    requires Run(ws, es) && n < |ws| && a in ws[n].db.approvals && ConsumptionRow(a)
    requires svc.actor == a.binding.actor && svc.mode == a.mode
    ensures DraftedOnce(ws[n].db, a)
    ensures var db := ws[n].db;
            var js := JobsFor(db.jobs, a.id, a.version);
            var ps := PacksFor(db.packs, a.id, a.version);
            Start(db, svc, a.id, a.key.value.raw, now, oracle, inputs, jobId)
            == (db, Ok(Replayed(DraftResult(js[|js| - 1], if ps != [] then Some(ps[0]) else None, true))))
  {
    Reachable(ws, es, n);
    ConsumptionIsDrafted(ws[n].db, ws[n].flights, a);
    ReplayReturnsDraft(ws[n].db, ws[n].flights, svc, a, now, oracle, inputs, jobId);
  }

  /** One job with versions {1} or {1, 2}; a pack, of the approved snapshot, exactly when version 2 is completed. */
  ghost predicate DraftedOnce(db: Db, a: Approval) {
    var js := JobsFor(db.jobs, a.id, a.version);
    var ps := PacksFor(db.packs, a.id, a.version);
    && 1 <= |js| <= 2 && |ps| <= 1
    && js[0].version == 1 && js[0].state.Running?
    && (|js| == 2 ==> js[1].id == js[0].id && js[1].version == 2 && (js[1].state.Completed? || js[1].state.Failed?))
    && (ps != [] <==> |js| == 2 && js[1].state.Completed?)
    && (ps != [] ==> ps[0].snapshot == a.binding.snapshot)
  }

  lemma ConsumptionIsDrafted(db: Db, flights: seq<Flight>, a: Approval)
    requires DraftInv(db, flights) && a in db.approvals && ConsumptionRow(a)
    ensures DraftedOnce(db, a)
  {
    var i :| 0 <= i < |db.approvals| && db.approvals[i] == a;
    assert Drafted(db, db.approvals[i]);
  }

  /**
   * With fresh identifiers the event is refused, if at all, by a rule of the service and never by a
   * constraint of the store.
   */
  ghost predicate OnlyRulesRefuse(w: World, e: Event) {
    match e
    case RequestCall(svc, b, deadline, now, newId, oracle) =>
      History(w.db.approvals, newId) == [] ==>
        var r := Request(w.db, svc, b, deadline, now, newId, oracle).1; r.Err? ==> r.error.Denied?
    case ConfirmCall(svc, id, raw, now, b, oracle) =>
      var r := Confirm(w.db, svc, id, raw, now, b, oracle).1; r.Err? ==> r.error.Denied?
    case ValidateCall(svc, id, now, b, oracle) =>
      var r := Validate(w.db, svc, id, b, now, oracle).1; r.Err? ==> r.error.Denied?
    case StartCall(svc, id, raw, now, oracle, inputs, jobId) =>
      (forall i :: 0 <= i < |w.db.jobs| ==> w.db.jobs[i].id != jobId) ==>
        var r := Start(w.db, svc, id, raw, now, oracle, inputs, jobId).1;
        r.Err? ==> r.error.Denied? || r.error.DraftDenied?
    case RevokeCall(svc, scope, now) =>
      var r := RevokeInvalid(w.db, svc, scope, now).1; r.Err? ==> r.error.ContractViolation?
    case FinishCall(k, outcome) =>
      k < |w.flights| ==>
        var r := Finish(w.db, w.flights[k], outcome).1;
        r.Ok? && (outcome.Authored? && PackIdFree(w.db, outcome.packId) ==> r.value.pack.Some?)
    case _ => true
  }

  /** No insert ever meets a uniqueness or reference constraint, as long as generated identifiers are new. */
  lemma ConstraintsNeverFire(ws: seq<World>, es: seq<Event>, n: nat)
    requires Run(ws, es) && n < |es|
    ensures OnlyRulesRefuse(ws[n], es[n])
  {
    Reachable(ws, es, n);
    var w := ws[n];
    match es[n]
    case RequestCall(svc, b, deadline, now, newId, oracle) =>
      if HistoryAt(ws, n, newId) == [] { RequestMeaning(w.db, svc, b, deadline, now, newId, oracle); }
    case ConfirmCall(svc, id, raw, now, b, oracle) => ConfirmMeaning(w.db, svc, id, raw, now, b, oracle);
    case ValidateCall(svc, id, now, b, oracle) => ValidateMeaning(w.db, svc, id, b, now, oracle);
    case StartCall(svc, id, raw, now, oracle, inputs, jobId) =>
      StartMeaning(w.db, w.flights, svc, id, raw, now, oracle, inputs, jobId);
    case RevokeCall(svc, scope, now) => RevokeMeaning(w.db, svc, scope, now);
    case FinishCall(k, outcome) =>
      if k < |w.flights| { FinishKeepsInv(w.db, w.flights, k, outcome); }
    case _ =>
  }

  /** Requests in a reachable store return the live approval of their authority whenever there is one. */
  lemma RequestsConvergeInRuns(
    ws: seq<World>, es: seq<Event>, n: nat, svc: Service, deadline: Option<Deadline>, now: int, newId: nat,
    oracle: Oracle, id: nat)
    requires TimelyRun(ws, es) && n < |ws| && ws[n].clock <= now
    requires HistoryAt(ws, n, id) != [] && Live(LastAt(ws, n, id), now) && LastAt(ws, n, id).mode == svc.mode
    ensures var (db', r) := Request(ws[n].db, svc, LastAt(ws, n, id).binding, deadline, now, newId, oracle);
            db' == ws[n].db && (r.Ok? ==> r.value == LastAt(ws, n, id)) && (r.Err? ==> r.error.Denied?)
  {
    ReachableInTime(ws, es, n);
    OneLiveLater(ws[n].db.approvals, ws[n].clock, now);
    RequestsConverge(ws[n].db, svc, deadline, now, newId, oracle, id);
  }
}
