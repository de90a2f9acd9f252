/** The invariant that ties consumptions, jobs, packs and unfinished authoring together. */
module DraftingHistory {
  import opened Wrappers
  import opened WorkspaceRecords
  import opened ApprovalRules
  import opened ApprovalHistory
  import opened ApprovalSteps
  import opened DraftingRules

  ghost predicate ConsumptionRow(a: Approval) { a.key.Some? && a.key.value.ConsumeKey? }

  /** `j` is the running job that the consumption `a` stored. */
  ghost predicate StartOf(a: Approval, j: Job)
    requires ConsumptionRow(a)
  {
    && j.sourceRun.Some?
    && j == StartedJob(a, a.mode, a.key.value.raw, a.updatedAt, j.id, Inputs(j.sourceRun.value, j.evidence))
  }

  ghost predicate CompletedBy(a: Approval, js: seq<Job>, ps: seq<Pack>)
    requires ConsumptionRow(a)
  {
    && |js| == 2 && StartOf(a, js[0])
    && js[1] == Terminal(js[0], a.key.value.raw, a.updatedAt, Completed, None)
    && |ps| == 1
    && ps[0] == CompletedPack(a, js[0], a.key.value.raw, a.updatedAt, ps[0].id)
  }

  ghost predicate FailedBy(a: Approval, js: seq<Job>, ps: seq<Pack>)
    requires ConsumptionRow(a)
  {
    && |js| == 2 && StartOf(a, js[0])
    && js[1].failure.Some?
    && js[1] == Terminal(js[0], a.key.value.raw, a.updatedAt, Failed, js[1].failure)
    && ps == []
  }

  ghost predicate RunningBy(a: Approval, js: seq<Job>, ps: seq<Pack>)
    requires ConsumptionRow(a)
  {
    |js| == 1 && StartOf(a, js[0]) && ps == []
  }

  /** A consumption has one job, with versions {1} or {1, 2}, and a pack exactly when version 2 completed. */
  ghost predicate Drafted(db: Db, a: Approval)
    requires ConsumptionRow(a)
  {
    var js := JobsFor(db.jobs, a.id, a.version);
    var ps := PacksFor(db.packs, a.id, a.version);
    RunningBy(a, js, ps) || FailedBy(a, js, ps) || CompletedBy(a, js, ps)
  }

  ghost predicate Owned(db: Db, j: Job) {
    exists i :: 0 <= i < |db.approvals| && ConsumptionRow(db.approvals[i])
                && db.approvals[i].id == j.approvalId && db.approvals[i].version == j.approvalVersion
  }

  /** The job of a pack is stored and drafts for the pack's approval. */
  ghost predicate PackBelongs(db: Db, p: Pack) {
    exists i :: 0 <= i < |db.jobs| && db.jobs[i].id == p.jobId && db.jobs[i].version == p.jobVersion
                && db.jobs[i].approvalId == p.approvalId && db.jobs[i].approvalVersion == p.approvalVersion
  }

  /** An authoring call whose job still has only its first version. */
  ghost predicate Airborne(db: Db, f: Flight) {
    && f.receipt in db.approvals && f.receipt.key == Some(ConsumeKey(f.raw)) && f.now == f.receipt.updatedAt
    && JobsFor(db.jobs, f.receipt.id, f.receipt.version) == [f.job]
  }

  ghost predicate DraftsMatch(db: Db) {
    forall i {:trigger Drafted(db, db.approvals[i])} ::
      0 <= i < |db.approvals| && ConsumptionRow(db.approvals[i]) ==> Drafted(db, db.approvals[i])
  }

  ghost predicate JobsOwned(db: Db) {
    forall i {:trigger Owned(db, db.jobs[i])} :: 0 <= i < |db.jobs| ==> Owned(db, db.jobs[i])
  }

  ghost predicate PacksBelong(db: Db) {
    forall i {:trigger PackBelongs(db, db.packs[i])} :: 0 <= i < |db.packs| ==> PackBelongs(db, db.packs[i])
  }

  ghost predicate SameDraft(a: Job, b: Job) {
    a.id == b.id ==> a.approvalId == b.approvalId && a.approvalVersion == b.approvalVersion
  }

  ghost predicate JobIdsAgree(db: Db) {
    forall i, k {:trigger SameDraft(db.jobs[i], db.jobs[k])} ::
      0 <= i < |db.jobs| && 0 <= k < |db.jobs| ==> SameDraft(db.jobs[i], db.jobs[k])
  }

  ghost predicate FlightsOpen(db: Db, flights: seq<Flight>) {
    && (forall i {:trigger Airborne(db, flights[i])} :: 0 <= i < |flights| ==> Airborne(db, flights[i]))
    && (forall i, k :: 0 <= i < k < |flights| ==> flights[i].receipt.id != flights[k].receipt.id)
  }

  ghost predicate DraftInv(db: Db, flights: seq<Flight>) {
    DraftsMatch(db) && JobsOwned(db) && PacksBelong(db) && JobIdsAgree(db) && FlightsOpen(db, flights)
  }

  // ----- tables

  lemma {:induction false} JobsForMembers(jobs: seq<Job>, id: nat, version: nat)
    ensures forall j :: j in JobsFor(jobs, id, version) <==>
              j in jobs && j.approvalId == id && j.approvalVersion == version
  {
    if jobs != [] {
      JobsForMembers(jobs[..|jobs| - 1], id, version);
      assert jobs == jobs[..|jobs| - 1] + [jobs[|jobs| - 1]];
    }
  }

  lemma {:induction false} PacksForMembers(packs: seq<Pack>, id: nat, version: nat)
    ensures forall p :: p in PacksFor(packs, id, version) <==>
              p in packs && p.approvalId == id && p.approvalVersion == version
  {
    if packs != [] {
      PacksForMembers(packs[..|packs| - 1], id, version);
      assert packs == packs[..|packs| - 1] + [packs[|packs| - 1]];
    }
  }

  lemma JobsForAppend(jobs: seq<Job>, j: Job, id: nat, version: nat)
    ensures JobsFor(jobs + [j], id, version) ==
            JobsFor(jobs, id, version) + if j.approvalId == id && j.approvalVersion == version then [j] else []
  {
    assert (jobs + [j])[..|jobs|] == jobs;
  }

  lemma PacksForAppend(packs: seq<Pack>, p: Pack, id: nat, version: nat)
    ensures PacksFor(packs + [p], id, version) ==
            PacksFor(packs, id, version) + if p.approvalId == id && p.approvalVersion == version then [p] else []
  {
    assert (packs + [p])[..|packs|] == packs;
  }

  /** An approval has at most one consumption row. */
  lemma OneConsumption(t: seq<Approval>, a: Approval, b: Approval)
    requires TableInv(t) && a in t && b in t && a.id == b.id && ConsumptionRow(a) && ConsumptionRow(b)
    ensures a == b
  {
    var h := History(t, a.id);
    HistoryMembers(t, a.id);
    assert a in h && b in h;
    var i :| 0 <= i < |h| && h[i] == a;
    var k :| 0 <= k < |h| && h[k] == b;
    ConsumeKeyThird(h, i);
    ConsumeKeyThird(h, k);
  }

  /** An approval whose last row is unconsumed has no consumption row. */
  lemma UnconsumedHasNone(t: seq<Approval>, a: Approval, id: nat)
    requires TableInv(t) && History(t, id) != [] && LastOf(History(t, id)).value.consumedAt.None?
    requires a in t && a.id == id
    ensures !ConsumptionRow(a)
  {
    var h := History(t, id);
    HistoryMembers(t, id);
    assert a in h;
    var k :| 0 <= k < |h| && h[k] == a;
    if ConsumptionRow(a) {
      ConsumeKeyThird(h, k);
      HistoryFacts(h, k, |h| - 1);
    }
  }

  lemma MoreApprovalsKeepOwners(db: Db, t: seq<Approval>)
    requires JobsOwned(db) && db.approvals <= t
    ensures JobsOwned(db.(approvals := t))
  {
    assert forall i :: 0 <= i < |db.approvals| ==> t[i] == db.approvals[i];
    forall i | 0 <= i < |db.jobs| ensures Owned(db.(approvals := t), db.jobs[i]) {
      assert Owned(db, db.jobs[i]);
    }
  }

  /** Rows that are not consumptions leave the drafting invariant as it is. */
  lemma OtherRowsKeepDrafts(db: Db, t: seq<Approval>, flights: seq<Flight>)
    requires DraftInv(db, flights) && db.approvals <= t
    requires forall a :: a in t && a !in db.approvals ==> !ConsumptionRow(a)
    ensures DraftInv(db.(approvals := t), flights)
  {
    var db' := db.(approvals := t);
    assert forall i :: 0 <= i < |db.approvals| ==> t[i] == db.approvals[i];
    forall i | 0 <= i < |t| && ConsumptionRow(t[i]) ensures Drafted(db', t[i]) {
      assert t[i] in t;
      var k :| 0 <= k < |db.approvals| && db.approvals[k] == t[i];
      assert Drafted(db, db.approvals[k]);
    }
    MoreApprovalsKeepOwners(db, t);
    forall i | 0 <= i < |db.packs| ensures PackBelongs(db', db.packs[i]) {
      assert PackBelongs(db, db.packs[i]);
    }
    forall i | 0 <= i < |flights| ensures Airborne(db', flights[i]) {
      assert Airborne(db, flights[i]);
    }
  }

  // ----- start

  lemma NoEarlierJob(db: Db, id: nat, i: nat)
    requires TableInv(db.approvals) && JobsOwned(db)
    requires History(db.approvals, id) != [] && LastOf(History(db.approvals, id)).value.consumedAt.None?
    requires i < |db.jobs|
    ensures db.jobs[i].approvalId != id
  {
    assert Owned(db, db.jobs[i]);
    var k :| 0 <= k < |db.approvals| && ConsumptionRow(db.approvals[k])
             && db.approvals[k].id == db.jobs[i].approvalId && db.approvals[k].version == db.jobs[i].approvalVersion;
    if db.jobs[i].approvalId == id {
      UnconsumedHasNone(db.approvals, db.approvals[k], id);
    }
  }

  lemma {:induction false} NoJobs(jobs: seq<Job>, id: nat, version: nat)
    requires forall i :: 0 <= i < |jobs| ==> jobs[i].approvalId != id
    ensures JobsFor(jobs, id, version) == []
  {
    if jobs != [] {
      NoJobs(jobs[..|jobs| - 1], id, version);
    }
  }

  lemma {:induction false} NoPacks(packs: seq<Pack>, id: nat, version: nat)
    requires forall i :: 0 <= i < |packs| ==> packs[i].approvalId != id
    ensures PacksFor(packs, id, version) == []
  {
    if packs != [] {
      NoPacks(packs[..|packs| - 1], id, version);
    }
  }

  /** The approval is unconsumed, so nothing was drafted or is being drafted for it. */
  lemma NothingDrafted(db: Db, flights: seq<Flight>, id: nat, version: nat)
    requires TableInv(db.approvals) && DraftInv(db, flights)
    requires History(db.approvals, id) != [] && LastOf(History(db.approvals, id)).value.consumedAt.None?
    ensures JobsFor(db.jobs, id, version) == []
    ensures PacksFor(db.packs, id, version) == []
    ensures forall i :: 0 <= i < |flights| ==> flights[i].receipt.id != id
    ensures forall i :: 0 <= i < |db.jobs| ==> db.jobs[i].approvalId != id
  {
    forall i | 0 <= i < |db.jobs| ensures db.jobs[i].approvalId != id {
      NoEarlierJob(db, id, i);
    }
    NoJobs(db.jobs, id, version);
    forall k | 0 <= k < |db.packs| ensures db.packs[k].approvalId != id {
      assert PackBelongs(db, db.packs[k]);
    }
    NoPacks(db.packs, id, version);
    forall i | 0 <= i < |flights| ensures flights[i].receipt.id != id {
      assert Airborne(db, flights[i]);
      if flights[i].receipt.id == id {
        UnconsumedHasNone(db.approvals, flights[i].receipt, id);
      }
    }
  }

  /** A consumption of an unconsumed approval together with its running job. */
  ghost predicate FreshStart(db: Db, flights: seq<Flight>, a: Approval, j: Job) {
    && TableInv(db.approvals) && DraftInv(db, flights)
    && History(db.approvals, a.id) != [] && LastOf(History(db.approvals, a.id)).value.consumedAt.None?
    && ConsumptionRow(a) && StartOf(a, j)
  }

  function AfterStart(db: Db, a: Approval, j: Job): Db {
    db.(approvals := db.approvals + [a], jobs := db.jobs + [j])
  }

  /** The running job can be stored unless its identifier is taken. */
  lemma StartedJobStored(db: Db, flights: seq<Flight>, a: Approval, j: Job)
    requires FreshStart(db, flights, a, j)
    ensures var r := PutJob(db.(approvals := db.approvals + [a]), j);
            if forall i :: 0 <= i < |db.jobs| ==> (db.jobs[i].id, db.jobs[i].version) != (j.id, 1)
            then r == Ok(AfterStart(db, a, j)) else r == Err(UniqueViolation)
  {
    NothingDrafted(db, flights, a.id, a.version);
    var t := db.approvals + [a];
    assert t[|db.approvals|] == a;
    assert HasApproval(t, a.id, a.version);
  }

  lemma StartKeepsDrafts(db: Db, flights: seq<Flight>, a: Approval, j: Job)
    requires FreshStart(db, flights, a, j)
    ensures DraftsMatch(AfterStart(db, a, j))
  {
    var db' := AfterStart(db, a, j);
    NothingDrafted(db, flights, a.id, a.version);
    forall i | 0 <= i < |db'.approvals| && ConsumptionRow(db'.approvals[i])
      ensures Drafted(db', db'.approvals[i])
    {
      var c := db'.approvals[i];
      JobsForAppend(db.jobs, j, c.id, c.version);
      if i < |db.approvals| {
        assert c == db.approvals[i];
        assert Drafted(db, c);
        if c.id == a.id {
          UnconsumedHasNone(db.approvals, c, a.id);
        }
      }
    }
  }

  lemma AppendedJobOwned(db: Db, j: Job)
    requires JobsOwned(db) && Owned(db, j)
    ensures JobsOwned(db.(jobs := db.jobs + [j]))
  {
    var db' := db.(jobs := db.jobs + [j]);
    forall i | 0 <= i < |db'.jobs| ensures Owned(db', db'.jobs[i]) {
      if i < |db.jobs| { assert Owned(db, db.jobs[i]); } else { assert Owned(db, j); }
    }
  }

  lemma AppendedJobKeepsPacks(db: Db, j: Job)
    requires PacksBelong(db)
    ensures PacksBelong(db.(jobs := db.jobs + [j]))
  {
    var db' := db.(jobs := db.jobs + [j]);
    assert forall i :: 0 <= i < |db.jobs| ==> db'.jobs[i] == db.jobs[i];
    forall i | 0 <= i < |db.packs| ensures PackBelongs(db', db.packs[i]) {
      assert PackBelongs(db, db.packs[i]);
    }
  }

  lemma StartKeepsFlights(db: Db, flights: seq<Flight>, a: Approval, j: Job)
    requires FreshStart(db, flights, a, j)
    ensures FlightsOpen(AfterStart(db, a, j), flights + [Flight(j, a, a.key.value.raw, a.updatedAt)])
  {
    var db' := AfterStart(db, a, j);
    var f := Flight(j, a, a.key.value.raw, a.updatedAt);
    NothingDrafted(db, flights, a.id, a.version);
    forall i | 0 <= i < |flights + [f]|
      ensures Airborne(db', (flights + [f])[i])
    {
      var g := (flights + [f])[i];
      JobsForAppend(db.jobs, j, g.receipt.id, g.receipt.version);
      if i < |flights| {
        assert Airborne(db, flights[i]);
      } else {
        assert db'.approvals[|db.approvals|] == a;
      }
    }
  }

  /** Storing a fresh consumption and its job keeps the invariant and opens one authoring call. */
  lemma StartKeepsInv(db: Db, flights: seq<Flight>, a: Approval, j: Job)
    requires FreshStart(db, flights, a, j)
    requires forall i :: 0 <= i < |db.jobs| ==> (db.jobs[i].id, db.jobs[i].version) != (j.id, 1)
    ensures DraftInv(AfterStart(db, a, j), flights + [Flight(j, a, a.key.value.raw, a.updatedAt)])
  {
    var t := db.approvals + [a];
    var db1 := db.(approvals := t);
    StartKeepsDrafts(db, flights, a, j);
    StartKeepsFlights(db, flights, a, j);
    MoreApprovalsKeepOwners(db, t);
    assert Owned(db1, j) by { assert t[|db.approvals|] == a; }
    AppendedJobOwned(db1, j);
    assert PacksBelong(db1) by {
      forall i | 0 <= i < |db.packs| ensures PackBelongs(db1, db.packs[i]) { assert PackBelongs(db, db.packs[i]); }
    }
    AppendedJobKeepsPacks(db1, j);
    FreshJobIdAgrees(db, flights, j);
  }

  lemma FreshJobIdAgrees(db: Db, flights: seq<Flight>, j: Job)
    requires DraftInv(db, flights)
    requires forall i :: 0 <= i < |db.jobs| ==> (db.jobs[i].id, db.jobs[i].version) != (j.id, 1)
    ensures JobIdsAgree(db.(jobs := db.jobs + [j]))
  {
    var db' := db.(jobs := db.jobs + [j]);
    forall i | 0 <= i < |db.jobs| ensures db.jobs[i].id != j.id {
      if db.jobs[i].id == j.id {
        FirstVersionStored(db, flights, i);
      }
    }
    forall i, k | 0 <= i < |db'.jobs| && 0 <= k < |db'.jobs|
      ensures SameDraft(db'.jobs[i], db'.jobs[k])
    {
      if i < |db.jobs| && k < |db.jobs| { assert SameDraft(db.jobs[i], db.jobs[k]); }
    }
  }

  lemma FirstOfDraft(db: Db, a: Approval) returns (k: nat)
    requires DraftsMatch(db) && a in db.approvals && ConsumptionRow(a)
    ensures JobsFor(db.jobs, a.id, a.version) != []
    ensures k < |db.jobs| && db.jobs[k] == JobsFor(db.jobs, a.id, a.version)[0] && StartOf(a, db.jobs[k])
  {
    var o :| 0 <= o < |db.approvals| && db.approvals[o] == a;
    assert Drafted(db, db.approvals[o]);
    var js := JobsFor(db.jobs, a.id, a.version);
    JobsForMembers(db.jobs, a.id, a.version);
    assert js[0] in js;
    k :| 0 <= k < |db.jobs| && db.jobs[k] == js[0];
  }

  lemma OneIdPerDraft(db: Db, a: Approval, i: nat)
    requires DraftsMatch(db) && a in db.approvals && ConsumptionRow(a) && i < |db.jobs|
    requires db.jobs[i].approvalId == a.id && db.jobs[i].approvalVersion == a.version
    ensures JobsFor(db.jobs, a.id, a.version) != []
    ensures db.jobs[i].id == JobsFor(db.jobs, a.id, a.version)[0].id
  {
    var o :| 0 <= o < |db.approvals| && db.approvals[o] == a;
    assert Drafted(db, db.approvals[o]);
    JobsForMembers(db.jobs, a.id, a.version);
    assert db.jobs[i] in JobsFor(db.jobs, a.id, a.version);
  }

  /** Every stored job has its first version in the table. */
  lemma FirstVersionStored(db: Db, flights: seq<Flight>, i: nat)
    requires DraftInv(db, flights) && i < |db.jobs|
    ensures exists k :: 0 <= k < |db.jobs| && db.jobs[k].id == db.jobs[i].id && db.jobs[k].version == 1
  {
    var j := db.jobs[i];
    assert Owned(db, j);
    var o :| 0 <= o < |db.approvals| && ConsumptionRow(db.approvals[o])
             && db.approvals[o].id == j.approvalId && db.approvals[o].version == j.approvalVersion;
    var k := FirstOfDraft(db, db.approvals[o]);
    assert SameDraft(db.jobs[i], db.jobs[k]);
    OneIdPerDraft(db, db.approvals[o], i);
  }

  // ----- finish

  /** The running job of a flight is the only job of its approval. */
  lemma OnlyJob(db: Db, flights: seq<Flight>, f: Flight, i: nat)
    requires TableInv(db.approvals) && DraftInv(db, flights) && f in flights && i < |db.jobs|
    requires db.jobs[i].approvalId == f.receipt.id || db.jobs[i].id == f.job.id
    ensures db.jobs[i] == f.job
    ensures ConsumptionRow(f.receipt) && StartOf(f.receipt, f.job)
  {
    assert Airborne(db, f);
    AirborneShape(db, f);
    var a := f.receipt;
    var js := JobsFor(db.jobs, a.id, a.version);
    JobsForMembers(db.jobs, a.id, a.version);
    assert f.job in js;
    var m :| 0 <= m < |db.jobs| && db.jobs[m] == f.job;
    assert SameDraft(db.jobs[m], db.jobs[i]);
    assert Owned(db, db.jobs[i]);
    var o :| 0 <= o < |db.approvals| && ConsumptionRow(db.approvals[o])
             && db.approvals[o].id == db.jobs[i].approvalId && db.approvals[o].version == db.jobs[i].approvalVersion;
    OneConsumption(db.approvals, a, db.approvals[o]);
    assert Drafted(db, db.approvals[o]);
    assert db.jobs[i] in js;
  }

  /** The outcome row of a flight meets no constraint. */
  lemma OutcomeStored(db: Db, flights: seq<Flight>, f: Flight, state: JobState, failure: Option<JobFailure>)
    requires TableInv(db.approvals) && DraftInv(db, flights) && f in flights
    ensures var j := Terminal(f.job, f.raw, f.now, state, failure);
            PutJob(db, j) == Ok(db.(jobs := db.jobs + [j]))
    ensures ConsumptionRow(f.receipt) && StartOf(f.receipt, f.job)
  {
    var j := Terminal(f.job, f.raw, f.now, state, failure);
    assert Airborne(db, f);
    JobsForMembers(db.jobs, f.receipt.id, f.receipt.version);
    assert f.job in JobsFor(db.jobs, f.receipt.id, f.receipt.version);
    var m :| 0 <= m < |db.jobs| && db.jobs[m] == f.job;
    OnlyJob(db, flights, f, m);
    forall i | 0 <= i < |db.jobs|
      ensures (db.jobs[i].id, db.jobs[i].version) != (j.id, j.version)
      ensures (db.jobs[i].approvalId, db.jobs[i].key) != (j.approvalId, j.key)
    {
      if db.jobs[i].id == f.job.id || db.jobs[i].approvalId == f.receipt.id {
        OnlyJob(db, flights, f, i);
      }
    }
    var o :| 0 <= o < |db.approvals| && db.approvals[o] == f.receipt;
    assert HasApproval(db.approvals, j.approvalId, j.approvalVersion);
  }

  function Without(flights: seq<Flight>, k: nat): seq<Flight>
    requires k < |flights|
  {
    flights[..k] + flights[k + 1..]
  }

  /** Dropping a flight, as a crash does, changes no table and keeps the invariant. */
  lemma CrashKeepsInv(db: Db, flights: seq<Flight>, k: nat)
    requires DraftInv(db, flights) && k < |flights|
    ensures DraftInv(db, Without(flights, k))
  {
    var rest := Without(flights, k);
    forall i | 0 <= i < |rest| ensures Airborne(db, rest[i]) {
      assert rest[i] == flights[if i < k then i else i + 1];
    }
  }

  /** After the outcome of flight `k`, the drafts of every consumption match again. */
  lemma OutcomeKeepsOthers(db: Db, flights: seq<Flight>, k: nat, j: Job, c: Approval)
    requires TableInv(db.approvals) && DraftInv(db, flights) && k < |flights|
    requires j.approvalId == flights[k].receipt.id && j.approvalVersion == flights[k].receipt.version
    requires c in db.approvals && ConsumptionRow(c) && c != flights[k].receipt
    ensures c.id != flights[k].receipt.id
    ensures JobsFor(db.jobs + [j], c.id, c.version) == JobsFor(db.jobs, c.id, c.version)
  {
    assert Airborne(db, flights[k]);
    JobsForAppend(db.jobs, j, c.id, c.version);
    if c.id == flights[k].receipt.id {
      OneConsumption(db.approvals, c, flights[k].receipt);
    }
  }

  lemma OutcomeKeepsFlights(db: Db, flights: seq<Flight>, k: nat, j: Job)
    requires TableInv(db.approvals) && DraftInv(db, flights) && k < |flights|
    requires j.approvalId == flights[k].receipt.id && j.approvalVersion == flights[k].receipt.version
    ensures FlightsOpen(db.(jobs := db.jobs + [j]), Without(flights, k))
  {
    var rest := Without(flights, k);
    var db' := db.(jobs := db.jobs + [j]);
    forall i | 0 <= i < |rest| ensures Airborne(db', rest[i]) {
      var m := if i < k then i else i + 1;
      assert rest[i] == flights[m];
      assert Airborne(db, flights[m]);
      JobsForAppend(db.jobs, j, rest[i].receipt.id, rest[i].receipt.version);
    }
  }

  lemma OutcomeKeepsIds(db: Db, flights: seq<Flight>, f: Flight, j: Job)
    requires TableInv(db.approvals) && DraftInv(db, flights) && f in flights && j.id == f.job.id
    requires j.approvalId == f.job.approvalId && j.approvalVersion == f.job.approvalVersion
    ensures JobIdsAgree(db.(jobs := db.jobs + [j]))
  {
    var db' := db.(jobs := db.jobs + [j]);
    forall i, m | 0 <= i < |db'.jobs| && 0 <= m < |db'.jobs|
      ensures SameDraft(db'.jobs[i], db'.jobs[m])
    {
      if i < |db.jobs| && m < |db.jobs| { assert SameDraft(db.jobs[i], db.jobs[m]); }
      if i < |db.jobs| && db.jobs[i].id == f.job.id { OnlyJob(db, flights, f, i); }
      if m < |db.jobs| && db.jobs[m].id == f.job.id { OnlyJob(db, flights, f, m); }
    }
  }

  /** The parts of the invariant that an outcome row keeps whatever the outcome is. */
  lemma OutcomeKeepsRest(db: Db, flights: seq<Flight>, k: nat, state: JobState, failure: Option<JobFailure>)
    requires TableInv(db.approvals) && DraftInv(db, flights) && k < |flights|
    ensures var f := flights[k];
            var db' := db.(jobs := db.jobs + [Terminal(f.job, f.raw, f.now, state, failure)]);
            JobsOwned(db') && PacksBelong(db') && JobIdsAgree(db') && FlightsOpen(db', Without(flights, k))
  {
    var f := flights[k];
    var j := Terminal(f.job, f.raw, f.now, state, failure);
    OutcomeStored(db, flights, f, state, failure);
    assert Airborne(db, f);
    var o :| 0 <= o < |db.approvals| && db.approvals[o] == f.receipt;
    assert Owned(db, j);
    AppendedJobOwned(db, j);
    AppendedJobKeepsPacks(db, j);
    OutcomeKeepsIds(db, flights, f, j);
    OutcomeKeepsFlights(db, flights, k, j);
  }

  lemma AirborneShape(db: Db, f: Flight)
    requires DraftsMatch(db) && Airborne(db, f)
    ensures ConsumptionRow(f.receipt) && StartOf(f.receipt, f.job)
    ensures PacksFor(db.packs, f.receipt.id, f.receipt.version) == []
  {
    var o :| 0 <= o < |db.approvals| && db.approvals[o] == f.receipt;
    assert Drafted(db, db.approvals[o]);
  }

  /** A failure receipt closes the flight. */
  lemma FailureKeepsInv(db: Db, flights: seq<Flight>, k: nat, failure: JobFailure)
    requires TableInv(db.approvals) && DraftInv(db, flights) && k < |flights|
    ensures var f := flights[k];
            var j := Terminal(f.job, f.raw, f.now, Failed, Some(failure));
            var (db', r) := RecordFailure(db, f, failure);
            && r == Ok(DraftResult(j, None, false)) && db' == db.(jobs := db.jobs + [j])
            && DraftInv(db', Without(flights, k))
  {
    var f := flights[k];
    var j := Terminal(f.job, f.raw, f.now, Failed, Some(failure));
    var db' := db.(jobs := db.jobs + [j]);
    assert Airborne(db, f);
    OutcomeStored(db, flights, f, Failed, Some(failure));
    OutcomeKeepsRest(db, flights, k, Failed, Some(failure));
    AirborneShape(db, f);
    forall i | 0 <= i < |db.approvals| && ConsumptionRow(db.approvals[i])
      ensures Drafted(db', db.approvals[i])
    {
      var c := db.approvals[i];
      assert Drafted(db, c);
      if c != f.receipt {
        OutcomeKeepsOthers(db, flights, k, j, c);
      } else {
        JobsForAppend(db.jobs, j, c.id, c.version);
      }
    }
  }

  function AfterPack(db: Db, f: Flight, packId: nat): Db {
    db.(jobs := db.jobs + [Terminal(f.job, f.raw, f.now, Completed, None)],
        packs := db.packs + [CompletedPack(f.receipt, f.job, f.raw, f.now, packId)])
  }

  /** The pack of a completed flight is refused only when its identifier is taken. */
  lemma PackStored(db: Db, flights: seq<Flight>, k: nat, packId: nat)
    requires TableInv(db.approvals) && DraftInv(db, flights) && k < |flights|
    ensures var f := flights[k];
            var withJob := db.(jobs := db.jobs + [Terminal(f.job, f.raw, f.now, Completed, None)]);
            var r := PutPack(withJob, CompletedPack(f.receipt, f.job, f.raw, f.now, packId));
            if forall i :: 0 <= i < |db.packs| ==> (db.packs[i].id, db.packs[i].version) != (packId, 1)
            then r == Ok(AfterPack(db, f, packId)) else r == Err(UniqueViolation)
  {
    var f := flights[k];
    var j := Terminal(f.job, f.raw, f.now, Completed, None);
    var withJob := db.(jobs := db.jobs + [j]);
    var p := CompletedPack(f.receipt, f.job, f.raw, f.now, packId);
    assert Airborne(db, f);
    AirborneShape(db, f);
    assert withJob.jobs[|db.jobs|] == j;
    var o :| 0 <= o < |db.approvals| && db.approvals[o] == f.receipt;
    assert PackGraph(withJob, p);
    forall i | 0 <= i < |db.packs|
      ensures (db.packs[i].jobId, db.packs[i].jobVersion) != (p.jobId, p.jobVersion)
    {
      assert PackBelongs(db, db.packs[i]);
      var m :| 0 <= m < |db.jobs| && db.jobs[m].id == db.packs[i].jobId && db.jobs[m].version == db.packs[i].jobVersion;
      if db.jobs[m].id == f.job.id {
        OnlyJob(db, flights, f, m);
      }
    }
  }

  lemma CompletionDrafts(db: Db, flights: seq<Flight>, k: nat, packId: nat)
    requires TableInv(db.approvals) && DraftInv(db, flights) && k < |flights|
    ensures DraftsMatch(AfterPack(db, flights[k], packId))
  {
    var f := flights[k];
    var db' := AfterPack(db, f, packId);
    assert Airborne(db, f);
    AirborneShape(db, f);
    forall i | 0 <= i < |db.approvals| && ConsumptionRow(db.approvals[i])
      ensures Drafted(db', db.approvals[i])
    {
      CompletionDraft(db, flights, k, packId, db.approvals[i]);
    }
  }

  lemma CompletionDraft(db: Db, flights: seq<Flight>, k: nat, packId: nat, c: Approval)
    requires TableInv(db.approvals) && DraftInv(db, flights) && k < |flights| && c in db.approvals && ConsumptionRow(c)
    ensures Drafted(AfterPack(db, flights[k], packId), c)
  {
    var f := flights[k];
    var j := Terminal(f.job, f.raw, f.now, Completed, None);
    var p := CompletedPack(f.receipt, f.job, f.raw, f.now, packId);
    var o :| 0 <= o < |db.approvals| && db.approvals[o] == c;
    assert Drafted(db, db.approvals[o]);
    assert Airborne(db, f);
    AirborneShape(db, f);
    PacksForAppend(db.packs, p, c.id, c.version);
    if c != f.receipt {
      OutcomeKeepsOthers(db, flights, k, j, c);
    } else {
      CompletedReceipt(db, f, packId);
    }
  }

  lemma CompletedReceipt(db: Db, f: Flight, packId: nat)
    requires Airborne(db, f) && ConsumptionRow(f.receipt) && StartOf(f.receipt, f.job)
    requires PacksFor(db.packs, f.receipt.id, f.receipt.version) == []
    ensures Drafted(AfterPack(db, f, packId), f.receipt)
  {
    var c := f.receipt;
    JobsForAppend(db.jobs, Terminal(f.job, f.raw, f.now, Completed, None), c.id, c.version);
    PacksForAppend(db.packs, CompletedPack(f.receipt, f.job, f.raw, f.now, packId), c.id, c.version);
  }

  lemma CompletionPacks(db: Db, f: Flight, packId: nat)
    requires PacksBelong(db) && f.job.approvalId == f.receipt.id && f.job.approvalVersion == f.receipt.version
    ensures PacksBelong(AfterPack(db, f, packId))
  {
    var db' := AfterPack(db, f, packId);
    var j := Terminal(f.job, f.raw, f.now, Completed, None);
    AppendedJobKeepsPacks(db, j);
    forall i | 0 <= i < |db'.packs| ensures PackBelongs(db', db'.packs[i]) {
      if i < |db.packs| {
        assert PackBelongs(db.(jobs := db.jobs + [j]), db.packs[i]);
      } else {
        assert db'.jobs[|db.jobs|] == j;
      }
    }
  }

  /** Completion stores the outcome and the pack together and closes the flight. */
  lemma CompletionKeepsInv(db: Db, flights: seq<Flight>, k: nat, packId: nat)
    requires TableInv(db.approvals) && DraftInv(db, flights) && k < |flights|
    ensures DraftInv(AfterPack(db, flights[k], packId), Without(flights, k))
  {
    var f := flights[k];
    var db1 := db.(jobs := db.jobs + [Terminal(f.job, f.raw, f.now, Completed, None)]);
    var db' := AfterPack(db, f, packId);
    assert Airborne(db, f);
    AirborneShape(db, f);
    OutcomeKeepsRest(db, flights, k, Completed, None);
    CompletionDrafts(db, flights, k, packId);
    CompletionPacks(db, f, packId);
    forall i | 0 <= i < |db'.jobs| ensures Owned(db', db'.jobs[i]) {
      assert Owned(db1, db1.jobs[i]);
    }
    forall i | 0 <= i < |Without(flights, k)| ensures Airborne(db', Without(flights, k)[i]) {
      assert Airborne(db1, Without(flights, k)[i]);
    }
  }

  /** A pack identifier that no stored pack has. */
  ghost predicate PackIdFree(db: Db, packId: nat) {
    forall i :: 0 <= i < |db.packs| ==> (db.packs[i].id, db.packs[i].version) != (packId, 1)
  }

  lemma AuthoredOutcome(db: Db, flights: seq<Flight>, k: nat, packId: nat)
    requires TableInv(db.approvals) && DraftInv(db, flights) && k < |flights|
    ensures var f := flights[k];
            var completed := Terminal(f.job, f.raw, f.now, Completed, None);
            Finish(db, f, Authored(packId)) ==
              if PackIdFree(db, packId)
              then (AfterPack(db, f, packId),
                    Ok(DraftResult(completed, Some(CompletedPack(f.receipt, f.job, f.raw, f.now, packId)), false)))
              else RecordFailure(db, f, PackPersistenceFailed)
  {
    assert flights[k] in flights;
    OutcomeStored(db, flights, flights[k], Completed, None);
    PackStored(db, flights, k, packId);
  }

  /**
    Whatever happens while authoring, an outcome is recorded, the flight closes and the invariant
    holds. The outcome is a completion exactly when a pack was authored under a free identifier.
   */
  lemma FinishKeepsInv(db: Db, flights: seq<Flight>, k: nat, outcome: Authoring)
    requires TableInv(db.approvals) && DraftInv(db, flights) && k < |flights|
    ensures var (db', r) := Finish(db, flights[k], outcome);
            && r.Ok? && !r.value.replayed && r.value.job.version == 2
            && (r.value.job.state.Completed? <==> outcome.Authored? && PackIdFree(db, outcome.packId))
            && (r.value.pack.Some? <==> r.value.job.state.Completed?)
            && db' == db.(jobs := db'.jobs, packs := db'.packs)
            && DraftInv(db', Without(flights, k))
  {
    match outcome
    case AuthorRaises => FailureKeepsInv(db, flights, k, AuthorFailed);
    case PackRefused => FailureKeepsInv(db, flights, k, PackPersistenceFailed);
    case Authored(packId) =>
      AuthoredOutcome(db, flights, k, packId);
      if PackIdFree(db, packId) {
        CompletionKeepsInv(db, flights, k, packId);
      } else {
        FailureKeepsInv(db, flights, k, PackPersistenceFailed);
      }
  }

  // ----- replay

  lemma InitialOfDraft(a: Approval, js: seq<Job>, raw: string)
    requires ConsumptionRow(a) && a.key.value.raw == raw
    requires 1 <= |js| <= 2 && StartOf(a, js[0])
    requires |js| == 2 ==> js[1].version == 2
    ensures InitialJobs(js, raw) == [js[0]]
    ensures GreatestVersion(js) == js[|js| - 1]
  {
    assert js[..1] == [js[0]];
    assert InitialJobs(js[..1], raw) == [js[0]] by { assert js[..1][..0] == []; }
  }

  /** The stored outcome of a consumption is accepted as consistent. */
  lemma ExistingAccepts(db: Db, a: Approval)
    requires ConsumptionRow(a) && Drafted(db, a)
    ensures var js := JobsFor(db.jobs, a.id, a.version);
            var ps := PacksFor(db.packs, a.id, a.version);
            Existing(db, a, a.key.value.raw) ==
              Ok(DraftResult(js[|js| - 1], if ps != [] then Some(ps[0]) else None, true))
  {
    OutcomeOf(a, JobsFor(db.jobs, a.id, a.version), PacksFor(db.packs, a.id, a.version));
  }

  lemma OneUp(js: seq<Job>)
    requires 1 <= |js| <= 2 && js[0].version == 1 && (|js| == 2 ==> js[1].version == 2)
    ensures VersionsOneUp(js)
  {
    forall v | 1 <= v <= |js| ensures HasVersion(js, v) {
      assert js[v - 1].version == v;
    }
  }

  lemma OutcomeOf(a: Approval, js: seq<Job>, ps: seq<Pack>)
    requires ConsumptionRow(a) && (RunningBy(a, js, ps) || FailedBy(a, js, ps) || CompletedBy(a, js, ps))
    ensures Outcome(js, ps, a, a.key.value.raw)
        == Ok(DraftResult(js[|js| - 1], if ps != [] then Some(ps[0]) else None, true))
  {
    InitialOfDraft(a, js, a.key.value.raw);
    OneUp(js);
    forall j | j in js ensures j.id == js[0].id {
    }
  }

  /** Replaying the key that consumed an approval returns its draft and writes nothing, at any later time. */
  lemma ReplayReturnsDraft(
    db: Db, flights: seq<Flight>, svc: Service, a: Approval, now: int, oracle: Oracle,
    inputs: Result<Inputs, DraftReason>, jobId: nat)
    requires TableInv(db.approvals) && DraftInv(db, flights)
    requires a in db.approvals && ConsumptionRow(a) && a.binding.actor == svc.actor && a.mode == svc.mode
    ensures JobsFor(db.jobs, a.id, a.version) != []
    ensures var js := JobsFor(db.jobs, a.id, a.version);
            var ps := PacksFor(db.packs, a.id, a.version);
            var (db', r) := Start(db, svc, a.id, a.key.value.raw, now, oracle, inputs, jobId);
            && db' == db
            && r == Ok(Replayed(DraftResult(js[|js| - 1], if ps != [] then Some(ps[0]) else None, true)))
  {
    var i :| 0 <= i < |db.approvals| && db.approvals[i] == a;
    assert Drafted(db, db.approvals[i]);
    ExistingAccepts(db, a);
    ReceiptFound(db.approvals, a, ConsumeKey(a.key.value.raw));
    LatestHasBinding(db.approvals, a);
  }

  lemma LatestHasBinding(t: seq<Approval>, a: Approval)
    requires TableInv(t) && a in t
    ensures Latest(t, a.id).Some? && Latest(t, a.id).value.binding == a.binding
  {
    var h := History(t, a.id);
    HistoryMembers(t, a.id);
    assert a in h;
    LatestIsLast(t, a.id);
    var k :| 0 <= k < |h| && h[k] == a;
    HistoryFacts(h, 0, k);
    HistoryFacts(h, 0, |h| - 1);
  }
}
