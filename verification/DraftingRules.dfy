/** src/qualor/workspace/drafting.py: consume and start, author without a transaction, then finish. */
module DraftingRules {
  import opened Wrappers
  import opened WorkspaceRecords
  import opened ApprovalRules

  // ----- the job and pack tables

  predicate JobUnique(jobs: seq<Job>, j: Job) {
    && (forall i :: 0 <= i < |jobs| ==> (jobs[i].id, jobs[i].version) != (j.id, j.version))
    && (forall i :: 0 <= i < |jobs| ==> (jobs[i].approvalId, jobs[i].key) != (j.approvalId, j.key))
  }

  predicate HasApproval(t: seq<Approval>, id: nat, version: nat) {
    exists i :: 0 <= i < |t| && t[i].id == id && t[i].version == version
  }

  function PutJob(db: Db, j: Job): Result<Db, Error> {
    if j.updatedAt < j.createdAt || j.version == 0 then Err(ContractViolation)
    else if !JobUnique(db.jobs, j) then Err(UniqueViolation)
    else if !HasApproval(db.approvals, j.approvalId, j.approvalVersion) then Err(MissingReference)
    else Ok(db.(jobs := db.jobs + [j]))
  }

  /** The rows of one approval version, in insertion order. */
  function JobsFor(jobs: seq<Job>, id: nat, version: nat): seq<Job> {
    if jobs == [] then []
    else
      var n := |jobs| - 1;
      JobsFor(jobs[..n], id, version)
      + if jobs[n].approvalId == id && jobs[n].approvalVersion == version then [jobs[n]] else []
  }

  function PacksFor(packs: seq<Pack>, id: nat, version: nat): seq<Pack> {
    if packs == [] then []
    else
      var n := |packs| - 1;
      PacksFor(packs[..n], id, version)
      + if packs[n].approvalId == id && packs[n].approvalVersion == version then [packs[n]] else []
  }

  predicate PackUnique(packs: seq<Pack>, p: Pack) {
    && (forall i :: 0 <= i < |packs| ==> (packs[i].id, packs[i].version) != (p.id, p.version))
    && (forall i :: 0 <= i < |packs| ==> (packs[i].jobId, packs[i].jobVersion) != (p.jobId, p.jobVersion))
  }

  /** The references of a pack lead to a job of its approval and to an approval of its snapshot. */
  predicate PackGraph(db: Db, p: Pack) {
    && (exists i :: 0 <= i < |db.jobs| && db.jobs[i].id == p.jobId && db.jobs[i].version == p.jobVersion
                    && db.jobs[i].approvalId == p.approvalId && db.jobs[i].approvalVersion == p.approvalVersion)
    && (exists i :: 0 <= i < |db.approvals| && db.approvals[i].id == p.approvalId
                    && db.approvals[i].version == p.approvalVersion && db.approvals[i].binding.snapshot == p.snapshot)
  }

  function PutPack(db: Db, p: Pack): Result<Db, Error> {
    if !PackGraph(db, p) then Err(MissingReference)
    else if !PackUnique(db.packs, p) then Err(UniqueViolation)
    else Ok(db.(packs := db.packs + [p]))
  }

  // ----- job records

  /** What the snapshot of the drafting inputs contributes to the job. */
  datatype Inputs = Inputs(run: RunVersion, evidence: seq<EvidenceVersion>)

  function StartedJob(a: Approval, mode: RuntimeMode, raw: string, now: int, jobId: nat, inputs: Inputs): Job {
    Job(jobId, 1, now, now, a.id, a.version, mode, Running, StartKey(raw), Some(now), None, None,
        Some(inputs.run), inputs.evidence)
  }

  function Terminal(j: Job, raw: string, now: int, state: JobState, failure: Option<JobFailure>): Job {
    j.(version := 2, state := state, updatedAt := now, completedAt := Some(now), failure := failure,
       key := OutcomeKey(raw))
  }

  function EvidenceIds(evidence: seq<EvidenceVersion>): seq<nat> {
    seq(|evidence|, i requires 0 <= i < |evidence| => evidence[i].evidenceId)
  }

  function CompletedPack(a: Approval, j: Job, raw: string, now: int, packId: nat): Pack {
    Pack(packId, 1, a.binding.snapshot, a.id, a.version, j.id, 2, EvidenceIds(j.evidence), j.evidence, now)
  }

  // ----- replay of a consumption

  datatype DraftResult = DraftResult(job: Job, pack: Option<Pack>, replayed: bool)

  /** The jobs whose version is 1 and whose key starts this operation. */
  function InitialJobs(jobs: seq<Job>, raw: string): seq<Job> {
    if jobs == [] then []
    else
      var n := |jobs| - 1;
      InitialJobs(jobs[..n], raw) + if jobs[n].version == 1 && jobs[n].key == StartKey(raw) then [jobs[n]] else []
  }

  function GreatestVersion(jobs: seq<Job>): Job
    requires jobs != []
  {
    var n := |jobs| - 1;
    if n == 0 then jobs[0]
    else
      var best := GreatestVersion(jobs[..n]);
      if best.version < jobs[n].version then jobs[n] else best
  }

  predicate OpenJob(j: Job) {
    j.state.Running? && j.completedAt.None? && j.failure.None? && j.sourceRun.Some?
  }

  predicate SameIntent(a: Job, b: Job) {
    && a.approvalId == b.approvalId && a.approvalVersion == b.approvalVersion && a.mode == b.mode
    && a.sourceRun == b.sourceRun && a.evidence == b.evidence && a.createdAt == b.createdAt
    && a.startedAt == b.startedAt
  }

  predicate ClosedJob(j: Job, raw: string) {
    && (j.state.Completed? || j.state.Failed?)
    && j.key == OutcomeKey(raw)
    && j.completedAt.Some?
    && (j.state.Failed? <==> j.failure.Some?)
  }

  predicate PackMatches(p: Pack, j: Job, receipt: Approval) {
    && (p.jobId, p.jobVersion) == (j.id, j.version)
    && (p.approvalId, p.approvalVersion) == (receipt.id, receipt.version)
    && p.evidence == j.evidence
    && p.evidenceRefs == EvidenceIds(p.evidence)
    && Some(p.generatedAt) == j.completedAt
  }

  predicate HasVersion(jobs: seq<Job>, v: nat) {
    exists i :: 0 <= i < |jobs| && jobs[i].version == v
  }

  predicate VersionsOneUp(jobs: seq<Job>) {
    && (|jobs| == 1 || |jobs| == 2)
    && (forall v :: 1 <= v <= |jobs| ==> HasVersion(jobs, v))
  }

  /** The stored outcome of a consumption, or the inconsistency found in it. */
  function Existing(db: Db, receipt: Approval, raw: string): Result<DraftResult, Error> {
    Outcome(
      JobsFor(db.jobs, receipt.id, receipt.version), PacksFor(db.packs, receipt.id, receipt.version), receipt, raw)
  }

  function Outcome(jobs: seq<Job>, packs: seq<Pack>, receipt: Approval, raw: string): Result<DraftResult, Error> {
    var initial := InitialJobs(jobs, raw);
    if |initial| != 1 || exists j :: j in jobs && j.id != initial[0].id
    then Err(DraftDenied(ConsumptionWithoutJobIntent))
    else
      var first := initial[0];
      if !VersionsOneUp(jobs) || !OpenJob(first) then Err(DraftDenied(DraftStateInconsistent))
      else
        var latest := GreatestVersion(jobs);
        if !SameIntent(latest, first) || (latest.version == 2 && !ClosedJob(latest, raw))
        then Err(DraftDenied(DraftStateInconsistent))
        else
          if |packs| > 1 || latest.state.Completed? != (packs != []) then Err(DraftDenied(DraftStateInconsistent))
          else if packs != [] && !PackMatches(packs[0], latest, receipt) then Err(DraftDenied(DraftStateInconsistent))
          else Ok(DraftResult(latest, if packs != [] then Some(packs[0]) else None, true))
  }

  // ----- transaction A, transaction B and the failure receipt

  /** An authoring call in progress between the two transactions. */
  datatype Flight = Flight(job: Job, receipt: Approval, raw: string, now: int)

  datatype Started = StartedFlight(flight: Flight) | Replayed(result: DraftResult)

  function RenamedError(e: Error): Error {
    if e == Denied(EvidenceChanged) then DraftDenied(AmbiguousEvidenceReference) else e
  }

  function Replay(db: Db, receipt: Approval, raw: string): (Db, Result<Started, Error>) {
    match Existing(db, receipt, raw)
    case Err(e) => (db, Err(e))
    case Ok(r) => (db, Ok(Replayed(r)))
  }

  /** Stores the consumption with its running job, unless the inputs are rejected. */
  function Launch(
    db: Db, c: Consumption, mode: RuntimeMode, raw: string, now: int,
    inputs: Result<Inputs, DraftReason>, jobId: nat): (Db, Result<Started, Error>)
  {
    match inputs
    case Err(r) => (db, Err(DraftDenied(r)))
    case Ok(given) =>
      var job := StartedJob(c.record, mode, raw, now, jobId, given);
      match PutJob(db.(approvals := c.approvals), job)
      case Err(e) => (db, Err(e))
      case Ok(after) => (after, Ok(StartedFlight(Flight(job, c.record, raw, now))))
  }

  /** Consume the approval and store the running job, or replay; an error rolls everything back. */
  function Start(
    db: Db, svc: Service, id: nat, raw: string, now: int, oracle: Oracle,
    inputs: Result<Inputs, DraftReason>, jobId: nat): (Db, Result<Started, Error>)
  {
    match Latest(db.approvals, id)
    case None => (db, Err(Denied(NotFound)))
    case Some(approved) =>
      match Consume(db, svc, id, raw, now, approved.binding, oracle)
      case Err(e) => (db, Err(RenamedError(e)))
      case Ok(c) =>
        if c.replayed then Replay(db, c.record, raw) else Launch(db, c, svc.mode, raw, now, inputs, jobId)
  }

  /** The failure receipt; if it cannot be written the job stays RUNNING. */
  function RecordFailure(db: Db, f: Flight, failure: JobFailure): (Db, Result<DraftResult, Error>) {
    var failed := Terminal(f.job, f.raw, f.now, Failed, Some(failure));
    match PutJob(db, failed)
    case Err(e) => (db, Err(e))
    case Ok(after) => (after, Ok(DraftResult(failed, None, false)))
  }

  /** How authoring and transaction B go; a refused pack is one the records or the disk refuse. */
  datatype Authoring = AuthorRaises | PackRefused | Authored(packId: nat)

  function Finish(db: Db, f: Flight, outcome: Authoring): (Db, Result<DraftResult, Error>) {
    match outcome
    case AuthorRaises => RecordFailure(db, f, AuthorFailed)
    case PackRefused => RecordFailure(db, f, PackPersistenceFailed)
    case Authored(packId) =>
      var completed := Terminal(f.job, f.raw, f.now, Completed, None);
      var pack := CompletedPack(f.receipt, f.job, f.raw, f.now, packId);
      match PutJob(db, completed)
      case Err(_) => RecordFailure(db, f, PackPersistenceFailed)
      case Ok(withJob) =>
        match PutPack(withJob, pack)
        case Err(_) => RecordFailure(db, f, PackPersistenceFailed)
        case Ok(after) => (after, Ok(DraftResult(completed, Some(pack), false)))
  }
}
