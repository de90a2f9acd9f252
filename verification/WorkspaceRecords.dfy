/** Rows of the workspace tables. Identifiers, digests and versions are numbers; instants count seconds. */
module WorkspaceRecords {
  import opened Wrappers

  const DAY := 24 * 3600

  datatype RuntimeMode = FixtureMode | ReplayMode | LiveMode

  datatype Reason =
    | Valid | NotFound | StillPending | AlreadyRevoked | Expired | AlreadyConsumed | ActorMismatch
    | ActionMismatch | IdentityMismatch | VersionMismatch | PolicyMismatch | GraphMismatch | ModeMismatch
    | DeadlineUnknown | DeadlinePassed | DeadlineMismatch | DecisionNotActionable | EvidenceNotActionable
    | EvidenceChanged | IdempotencyConflict | ChangeRevoked | TimeInvalid | SourceRunNotCompleted
    | SourceRunMismatch | AmbiguousSourceRun

  datatype DraftReason =
    | SnapshotUnavailable | DraftSourceRun | AmbiguousEvidenceReference | EvidenceReferenceUnavailable
    | DraftEvidenceNotActionable | DraftInputLimit | ConsumptionWithoutJobIntent | DraftStateInconsistent

  /** How an operation is refused: by policy, by a table constraint or by a record contract. */
  datatype Error =
    | Denied(reason: Reason)
    | DraftDenied(draftReason: DraftReason)
    | UniqueViolation
    | MissingReference
    | ContractViolation

  /** The exact versions an approval is about. */
  datatype Snapshot = Snapshot(
    opportunityId: nat, opportunityHash: nat, opportunityVersion: nat,
    founderId: nat, founderVersion: nat,
    projectId: nat, projectVersion: nat,
    decisionId: nat, decisionVersion: nat,
    policy: nat)

  /** The only action there is, generating a draft pack, is left implicit. */
  datatype Binding = Binding(actor: nat, snapshot: Snapshot)

  datatype ApprovalState = NotReviewed | Pending | Approved | Revoked | DraftReady

  /** Digests of (operation, caller key); distinct pairs have distinct digests. */
  datatype ReceiptKey = ConfirmKey(raw: string) | ConsumeKey(raw: string)

  datatype Approval = Approval(
    id: nat, version: nat, createdAt: int, updatedAt: int,
    binding: Binding, mode: RuntimeMode, state: ApprovalState, expiresAt: int,
    key: Option<ReceiptKey>, consumedAt: Option<int>, revocation: Option<Reason>)

  datatype JobState = JobCreated | Running | Completed | Failed | Cancelled | BudgetStopped

  datatype JobKey = StartKey(raw: string) | OutcomeKey(raw: string)

  datatype JobFailure = AuthorFailed | PackPersistenceFailed

  datatype EvidenceVersion = EvidenceVersion(evidenceId: nat, version: nat)

  datatype RunVersion = RunVersion(runId: nat, version: nat)

  datatype Job = Job(
    id: nat, version: nat, createdAt: int, updatedAt: int,
    approvalId: nat, approvalVersion: nat, mode: RuntimeMode, state: JobState, key: JobKey,
    startedAt: Option<int>, completedAt: Option<int>, failure: Option<JobFailure>,
    sourceRun: Option<RunVersion>, evidence: seq<EvidenceVersion>)

  datatype Pack = Pack(
    id: nat, version: nat, snapshot: Snapshot,
    approvalId: nat, approvalVersion: nat, jobId: nat, jobVersion: nat,
    evidenceRefs: seq<nat>, evidence: seq<EvidenceVersion>, generatedAt: int)

  datatype Deadline = OnDate(day: int) | AtInstant(at: int)

  /** The latest stored version of an opportunity. */
  datatype Opportunity = Opportunity(version: nat, hash: nat, deadlines: seq<Deadline>)

  /** The tables; for versioned inputs only the latest version matters here. */
  datatype Db = Db(
    approvals: seq<Approval>,
    jobs: seq<Job>,
    packs: seq<Pack>,
    opportunities: map<nat, Opportunity>,
    founders: map<nat, nat>,
    projects: map<nat, nat>,
    decisions: map<nat, nat>)

  /** A configured approval service. */
  datatype Service = Service(actor: nat, policy: nat, mode: RuntimeMode)

  /** What the decision-graph and evidence checks that are not modelled would answer. */
  datatype Oracle = Oracle(graph: Option<Reason>, evidence: Option<Reason>)

  /** The scope of a revocation. */
  datatype Change = Change(
    opportunityId: Option<nat>, founderId: Option<nat>, projectId: Option<nat>,
    decisionId: Option<nat>, policy: Option<nat>)
}
