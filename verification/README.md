# Qualor: a Dafny model of its stateful cores

Qualor reads official programme pages, turns them into eligibility rules, decides whether a founder and a project qualify, and, after
a person approves, drafts an application. This project models the parts of it that keep state or loop, and proves what each of them
promises over every input or every run:

* **Approval and drafting** (`Workspace*`, `Approval*`, `Drafting*`). Approvals are append-only versioned rows bound to exact
  opportunity, founder, project and decision versions. A run is any sequence of request, confirm, validate, consume-and-start, finish,
  crash, revoke and input-version events from any callers. `WorkspaceService.Workspace` is the store and service that performs them in place.
* **Bounded acquisition** (`AcquisitionModel`, `ActivationClosure`, `Activations`, `Plan*`, `Coverage*`, `SectionContexts`,
  `SectionScheduling`, `SchedulingMeaning`, `SectionDrain`, `Drain*`, `PlannedDrain`, `AcquisitionService`). The plan builder, the
  activation worklist, the coverage ledger with its caches, the scheduler and the drain loop, from the routed sections to the end of the
  drain. What an extraction returns is arbitrary.
* **The two cost ledgers** (`LiveBudget`, `ModelReceipts`, `BudgetedCalls`, `BudgetedClient`). The budget guard and the receipt ledger
  are updated separately around each model call; the call's outcome is arbitrary.
* **Document indexing** (`SourceText`, `SpanSegments`, `Section*`, `IndexTheorems`, `JobContext`). Cutting a text into regions, bounded
  sections and spans, and the later, independent re-derivation of a job's context. Characters are abstract apart from the classes the
  cutting code tests and a UTF-8 size of one to four bytes.
* **Eligibility** (`Eligibility*`). The three-valued rule-tree evaluator, its evidence masking, and the aggregate gate.
* **Three small refinements** (`CapabilityCache`, `OpportunityVersions`, `DecimalProjection`).

`Wrappers` and `Sorting` are shared helpers. In each core a value model (functions) says what one operation computes, lemmas prove what
that means, and the classes and loop methods, which have the source's own fields and loops, are proved equal to the value model.
`dafny verify dfyconfig.toml` verifies everything.

Parameters stand for what the model cannot see: `now` for the clock, `Oracle` for the evidence part of the approval graph check,
`digest` functions for SHA-256 identifiers (injective where a lemma needs it), `isHeading` and `Facts` for the regular expressions
over headings and references, `draws` for random tokens, `Extraction`, `Admission` and `Reply` for whatever a model call may return.

## Where the code does not do what is wanted

* The receipt contract bounds one cost by 0.20 while the largest authorized budget is 0.35. A call whose estimate lies in between
  reserves budget and is then refused its dispatched receipt, before anything is caught, so the two ledgers part for good.
  `BudgetedCalls.AgreementCanBreak` gives such a client and request. `CallKeepsAgreement` and `StepKeepsAgreement` show that one step
  keeps the agreement if and only if it does not overflow in this sense, and `RunsAgree` that a run ends in agreement if and only if
  none of its calls overflowed. In the receipt ledger alone, `ModelReceipts.LedgerRuns` says the numbers of the receipts are exactly
  1..n if and only if no dispatch was counted with a reservation out of bounds.
* The scheduler can issue a reserve item that a context edge activated, and `begin` then refuses it, because it compares the job's
  categories with the item's own empty ones. `SchedulingMeaning.BeginAccepts` states it as an equivalence: exactly the non-reserve jobs
  are accepted. The refusal leaves the drain as an exception: `DrainTheorems.StepKeeps` says exactly which answers do. Before the run one
  can tell from the sections: `PlannedDrain.PlannedDrainMeaning` shows that no drain raises unless some section with candidates is
  governed by one without, tied by a reference or by global scope, and `BuiltPlanCanRaise` gives two such sections whose drain does raise.
* Setting an item aside as unresolved after it was begun leaves its attempts and open revisions behind.
  `CoverageInvariants.UnresolvedMeaning` shows that the ledger invariant holds afterwards if and only if the item was still active; the
  scheduler only does it then.
* A completed receipt would list `DUPLICATE_PROPOSAL` twice if a rejected outcome carried that reason itself, and the record contract would
  refuse it. No other line of the program produces that code, and `ModelReceipts.ReasonsNeverClash` shows that for reasons without it the
  refusal never fires; `CodesUnique` gives the exact condition for any reasons.

## Model

| member | source | states |
|---|---|---|
| WorkspaceTheorems.AtMostOneConsumed | src/qualor/workspace/approval.py:504-545 | over any run whose clock never goes back, two consumed approvals with the same binding and mode are the same approval |
| WorkspaceTheorems.AtMostOnePack | src/qualor/persistence/repositories.py:855-873 | over such a run two stored packs never come from approvals with the same binding and mode |
| WorkspaceTheorems.ConsumedIsVersionBound | src/qualor/workspace/approval.py:158-199 | a consumed approval was requested, confirmed and consumed at three ordered steps, every version it names was the latest at and between all of them, and the consumption instant lies after confirmation and before the expiry set from the request and the deadline |
| WorkspaceTheorems.EveryConsumptionIsDrafted | src/qualor/workspace/drafting.py:143-194 | in every reachable store, whatever authors, failures and crashes interleave, each consumption has one job with versions {1} or {1,2}, a pack exactly when version 2 completed, and replaying the consuming key at any later time returns that outcome and writes nothing |
| WorkspaceTheorems.StoredHistories | src/qualor/workspace/approval.py:363-430 | in every reachable store an approval's versions are 1..n with one binding, mode and expiry, a revoked row is the last, a consumption instant is set once and kept, there are at most four rows, and no key belongs to two rows |
| WorkspaceTheorems.ConstraintsNeverFire | src/qualor/persistence/repositories.py:683-709 | from any reachable store no insert of any step meets a uniqueness or reference constraint, given fresh generated identifiers; finishing an authored draft stores its pack |
| WorkspaceTheorems.LapsedStaysLapsed | src/qualor/workspace/approval.py:597-624 | an approval that is expired or revoked without being consumed is never consumed at any later point of the run |
| WorkspaceTheorems.RequestsConvergeInRuns | src/qualor/workspace/approval.py:504-545 | in any reachable store a granted request for the authority of a live approval returns that approval and writes nothing |
| WorkspaceTheorems.UpToDateBetween | src/qualor/workspace/approval.py:169-199 | versions that are the latest at two instants were the latest, with the same contents, at every instant in between |
| WorkspaceTheorems.HistoriesGrow | src/qualor/workspace/approval.py:363-370 | later stores only extend an approval's history |
| WorkspaceTheorems.Reachable | src/qualor/workspace/drafting.py:196-314 | the joint invariant of approvals, jobs, packs and authoring calls in progress holds in every world of every run |
| WorkspaceTheorems.ReachableInTime | src/qualor/workspace/approval.py:504-545 | with a clock that never goes back, at most one approval per binding and mode is live in every world |
| WorkspaceRuns.StepKeepsInv | src/qualor/workspace/drafting.py:196-314 | every single event keeps the joint invariant |
| WorkspaceRuns.StepEffects | src/qualor/workspace/approval.py:363-430 | any event leaves an approval's history alone or appends one legal row, dated by the event, under current versions unless it revokes |
| WorkspaceRuns.StartMeaning | src/qualor/workspace/drafting.py:196-245 | starting a draft replays, refuses without writing, or stores the consumption together with exactly one running job |
| ApprovalHistory.HistoryFacts | src/qualor/workspace/approval.py:363-370 | between two rows of a legal history nothing but state, key, consumption and update instant changes |
| ApprovalHistory.RevokedIsFinal | src/qualor/workspace/approval.py:372-430 | a revoked row is the last row of its history |
| ApprovalHistory.ConsumedThird | src/qualor/workspace/approval.py:597-624 | a consumption is always the third row, after a request and a confirmation |
| ApprovalHistory.LatestIsLast | src/qualor/persistence/repositories.py:757-761 | the stored latest version is the last row of the history |
| ApprovalHistory.PutLegal | src/qualor/persistence/repositories.py:683-709 | appending a legal row succeeds and keeps the table invariant |
| ApprovalHistory.InspectedRecord | src/qualor/workspace/approval.py:372-430 | an inspection returns the latest record, finds it actionable only for the same binding, a live expiry and current versions, and never revokes a row twice |
| ApprovalSteps.RequestMeaning | src/qualor/workspace/approval.py:467-545 | a granted request returns a live approval of that authority: an existing one without writing, or a new row exactly when none is live; a refused one writes nothing |
| ApprovalSteps.RequestsConverge | src/qualor/workspace/approval.py:504-545 | while an approval is the only live one, every granted request for its authority returns it unchanged |
| ApprovalSteps.ConfirmMeaning | src/qualor/workspace/approval.py:563-595 | a confirmation replays its own key or appends the confirmed row; otherwise it writes at most a revocation |
| ApprovalSteps.ValidateMeaning | src/qualor/workspace/approval.py:547-553 | a validation that finds the approval actionable writes nothing; otherwise it writes at most revoked rows |
| ApprovalSteps.ConsumeMeaning | src/qualor/workspace/approval.py:597-624 | a consumption returns the row its key already made, or appends the consumed row to a confirmed approval with current versions |
| ApprovalSteps.RevokeMeaning | src/qualor/workspace/approval.py:650-688 | a scoped revocation appends one revoked row to exactly the current approvals in scope, and is refused exactly for an empty scope or a clock before an approval's creation |
| ApprovalSteps.OneLiveKept | src/qualor/workspace/approval.py:504-545 | a step that requests nothing never makes a second approval of one authority live |
| ApprovalSteps.LifeOnlyEnds | src/qualor/workspace/approval.py:372-430 | what is live after a legal step was live before it, with the same authority |
| ApprovalRules.EarliestDeadline | src/qualor/workspace/approval.py:236-246 | the chosen deadline is one of the given ones and none is earlier |
| ApprovalRules.EarliestIsFirst | src/qualor/workspace/approval.py:513-531 | the reused approval is one of the reusable ones |
| ApprovalRules.FindReceipt | src/qualor/persistence/repositories.py:763-767 | the receipt found for a key is a stored row with that key, and none is found only when no row has it |
| ApprovalRules.RevokeRows | src/qualor/workspace/approval.py:650-688 | the revocation loop only appends to the table |
| DraftingHistory.StartKeepsInv | src/qualor/workspace/drafting.py:196-245 | the first transaction keeps the drafting invariant and opens one authoring call |
| DraftingHistory.FinishKeepsInv | src/qualor/workspace/drafting.py:246-314 | every ending of an authoring call (completed, author failure, pack refused) keeps the invariant and closes that call alone |
| DraftingHistory.CrashKeepsInv | src/qualor/workspace/drafting.py:196-314 | losing an authoring call keeps the invariant: its job stays at version 1 |
| DraftingHistory.CompletionKeepsInv | src/qualor/workspace/drafting.py:251-292 | completing stores version 2 and its pack together |
| DraftingHistory.FailureKeepsInv | src/qualor/workspace/drafting.py:310-314 | failing stores version 2 without a pack |
| DraftingHistory.ExistingAccepts | src/qualor/workspace/drafting.py:143-194 | the consistency check never rejects a stored outcome that satisfies the invariant, and returns its latest job and pack |
| DraftingHistory.ReplayReturnsDraft | src/qualor/workspace/drafting.py:201-222 | starting again with the consuming key returns the stored draft and the same store |
| WorkspaceService.Workspace.PutApproval | src/qualor/persistence/repositories.py:683-709 | inserts the row or reports the constraint, exactly as the value model |
| WorkspaceService.Workspace.InspectAndRevoke | src/qualor/workspace/approval.py:372-430 | the finding of the value model, and the revoked row it asks for appended in place |
| WorkspaceService.Workspace.ValidateApproval | src/qualor/workspace/approval.py:547-553 | result and new store equal those of the value model |
| WorkspaceService.Workspace.RequestApproval | src/qualor/workspace/approval.py:467-545 | result and new store equal those of the value model |
| WorkspaceService.Workspace.ConfirmApproval | src/qualor/workspace/approval.py:563-595 | result and new store equal those of the value model |
| WorkspaceService.Workspace.ConsumeInTransaction | src/qualor/workspace/approval.py:597-624 | result and new table equal those of the value model |
| WorkspaceService.Workspace.RevokeInvalidApprovals | src/qualor/workspace/approval.py:650-688 | the loop over current approvals appends what the value model appends, and rolls back when one is refused |
| WorkspaceService.Workspace.StartDraftJob | src/qualor/workspace/drafting.py:196-245 | one atomic step: consumption and running job, or neither |
| WorkspaceService.Workspace.FinishDraftJob | src/qualor/workspace/drafting.py:246-294 | the second transaction: terminal job and pack, or the failure receipt |
| WorkspaceService.Workspace.FailJob | src/qualor/workspace/drafting.py:310-314 | appends the failed version of the job |
| EligibilityCertificates.CertificateComplete | src/qualor/eligibility/engine.py:26-97 | any rule tree evaluates to pass, fail or not applicable exactly when the corresponding recursive certificate of reviewed, fresh, matching evidence exists |
| EligibilityGate.RuleInformationMonotone | src/qualor/eligibility/engine.py:26-97 | supplying missing facts never changes a decided rule, for any tree, masking included |
| EligibilityGate.GateInformationMonotone | src/qualor/eligibility/engine.py:133-160 | supplying missing facts never changes a gate that passed or failed |
| EligibilityGate.GateCertificates | src/qualor/eligibility/engine.py:133-160 | the gate passes exactly when every category has a critical rule and every critical rule is certified to pass or not to apply, and fails exactly when some critical rule is certified to fail |
| EligibilityGate.GateStates | src/qualor/eligibility/engine.py:141-160 | the gate's state read off the evaluations of the critical rules and the covered categories |
| EligibilityGate.MissingInformation | src/qualor/eligibility/engine.py:145-154 | the missing information names exactly the uncovered categories and the undetermined critical rules |
| EligibilityGate.AcceptedMeaning | src/qualor/eligibility/engine.py:100-117 | a rule set is accepted exactly when identifiers never repeat, there are at most 500 nodes, no node is deeper than 16, children keep their parent's criticality and no reason overrides an executable rule |
| EligibilityGate.VisitMeaning | src/qualor/eligibility/engine.py:104-115 | the recursive visitor that grows the seen set accepts a tree exactly when it is well placed and its identifiers are new, and adds exactly those |
| EligibilityGate.EntryMeaning | src/qualor/eligibility/coverage.py:10-45 | a category's entry is missing or unknown exactly when it has no critical rule or an undetermined one |
| EligibilityCertificates.OperatorMeaning | src/qualor/eligibility/operators.py:7-70 | a leaf operator passes or fails exactly when its operands can be compared and the comparison holds or not |
| EligibilityCertificates.CitedIssuesMeaning | src/qualor/eligibility/evidence.py:45-78 | no issue is raised exactly when every cited item is known, accepted, reviewed, of the rule's category and fresh; a stale issue exactly when one is stale |
| EligibilityCertificates.OwnIssuesMeaning | src/qualor/eligibility/engine.py:29-43 | a rule's own issues are empty exactly when it is grounded, and taint its parents exactly when it is contradicted or cites stale evidence |
| EligibilityCertificates.CompositeCertificate | src/qualor/eligibility/engine.py:36-68 | the verdict of an AND or OR over its children's verdicts matches the certificate of the whole |
| EligibilityEngine.EvidenceIssues | src/qualor/eligibility/evidence.py:45-78 | the loop over cited identifiers computes the specified issues |
| EligibilityEngine.InspectCitation | src/qualor/eligibility/evidence.py:57-77 | one pass of that loop adds the specified issues |
| EligibilityEngine.VisitDeadlines | src/qualor/eligibility/evidence.py:28-42 | the recursive visitor appends each node's own bounds, in tree order |
| EligibilityEngine.EffectiveDeadlines | src/qualor/eligibility/evidence.py:22-42 | the effective deadlines are the context's followed by the rules' |
| EligibilityEngine.TightestBound | src/qualor/eligibility/evidence.py:51-55 | the chosen bound is one of the given ones, and no given one is tighter |
| EligibilityEngine.EvaluateCoverage | src/qualor/eligibility/coverage.py:10-45 | refuses exactly mismatched evaluations, and otherwise gives one entry for each category in order |
| ActivationClosure.ClosureMeaning | src/qualor/runtime/acquisition_plan.py:424-473 | the worklist terminates with the given activations first, the least set closed under the context edges of mandatory and active items, and each added activation caused by an item active before it |
| Activations.CloseContextActivations | src/qualor/runtime/acquisition_plan.py:424-473 | the cursor loop over the growing list computes that closure |
| Activations.VisitContexts | src/qualor/runtime/acquisition_plan.py:440-473 | one visit appends exactly the new activations of the causing item and their items |
| Activations.InitialPlanActivations | src/qualor/runtime/acquisition_plan.py:476-515 | the loops compute the specified initial activations |
| Activations.ActivatePlanItems | src/qualor/runtime/acquisition_plan.py:518-558 | the loops compute the specified activation of a request |
| Activations.ActivateMeaning | src/qualor/runtime/acquisition_plan.py:518-558 | every existing activation survives, the request is satisfied, the result is closed under context edges and in plan order |
| Activations.ActivateIsLeast | src/qualor/runtime/acquisition_plan.py:518-558 | nothing is activated beyond the least closed set that satisfies the request |
| Activations.SecondRoundAddsNothing | src/qualor/runtime/acquisition_coverage.py:218-300 | repeating satisfied requests activates nothing new |
| PlanCompleteness.PlanMeaning | src/qualor/runtime/acquisition_plan.py:58-120 | for any sections the built plan passes every item and plan validator: valid items, distinct identifiers, no pair repeated, tiers in order mandatory, conditional, reserve |
| PlanCompleteness.PlanCounts | src/qualor/runtime/acquisition_plan.py:302-401 | each candidate (section, category) pair occurs in exactly one item, each candidate-free section in exactly one reserve item, and nothing else occurs |
| PlanCompleteness.PlanMade | src/qualor/runtime/acquisition_plan.py:260-295 | every planned item is a valid item of one given section, with that section's contexts and start |
| PlanCompleteness.SectionRepresented | src/qualor/runtime/acquisition_plan.py:382-384 | every section occurs in the plan, so the inventory check never fires |
| PlanCompleteness.NoRepetition | src/qualor/runtime/acquisition_plan.py:106-120 | no two positions of the plan carry the same category of one section or the same reserve |
| PlanCompleteness.DifferentIds | src/qualor/runtime/acquisition_plan.py:229-295 | with an injective digest no two items share an identifier |
| PlanCompleteness.TiersOrdered | src/qualor/runtime/acquisition_plan.py:367-381 | sorting by the ranking key puts mandatory before conditional before reserve |
| PlanCompleteness.BuildAcquisitionPlan | src/qualor/runtime/acquisition_plan.py:302-401 | refuses exactly an empty index or an unknown context, and otherwise returns the plan of the sections sorted by start and identifier |
| PlanCompleteness.BuiltMeaning | src/qualor/runtime/acquisition_plan.py:302-401 | sections given in any order: the built plan meets its contract and carries each expected pair or reserve exactly once and nothing else |
| PlanCompleteness.ByStartKeeps | src/qualor/runtime/acquisition_plan.py:319-321 | sorting the sections by start and identifier rearranges them and nothing more |
| PlanCompleteness.RecordItem | src/qualor/runtime/acquisition_plan.py:359-365 | the breadth read from the running depth table is the specified one, and the table stays exact |
| PlanCompleteness.RecordSections | src/qualor/runtime/acquisition_plan.py:319-365 | the loop over sections with its depth table computes the specified records |
| PlanTheorems.GroupedMeaning | src/qualor/runtime/acquisition_plan.py:339-358 | grouping by tier, reasons and signal loses no candidate category and repeats none, and keeps each group in category order |
| PlanTheorems.ChunksMeaning | src/qualor/runtime/acquisition_plan.py:298-299 | chunks have one or two ordered categories and hold each category of the group exactly once |
| PlanTheorems.SectionItemsMeaning | src/qualor/runtime/acquisition_plan.py:321-365 | the items of one section are valid and carry each expected category exactly once |
| PlanTheorems.ReasonsMeaning | src/qualor/runtime/acquisition_plan.py:202-226 | activation reasons never repeat and are empty exactly for local mandatory categories |
| PlanTheorems.CandidatesMeaning | src/qualor/runtime/acquisition_plan.py:322-330 | the candidates are exactly the section's candidate categories, in the required order |
| CoverageStart.InitialMeaning | src/qualor/runtime/acquisition_coverage.py:503-528 | a new ledger over any valid plan satisfies the ledger invariant with nothing attempted |
| CoverageStart.InitialActivationsMeaning | src/qualor/runtime/acquisition_plan.py:476-515 | the initial activations are the least closed set over the static ones |
| CoverageStart.FirstReasonMeaning | src/qualor/runtime/acquisition_plan.py:494-511 | an item is started by the first reason, in precedence order, that applies to it |
| CoverageInvariants.BeginMeaning | src/qualor/runtime/acquisition_coverage.py:302-334 | beginning an active item succeeds, opens its attempts at the given revision, keeps the invariant (one state per item, attempts exactly the attempted or accounted obligations, open revisions exactly the attempted ones) and changes no value of another item |
| CoverageInvariants.CompletionMeaning | src/qualor/runtime/acquisition_coverage.py:336-377 | before reconciliation: completing accounts the attempted item, records exactly its outcomes, keeps the invariant and changes no value of another item |
| CoverageInvariants.FailureMeaning | src/qualor/runtime/acquisition_coverage.py:379-408 | before reconciliation: an operational failure accounts the whole item without outcomes and changes no value of another item |
| CoverageTransitions.CompleteMeaning | src/qualor/runtime/acquisition_coverage.py:336-377 | the whole operation on an attempted item, reconciliation included: refused exactly when an attempt is open at another revision, and otherwise the item is accounted with exactly its outcomes and every other change is an activation |
| CoverageTransitions.OperationalFailureMeaning | src/qualor/runtime/acquisition_coverage.py:379-408 | the whole operation never fails on an attempted item, accounts it without outcomes, and every other change is an activation |
| CoverageTransitions.CategoryMeaning | src/qualor/runtime/acquisition_coverage.py:631-698 | a category is supported exactly when something open supports it and everything open is accounted for and safe, and its other states and accountings exactly when the stated open obligations exist |
| CoverageInvariants.BlockedMeaning | src/qualor/runtime/acquisition_coverage.py:410-441 | a budget block is the one step back: the attempted item becomes active, exactly its attempts are withdrawn and no value of another item changes |
| CoverageInvariants.UnresolvedMeaning | src/qualor/runtime/acquisition_coverage.py:443-469 | setting an active or attempted item aside succeeds and changes no value of another item; the invariant holds afterwards exactly when the item was active |
| CoverageReconciliation.ReconcileMeaning | src/qualor/runtime/acquisition_coverage.py:218-300 | reconciling never fails, keeps the invariant, only activates inactive non-mandatory items, and leaves every request satisfied and the activations closed under context edges |
| CoverageReconciliation.ReconcileIdempotent | src/qualor/runtime/acquisition_coverage.py:218-300 | reconciling again, at any later authority revision, changes nothing |
| CoverageService.CoverageLedger.ReconcilePlan | src/qualor/runtime/acquisition_coverage.py:218-300 | the tables become those of the value model and the cached category states equal their recomputation |
| CoverageService.CoverageLedger.ApplyActivations | src/qualor/runtime/acquisition_coverage.py:568-603 | each new activation is recorded and its obligations marked active in place |
| CoverageService.CoverageLedger.BeginItem | src/qualor/runtime/acquisition_coverage.py:302-334 | tables, errors and caches agree with the value model |
| CoverageService.CoverageLedger.CompleteItem | src/qualor/runtime/acquisition_coverage.py:336-377 | tables, errors and caches agree with the value model, the tables on a refusal too |
| CoverageService.CoverageLedger.OperationalFailureItem | src/qualor/runtime/acquisition_coverage.py:379-408 | tables, errors and caches agree with the value model, the tables on a refusal too |
| CoverageService.CoverageLedger.BudgetBlockedItem | src/qualor/runtime/acquisition_coverage.py:410-441 | tables, errors and caches agree with the value model |
| CoverageService.CoverageLedger.MarkContextUnresolved | src/qualor/runtime/acquisition_coverage.py:443-469 | tables, errors and caches agree with the value model |
| CoverageService.CoverageLedger.MarkPlanOverflow | src/qualor/runtime/acquisition_coverage.py:471-498 | tables, errors and caches agree with the value model |
| CoverageService.CoverageLedger.RecomputePlanStates | src/qualor/runtime/acquisition_coverage.py:631-698 | after the loop the caches of all nine categories equal their definition |
| SchedulingMeaning.NextJobMeaning | src/qualor/runtime/section_scheduler.py:74-130 | every answer keeps the ledger invariant and only moves items forward; a plan-exhausted or unresolved answer leaves nothing active; a job is issued only while running, with steps and calls left, and for an active item with its own gathered context |
| SchedulingMeaning.OfferMeaning | src/qualor/runtime/section_scheduler.py:94-130 | the search issues the first active item whose context resolves, and exactly the obligations of the items before it are set aside as unresolved |
| SchedulingMeaning.OverflowMeaning | src/qualor/runtime/section_scheduler.py:85-90 | at the call bound exactly the active obligations move, all to the overflow state, one record is appended for each active item in order, and none stays active |
| SchedulingMeaning.BeginAccepts | src/qualor/runtime/section_scheduler.py:132-147 | a job issued by the scheduler is accepted by begin exactly when it is not a reserve job |
| SectionContexts.ExploreCloses | src/qualor/runtime/section_extraction.py:91-105 | the stack walk collects a set that contains the seeds and is closed under context (and parent) edges |
| SectionContexts.ExploreIsLeast | src/qualor/runtime/section_extraction.py:91-105 | and every closed set with the seeds contains it |
| SectionContexts.GatherIsExplore | src/qualor/runtime/section_scheduler.py:155-188 | the scheduler's walk returns that same set and gives up exactly when it meets an incomplete section |
| DrainTheorems.DrainMeaning | src/qualor/runtime/section_acquisition.py:250-393 | for any script of extraction outcomes the loop terminates within the step bound, makes at most seven dispatches, keeps the ledger invariant, only moves items forward, and ends stopped or with an active reserve item |
| DrainTheorems.UnreachedReserveDrainStops | src/qualor/runtime/section_acquisition.py:250-393 | over a plan in which no context edge leads to a reserve item every drain ends with the run stopped, never by an exception |
| DrainTheorems.ActiveReserveReached | src/qualor/runtime/acquisition_plan.py:440-473 | in any ledger that keeps the invariant, an active reserve item is the target of a context edge of the plan |
| DrainWitness.ActivatedReserveRaises | src/qualor/runtime/section_scheduler.py:94-147 | for any mandatory item with an incomplete section that refers to a readable reserve section, the drain issues the reserve job and raises, whatever an extraction would return |
| PlannedDrain.PlannedDrainMeaning | src/qualor/runtime/section_acquisition.py:228-393 | from any valid index through its built plan: the drain starts in its invariant, ends, dispatches at most seven calls, and ends stopped without an exception unless a section without candidates is cited by one with candidates |
| PlannedDrain.ReachedIffCited | src/qualor/runtime/acquisition_plan.py:302-473 | the built plan has a context edge to a reserve item if and only if some section without candidates is cited by one with candidates |
| PlannedDrain.BuiltPlanCanRaise | src/qualor/runtime/section_scheduler.py:132-147 | two sections whose built plan, under any injective digest, makes the drain raise |
| PlannedDrain.BuiltOnIndex | src/qualor/runtime/acquisition_plan.py:302-401 | the plan built from the sections of a valid index is a valid plan on that index |
| DrainTheorems.ExhaustedLeavesNothingActive | src/qualor/runtime/section_scheduler.py:85-130 | when the scheduler answers that the plan is exhausted or its contexts unresolved, no obligation is active |
| DrainTheorems.StepKeeps | src/qualor/runtime/section_acquisition.py:250-393 | one iteration keeps the loop invariant, whose part on entered actions says no issued job repeats one, and raises if and only if the scheduler raised or issued a reserve job not entered before |
| DrainTheorems.DrainStarts | src/qualor/runtime/section_acquisition.py:238-245 | a freshly indexed source satisfies the loop invariant |
| DrainTheorems.ExtractedMeaning | src/qualor/runtime/section_acquisition.py:273-393 | every way an extraction can end leaves the begun item accounted, or stops the run with the item active again |
| AcquisitionService.SectionScheduler.AskNext | src/qualor/runtime/section_scheduler.py:74-130 | answer and ledger equal those of the value model |
| AcquisitionService.SectionScheduler.Start | src/qualor/runtime/section_scheduler.py:132-147 | acceptance and ledger equal those of the value model |
| AcquisitionService.SectionScheduler.GatherContexts | src/qualor/runtime/section_scheduler.py:155-188 | the pending and visited loop computes the specified closure |
| AcquisitionService.OpportunityRun.EnterAction | src/qualor/runtime/loop.py:199-212 | steps, repeated actions and stops as the value model says |
| AcquisitionService.OpportunityRun.RecordFailure | src/qualor/runtime/loop.py:244-260 | a budget failure stops the run, the third other failure does too |
| AcquisitionService.SectionAcquisition.Iterate | src/qualor/runtime/section_acquisition.py:250-393 | one pass over the objects equals one step of the value model, the state left by an exception included |
| AcquisitionService.SectionAcquisition.DrainAll | src/qualor/runtime/section_acquisition.py:228-393 | the while loop over the objects equals the specified drain, after an exception too, and stays within its bounds |
| BudgetedCalls.RunsAgree | src/qualor/runtime/agent.py:207-296 | over any sequence of calls and contexts, if and only if none overflows a receipt: dispatched receipts equal the guard's inferences, numbered from one, and the reserved cost equals the sum over receipts of reconciled-else-reserved cost plus searches |
| BudgetedCalls.PlannedStays | src/qualor/runtime/agent.py:121-296 | a receipt left planned by a broken call stays planned through every later event |
| BudgetedCalls.ConverseOnlyAppends | src/qualor/runtime/agent.py:207-296 | a call never touches an earlier receipt |
| BudgetedCalls.ReceiptsTellTheSpend | src/qualor/runtime/model_receipts.py:150-252 | from a fresh client: the same accounting, within the cap and the nine dispatches, with strictly increasing numbers |
| BudgetedCalls.CallKeepsAgreement | src/qualor/runtime/agent.py:207-296 | one call keeps the agreement if and only if it does not reserve more than one receipt may hold |
| BudgetedCalls.StepKeepsAgreement | src/qualor/runtime/agent.py:121-296 | the same equivalence for every event: calls, contexts, searches and fetches |
| BudgetedCalls.AgreementCanBreak | src/qualor/runtime/model_receipts.py:19 | a concrete client under the largest authorized budget and a request whose call breaks the agreement, whatever the reply |
| BudgetedCalls.SmallCapNeverOverflows | src/qualor/runtime/budget.py:140-160 | under a cap of at most 0.20 no call can break it |
| BudgetedCalls.DispatchNeverLimited | src/qualor/runtime/model_receipts.py:150-162 | after a successful reservation the dispatch limit is never met |
| BudgetedCalls.CallMeaning | src/qualor/runtime/agent.py:207-296 | a call leaves everything alone, adds one blocked receipt, breaks, or adds one finished receipt carrying what the guard took |
| BudgetedCalls.AnsweredConcludes | src/qualor/runtime/agent.py:246-296 | whatever the provider answers, the open receipt ends; only a metered cost within the reservation lowers the reserved cost |
| ModelReceipts.CompleteMeaning | src/qualor/runtime/model_receipts.py:164-218 | completing a consistent receipt, reconciled before or only now, is accepted exactly when it is dispatched, the cost is not rewritten or out of bounds, the limits hold and the codes are unique |
| ModelReceipts.CompletionPartitions | src/qualor/runtime/model_receipts.py:179-217 | the completion counts always partition the proposals |
| ModelReceipts.CodesUnique | src/qualor/runtime/model_receipts.py:193-202 | the rejection codes are unique exactly when a repeated proposal does not meet that same code among the reasons |
| ModelReceipts.ReasonsNeverClash | src/qualor/runtime/model_receipts.py:193-202 | outcomes whose reasons never name a repetition always give unique codes |
| ModelReceipts.LedgerRuns | src/qualor/runtime/model_receipts.py:117-238 | over any sequence of operations, refused ones included: every receipt is consistent and in its slot, numbers are distinct and at most the dispatch counter, which is at most nine, and they are exactly 1..counter if and only if no counted dispatch lost its record |
| ModelReceipts.OperateAllMeaning | src/qualor/runtime/model_receipts.py:117-238 | along any sequence a receipt that ended never changes, a number, reservation or reconciled cost is never rewritten, and a number given later is above every number given before |
| ModelReceipts.OperateMeaning | src/qualor/runtime/model_receipts.py:117-238 | the same for one operation |
| ModelReceipts.OperateExact | src/qualor/runtime/model_receipts.py:150-162 | one operation keeps the numbers exact if and only if it is not a dispatch that counts and is refused its record |
| ModelReceipts.DispatchMeaning | src/qualor/runtime/model_receipts.py:150-162 | a dispatch is recorded exactly when its slot is planned, fewer than nine were counted and the reservation is within bounds; the counter moves without a record exactly when only the last of these fails |
| ModelReceipts.ReceiptLedger.PlanSlot | src/qualor/runtime/model_receipts.py:124-148 | adds a planned receipt or refuses and changes nothing; keeps the ledger invariant and everything a receipt may not lose |
| ModelReceipts.ReceiptLedger.DispatchSlot | src/qualor/runtime/model_receipts.py:150-162 | numbers and dispatches a planned receipt, the counter moving even when the record is refused; keeps the ledger invariant and everything a receipt may not lose |
| ModelReceipts.ReceiptLedger.CompleteReceipt | src/qualor/runtime/model_receipts.py:164-218 | the deduplicating scan ends the receipt with the specified counts and codes or refuses and changes nothing; keeps the ledger invariant and everything a receipt may not lose |
| ModelReceipts.ReceiptLedger.ReconcileReceipt | src/qualor/runtime/model_receipts.py:220-226 | sets the actual cost once or refuses and changes nothing; keeps the ledger invariant and everything a receipt may not lose |
| ModelReceipts.ReceiptLedger.FailReceipt | src/qualor/runtime/model_receipts.py:228-238 | ends a planned or dispatched receipt with its code or refuses and changes nothing; keeps the ledger invariant and everything a receipt may not lose |
| LiveBudget.LiveBudgetGuard.ReserveCost | src/qualor/runtime/budget.py:140-160 | counts and reserves within the caps, or raises and changes nothing |
| LiveBudget.LiveBudgetGuard.ReconcileCost | src/qualor/runtime/budget.py:162-172 | closes the reservation and returns the difference |
| LiveBudget.LiveBudgetGuard.CommitCost | src/qualor/runtime/budget.py:174-180 | closes the reservation at its full price |
| BudgetedClient.BudgetedBedrockClient.ConverseOnce | src/qualor/runtime/agent.py:207-296 | guard, ledger and context after a call equal those of the value model |
| BudgetedClient.BudgetedBedrockClient.CompleteInContext | src/qualor/runtime/agent.py:137-149 | completes the context's receipt once |
| BudgetedClient.BudgetedBedrockClient.Exit | src/qualor/runtime/agent.py:163-175 | leaving after an exception fails a receipt that is still open |
| IndexTheorems.IndexMeaning | src/qualor/runtime/sections.py:544-629 | the sections of any text meet without gap or overlap from its first to its last character, each within 700 characters and 800 bytes, with at most twelve ordered spans covering everything but spaces, and a complete section has no edge at a plain space or hard cap |
| IndexTheorems.EveryCharacterOnce | src/qualor/runtime/spans.py:89-144 | every character that is no space lies in exactly one span of exactly one section |
| IndexTheorems.IndexIsValid | src/qualor/runtime/sections.py:330-352 | the built index passes its validator, and every parent is among a section's contexts |
| IndexTheorems.ContextMeaning | src/qualor/runtime/sections.py:682-695 | a section's context list is short, without repetition or self, within the index, and contains its parent |
| SectionRanges.RegionsMeaning | src/qualor/runtime/sections.py:385-401 | logical regions tile the text, whatever counts as a heading |
| SectionRanges.PiecesMeaning | src/qualor/runtime/sections.py:416-446 | bounded pieces tile their region, each within both bounds |
| SectionRanges.CutSafe | src/qualor/runtime/sections.py:416-446 | a piece is marked safe exactly when it ends its region or ends a clause |
| SectionRanges.BoundedRanges | src/qualor/runtime/sections.py:416-446 | the cursor loop computes those pieces and its no-progress error never occurs |
| SectionRanges.ChooseCut | src/qualor/runtime/sections.py:430-443 | the ordered search for a separator chooses the specified cut |
| SectionRanges.LogicalRegions | src/qualor/runtime/sections.py:385-401 | the heading loop computes the specified regions |
| SourceText.GrowMeaning | src/qualor/runtime/sections.py:404-413 | the furthest end stays within both bounds and one character more would not |
| SourceText.MaximumEnd | src/qualor/runtime/spans.py:60-71 | the loop over characters computes that furthest end |
| SectionIndexer.BuildDrafts | src/qualor/runtime/sections.py:546-629 | the loops collect the drafts and mark exactly the drafts next to an unsafe cut as severed |
| SectionIndexer.CollectContext | src/qualor/runtime/sections.py:682-693 | the loop keeps the first occurrence of every other identifier |
| SectionIndexer.IndexSource | src/qualor/runtime/sections.py:544-714 | the loops compute the specified index |
| SpanSegments.SegmentsMeaning | src/qualor/runtime/spans.py:89-111 | segments are in order, within both bounds, trimmed, and cover everything but spaces |
| SpanSegments.SectionSegmentsMeaning | src/qualor/runtime/spans.py:114-144 | the same for line-wise segments and their fallback |
| SpanSegments.SectionSpanLimit | src/qualor/runtime/spans.py:114-144 | a section within the bounds never carries more than twelve spans |
| SpanSegments.CoversExactlyOnce | src/qualor/runtime/spans.py:89-144 | in any covering list a non-space character lies in one range and no other |
| SpanSegments.CutSegment | src/qualor/runtime/spans.py:74-86 | the search for a semantic end computes the specified cut |
| SpanSegments.SegmentText | src/qualor/runtime/spans.py:89-111 | the cursor loop computes the specified segments |
| SpanSegments.SegmentSection | src/qualor/runtime/spans.py:114-144 | the line loop and its fallback compute the specified segments |
| JobContext.IndexedJobsRead | src/qualor/runtime/section_extraction.py:77-147 | over an index built from any text, reading back the context and spans the scheduler gathers never fails, except when their bytes exceed the source bound |
| JobContext.IssuedJobReads | src/qualor/runtime/section_extraction.py:77-147 | the same over any sound index |
| JobContext.ClosuresAgree | src/qualor/runtime/section_extraction.py:91-112 | the re-derived closure, which also follows parents, equals the scheduler's |
| JobContext.GatherRequired | src/qualor/runtime/section_extraction.py:91-105 | the pending stack computes that closure |
| JobContext.WalkSpans | src/qualor/runtime/section_extraction.py:126-139 | the moving cursor finds exactly the specified tiling fault |
| CapabilityCache.HostedActionCapabilities.Validate | src/qualor/hosted/capabilities.py:53-63 | true exactly when some issue of the token is younger than the time to live and fewer than the maximum came after it |
| CapabilityCache.HostedActionCapabilities.Issue | src/qualor/hosted/capabilities.py:39-51 | returns a token that is not current, appends it to the history and keeps the refinement |
| CapabilityCache.HostedActionCapabilities.Size | src/qualor/hosted/capabilities.py:65-69 | never more than the maximum, all unexpired |
| CapabilityCache.StoredIffCurrent | src/qualor/hosted/capabilities.py:34-63 | after pruning a token is stored exactly when the full history makes it current |
| CapabilityCache.PruneRefines | src/qualor/hosted/capabilities.py:34-37 | pruning keeps the entries a contiguous suffix of the issues |
| CapabilityCache.PruneDropsPrefix | src/qualor/hosted/capabilities.py:34-37 | pruning ascending entries drops a prefix of them |
| CapabilityCache.IssueRefines | src/qualor/hosted/capabilities.py:46-50 | appending and evicting keeps them the last issues, at most the maximum |
| OpportunityVersions.RunsAreChained | src/qualor/workspace/run_capture.py:345-357 | under any interleaving of observers and captures stored versions are exactly 1..n, neighbours differ in digest, and nothing is lost |
| OpportunityVersions.StaleWriterRefused | src/qualor/workspace/run_capture.py:102-125 | a capture that resolved earlier commits exactly when its record is the latest already or it is new and nobody has written since |
| OpportunityVersions.FinishWritesOrNothing | src/qualor/workspace/run_capture.py:149-264 | a finished capture's record is the latest, and a refused one leaves the table and stays failed |
| OpportunityVersions.CommitMeaning | src/qualor/workspace/run_capture.py:345-357 | a commit succeeds exactly for the latest record or the next version with a new digest, and never meets a taken key |
| OpportunityVersions.ObserveMeaning | src/qualor/workspace/lifecycle.py:164-193 | an observation writes one version exactly when its digest differs from the latest, and never fails |
| OpportunityVersions.StillLatest | src/qualor/persistence/repositories.py:245-255 | a row stays the latest exactly as long as nothing is written, and is never the latest again afterwards |
| OpportunityVersions.OpportunityStore.PersistObservation | src/qualor/workspace/lifecycle.py:164-193 | the table becomes that of the value model |
| OpportunityVersions.OpportunityStore.PersistGraph | src/qualor/workspace/run_capture.py:330-357 | the table becomes that of the value model, or a conflict leaves it |
| OpportunityVersions.WorkspaceRunCapture.ResolveOpportunityVersion | src/qualor/workspace/run_capture.py:102-125 | the resolved record is kept in the capture and names the latest version or the next |
| OpportunityVersions.WorkspaceRunCapture.RunFinished | src/qualor/workspace/run_capture.py:149-264 | persisted, failed and table as the value model says |
| DecimalProjection.ProjectionCanonical | src/qualor/workspace/versioning.py:36-44 | two decimals get the same projection exactly when they are the same number, zero of either sign included |
| DecimalProjection.StripSameNumber | src/qualor/workspace/versioning.py:36-44 | stripping trailing zeros keeps the number |
| DecimalProjection.CanonicalDetermined | src/qualor/workspace/versioning.py:36-44 | a canonical form is determined by its number |
| DecimalProjection.Project | src/qualor/workspace/versioning.py:36-44 | the stripping loop computes the projection |

## Left out

- SQLite, JSON and Pydantic mechanics: tables are sequences with uniqueness checks and a transaction is one atomic step.
- Evidence checks of the approval graph beyond the version comparison (src/qualor/workspace/approval.py:200-360): one arbitrary `Oracle`, so every result holds whatever they answer.
- Standalone `consume_approval` (src/qualor/workspace/approval.py:626): it consumes without creating a job and the product path does not use it.
- Older versions of founders, projects and decisions: only the latest version number is kept, since the checks read nothing else.
- White space normalisation of idempotency keys: keys are compared as given.
- The text of drafts, packs and refusal messages, and the refresh failure rows of `mark_refresh_failed`.
- The transition log, `attempt_tiers` and `replace_index` of the coverage ledger: a ledger covers one source revision.
- Regular expressions for headings, references, markers and category routing: parameters `isHeading`, `Facts` and the routed sections the plan builder is given.
- The unbound receipt ledger (no ledger attached to the client) and the patterns of safe codes and source identifiers.
- Python `Decimal` precision: exact reals for costs and exact digit sequences for projections.
- The claim adapters, conflict retention and recommendation logic around `drain`: an arbitrary `Extraction` and `Admission`.
- The routing version check of the plan builder, and the model name and message checks that precede `converse`: single comparisons against constants.
- A missing-information entry for a rule whose identifier equals a category's name: the program keeps both in one list of strings, the model keeps them apart.
- Network, model provider, web, command line and TypeScript code.
- WorkspaceTheorems.AtMostOneConsumed: needs a clock that never goes back, as do AtMostOnePack, LapsedStaysLapsed and RequestsConvergeInRuns; the store itself does not enforce it.
- DrainTheorems.DrainMeaning: a plan whose reserve items get activated may end with an exception, because begin refuses them; UnreachedReserveDrainStops and PlannedDrainMeaning exclude it by what can be read off the plan or the sections, a condition that is sufficient and not necessary, since extractions may end the run first.
- ApprovalSteps.RevokeMeaning: fixes the appended rows for each approval, not the order in which the loop visits approvals.
- AcquisitionService.SectionAcquisition.DrainAll: the drain of one already indexed source; choosing and indexing the source is left to the caller.
