/**
 * src/qualor/runtime/section_acquisition.py and loop.py: draining one indexed source, one extraction at a
 * time, until the run stops. What an extraction returns is the model's choice.
 */
module SectionDrain {
  import EligibilityModel
  import opened Wrappers
  import opened AcquisitionModel
  import opened ActivationClosure
  import opened Activations
  import opened CoverageRules
  import opened CoverageInvariants
  import opened CoverageReconciliation
  import opened CoverageTransitions
  import opened SectionContexts
  import opened SectionScheduling
  import opened SchedulingMeaning

  datatype StopReason = MaxSteps | BudgetStop | NoProgress | ToolFailureBound | HardFailConfirmed | SufficientEvidence

  /** An entered section: the action key without the constant parts. */
  type ActionKey = (SectionId, seq<Category>)

  datatype Run = Run(
    steps: nat, maxSteps: nat, noProgress: nat, failures: nat, actions: set<ActionKey>,
    stopped: Option<StopReason>, revision: nat, calls: nat, callLimit: int)

  /**
   * After coverage is recorded: the results were admitted, changing the authority or not, or something
   * raised, which may be after the authority had changed.
   */
  datatype Admission =
    | Admitted(changed: bool, verdict: Option<StopReason>)
    | AdmissionFailed(budget: bool, changed: bool, verdict: Option<StopReason>)

  /** An extraction that raised before coverage was recorded, or one that recorded it. */
  datatype Extraction =
    | Interrupted(dispatched: bool, budget: bool)
    | Covered(outcome: Category -> Outcome, admission: Admission)

  /** `initial` is the number of inference calls when the scheduler was built. */
  datatype Acquisition = Acquisition(run: Run, ledger: Ledger, initial: nat)

  datatype Verdict = Going | Finished | Crashed

  // ----- the run's counters

  function Stop(r: Run, reason: StopReason): Run {
    if r.stopped.Some? then r else r.(stopped := Some(reason))
  }

  function Enter(r: Run, key: ActionKey): (Run, bool) {
    if r.stopped.Some? then (r, false)
    else if r.steps >= r.maxSteps then (Stop(r, MaxSteps), false)
    else
      var stepped := r.(steps := r.steps + 1);
      if key in r.actions then
        var stalled := stepped.(noProgress := r.noProgress + 1);
        (if stalled.noProgress >= 3 then Stop(stalled, NoProgress) else stalled, false)
      else (stepped.(actions := r.actions + {key}), true)
  }

  function Failure(r: Run, budget: bool): Run {
    if budget then Stop(r, BudgetStop)
    else
      var failed := r.(failures := r.failures + 1);
      if failed.failures >= 3 then Stop(failed, ToolFailureBound) else failed
  }

  function StopFor(reason: Reason): StopReason {
    match reason
    case StepBound => MaxSteps
    case BudgetExhausted => BudgetStop
    case RunTerminated => NoProgress
    case PlanExhausted => NoProgress
    case ContextsUnresolved => NoProgress
  }

  /** A newer authority revision, and the verdict its evaluation may reach. */
  function Newer(r: Run, verdict: Option<StopReason>): Run {
    var newer := r.(revision := r.revision + 1);
    if verdict.Some? then Stop(newer, verdict.value) else newer
  }

  function Progressed(r: Run, changed: bool, verdict: Option<StopReason>): Run {
    if changed then Newer(r, verdict)
    else
      var stalled := r.(noProgress := r.noProgress + 1);
      if stalled.noProgress >= 3 then Stop(stalled, NoProgress) else stalled
  }

  // ----- one iteration

  function OutcomesFor(cats: seq<Category>, f: Category -> Outcome): map<Category, Outcome> {
    map c | c in cats :: f(c)
  }

  ghost predicate Loaded(a: Acquisition, index: seq<Section>) {
    CoverageInv(a.ledger) && PlanOnIndex(index, a.ledger.items)
  }

  /** The except branch once coverage is known not to be recorded. */
  function HandleFailure(a: Acquisition, job: Job, dispatched: bool, budget: bool): (Acquisition, Verdict)
    requires Refers(a.ledger.items, a.ledger.activations) && UniqueIds(a.ledger.items)
  {
    if budget && !dispatched then
      match BudgetBlocked(a.ledger, job.item, job.categories)
      case Ok(m) => (a.(run := Failure(a.run, true), ledger := m), Going)
      case Err(_) => (a, Crashed)
    else
      match OperationalFailure(a.ledger, job.item, job.categories)
      case Ok(m) => (a.(run := Failure(a.run, budget), ledger := m), Going)
      case Err(e) => (a.(ledger := e.0), Crashed)
  }

  function Extracted(a: Acquisition, job: Job, e: Extraction): (Acquisition, Verdict)
    requires Refers(a.ledger.items, a.ledger.activations) && UniqueIds(a.ledger.items)
  {
    var called := a.(run := a.run.(calls := a.run.calls + 1));
    match e
    case Interrupted(dispatched, budget) =>
      HandleFailure(if dispatched then called else a, job, dispatched, budget)
    case Covered(f, admission) =>
      match Complete(a.ledger, job.item, job.categories, OutcomesFor(job.categories, f), job.revision)
      case Err(_) => HandleFailure(called, job, true, false)
      case Ok(m) =>
        (called.(ledger := m, run := Admit(called.run, admission)), Going)
  }

  /** The run after coverage was recorded. */
  function Admit(r: Run, admission: Admission): Run {
    match admission
    case Admitted(changed, verdict) => Progressed(r, changed, verdict)
    case AdmissionFailed(budget, changed, verdict) => Failure(if changed then Newer(r, verdict) else r, budget)
  }

  /** An issued job: entered, begun and extracted. */
  function Pursue(a: Acquisition, index: seq<Section>, l: Ledger, job: Job, e: Extraction): (Acquisition, Verdict)
    requires BeginJob(l, index, job).Ok? ==>
               Refers(BeginJob(l, index, job).value.items, BeginJob(l, index, job).value.activations)
               && UniqueIds(BeginJob(l, index, job).value.items)
  {
    var (r, entered) := Enter(a.run, (job.section, job.categories));
    if !entered then (a.(ledger := l, run := r), Finished)
    else
      match BeginJob(l, index, job)
      case Err(_) => (a.(ledger := l, run := r), Crashed)
      case Ok(begun) => Extracted(a.(ledger := begun, run := r), job, e)
  }

  function Ask(a: Acquisition, index: seq<Section>): (Ledger, Answer)
    requires Loaded(a, index)
  {
    NextJob(a.ledger, index, a.run.revision, a.run.maxSteps - a.run.steps, a.run.stopped.Some?,
            a.run.calls - a.initial, a.run.calls < a.run.callLimit)
  }

  function DrainStep(a: Acquisition, index: seq<Section>, e: Extraction): (Acquisition, Verdict)
    requires Loaded(a, index)
  {
    var (l, answer) := Ask(a, index);
    match answer
    case Raised(_) => (a.(ledger := l), Crashed)
    case NoJob(reason) => (a.(ledger := l, run := Stop(a.run, StopFor(reason))), Finished)
    case Issued(job) =>
      IssuedJobBegins(a.ledger, index, a.run.revision, a.run.maxSteps - a.run.steps, a.run.stopped.Some?,
                      a.run.calls - a.initial, a.run.calls < a.run.callLimit);
      Pursue(a, index, l, job, e)
  }

  lemma IssuedJobBegins(
    l: Ledger, index: seq<Section>, revision: nat, steps: int, terminated: bool, used: int, available: bool)
    requires CoverageInv(l) && PlanOnIndex(index, l.items)
    ensures var (m, answer) := NextJob(l, index, revision, steps, terminated, used, available);
            && CoverageInv(m) && m.items == l.items
            && (answer.Issued? && BeginJob(m, index, answer.job).Ok? ==>
                  CoverageInv(BeginJob(m, index, answer.job).value)
                  && BeginJob(m, index, answer.job).value.items == l.items)
  {
    NextJobMeaning(l, index, revision, steps, terminated, used, available);
    var (m, answer) := NextJob(l, index, revision, steps, terminated, used, available);
    if answer.Issued? {
      var i :| IssuedFrom(m, index, answer.job, i);
      BeginAccepts(m, index, answer.job, i);
    }
  }

  // ----- what a begun extraction does to the ledger

  /** What a begun job leaves: its item attempted and every one of its attempts open at the job's revision. */
  lemma BegunOpens(l: Ledger, m: Ledger, job: Job, i: nat)
    requires CoverageInv(l) && Begun(l, m, job, i) && job.item == l.items[i].id
    ensures m.items == l.items && ItemIn(m, i, Attempted) && OpenAt(m, m.items[i], job.categories, job.revision)
  {
    FindAt(l.items, i);
  }

  /** An attempted item that has been accounted, and the activations that reconciliation adds. */
  lemma ThenActivated(m: Ledger, accounted: Ledger, n: Ledger, i: nat)
    requires CoverageInv(m) && ItemIn(m, i, Attempted) && ItemIn(accounted, i, Accounted) && ItemIn(n, i, Accounted)
    requires Elsewhere(m, accounted, m.items[i]) && OnlyActivated(accounted, n)
    ensures Forward(m, n) && ItemMoved(m, n, i)
  {
    MovesForward(m, accounted, m.items[i]);
    ElsewhereForward(m, accounted, i);
    ActivatedIsForward(accounted, n);
    ForwardTransitive(m, accounted, n);
  }

  /** Recording outcomes for a begun job succeeds, accounts the item and stores exactly these outcomes for it. */
  lemma CompleteBegun(l: Ledger, m: Ledger, job: Job, i: nat, outcomes: map<Category, Outcome>) returns (n: Ledger)
    requires CoverageInv(l) && Begun(l, m, job, i) && job.item == l.items[i].id
    requires outcomes.Keys == set c | c in job.categories
    ensures Complete(m, job.item, job.categories, outcomes, job.revision) == Ok(n)
    ensures CoverageInv(n) && Forward(m, n) && ItemMoved(m, n, i)
    ensures forall c :: c in job.categories ==>
              (m.items[i].section, c) in n.outcomes && n.outcomes[(m.items[i].section, c)] == outcomes[c]
  {
    BegunOpens(l, m, job, i);
    CompleteMeaning(m, i, outcomes, job.revision);
    n := Complete(m, job.item, job.categories, outcomes, job.revision).value;
    ThenActivated(m, Account(m, m.items[i], job.categories, outcomes), n, i);
  }

  /** The item was attempted before and is terminal after. */
  ghost predicate ItemMoved(m: Ledger, n: Ledger, i: nat) {
    && m.items == n.items && i < |m.items| && m.items[i].categories != []
    && (m.items[i].id, m.items[i].categories[0]) in n.states
    && StateOf(n, m.items[i]).Accounted?
  }

  lemma FailBegun(l: Ledger, m: Ledger, job: Job, i: nat) returns (n: Ledger)
    requires CoverageInv(l) && Begun(l, m, job, i) && job.item == l.items[i].id && CoverageInv(m)
    ensures OperationalFailure(m, job.item, job.categories) == Ok(n)
    ensures CoverageInv(n) && Forward(m, n) && ItemMoved(m, n, i)
  {
    BegunOpens(l, m, job, i);
    n := OperationalFailureMeaning(m, i);
    FailureMeaning(m, i);
    ThenActivated(m, Failed(m, m.items[i]), n, i);
  }

  lemma BlockBegun(l: Ledger, m: Ledger, job: Job, i: nat) returns (n: Ledger)
    requires CoverageInv(l) && Begun(l, m, job, i) && job.item == l.items[i].id && CoverageInv(m)
    ensures BudgetBlocked(m, job.item, job.categories) == Ok(n)
    ensures CoverageInv(n) && n.items == m.items && Forward(l, n) && ItemIn(n, i, Active)
  {
    BlockedMeaning(m, i);
    n := BudgetBlocked(m, job.item, job.categories).value;
    BeginWasActive(l, m, job.item, job.categories, job.revision);
    BackToActive(l, m, n, i);
  }

  /** Begun and put back: for everyone else nothing happened, and the item itself is active as before. */
  lemma BackToActive(l: Ledger, m: Ledger, n: Ledger, i: nat)
    requires CoverageInv(l) && i < |l.items| && l.items[i].categories != []
    requires Elsewhere(l, m, l.items[i]) && Elsewhere(m, n, l.items[i])
    requires InState(l, l.items[i].id, l.items[i].categories[0], Active)
    requires InState(n, l.items[i].id, l.items[i].categories[0], Active)
    ensures Forward(l, n)
  {
    assert Elsewhere(l, n, l.items[i]);
    assert ItemForward(l, n, l.items[i]);
    ElsewhereForward(l, n, i);
  }

  lemma BeginWasActive(l: Ledger, m: Ledger, id: ItemId, cats: seq<Category>, revision: nat)
    requires Begin(l, id, cats, revision) == Ok(m) && cats != []
    ensures InState(l, id, cats[0], Active)
  {
  }
}
