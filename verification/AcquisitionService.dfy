/** The scheduler, the run's counters and the drain loop as objects (src/qualor/runtime). */
module AcquisitionService {
  import EligibilityModel
  import opened Wrappers
  import opened AcquisitionModel
  import opened ActivationClosure
  import opened CoverageRules
  import opened CoverageInvariants
  import CoverageReconciliation
  import opened SectionContexts
  import opened SectionScheduling
  import opened SchedulingMeaning
  import opened SectionDrain
  import opened DrainTheorems
  import opened CoverageService

  /** src/qualor/runtime/section_scheduler.py */
  class SectionScheduler {
    const index: seq<Section>
    const ledger: CoverageLedger

    ghost predicate Valid()
      reads this, ledger
    {
      ledger.Valid() && CoverageInv(ledger.View()) && PlanOnIndex(index, ledger.items)
    }

    constructor (index: seq<Section>, ledger: CoverageLedger)
      requires ledger.Valid() && CoverageInv(ledger.View()) && PlanOnIndex(index, ledger.items)
      ensures Valid() && this.index == index && this.ledger == ledger
    {
      this.index, this.ledger := index, ledger;
    }

    /** The stack loop of `_context_for`. */
    method GatherContexts(target: Section) returns (gathered: Option<set<SectionId>>)
      requires IndexValid(index) && target in index
      ensures AllPresent(index, target.contexts) && gathered == Gather(index, target.contexts, {target.id})
    {
      TargetPresent(index, target);
      var pending := target.contexts;
      var visited := {target.id};
      while pending != []
        invariant AllPresent(index, pending)
        invariant Gather(index, pending, visited) == Gather(index, target.contexts, {target.id})
        decreases |AllIds(index) - visited|, |pending|
      {
        var id := pending[|pending| - 1];
        PendingPresent(index, pending);
        pending := pending[..|pending| - 1];
        if id !in visited {
          var section := SectionOf(index, id);
          StackShrinks(index, visited, id);
          ContextsPresent(index, id);
          BothPresent(index, pending, section.contexts);
          if !section.complete { return None; }
          visited := visited + {id};
          pending := pending + section.contexts;
        }
      }
      return Some(visited);
    }

    method ContextOf(target: Section) returns (context: Option<(seq<SectionId>, seq<Span>)>)
      requires IndexValid(index) && target in index
      ensures context == ContextFor(index, target)
    {
      var gathered := GatherContexts(target);
      if gathered.None? || !target.complete { return None; }
      var contexts := InOrder(index, gathered.value, target.id);
      var admitted := [target] + contexts;
      if !AllHaveSpans(admitted) { return None; }
      var spans := Distinct(SpansOf(admitted));
      if spans == [] || |spans| > MAX_JOB_SPANS { return None; }
      return Some((IdsOf(contexts), spans));
    }

    method AskNext(revision: nat, steps: int, terminated: bool, used: int, available: bool) returns (answer: Answer)
      requires Valid()
      modifies ledger
      ensures (ledger.View(), answer)
          == NextJob(old(ledger.View()), index, revision, steps, terminated, used, available)
      ensures CoverageInv(ledger.View()) && (!answer.Raised? ==> Valid())
    {
      ghost var before := ledger.View();
      NextJobMeaning(before, index, revision, steps, terminated, used, available);
      if terminated { return NoJob(RunTerminated); }
      if steps <= 0 { return NoJob(StepBound); }
      if used == MAX_EXTRACTION_JOBS {
        var refused := ledger.MarkPlanOverflow();
        return if refused.Some? then Raised(refused.value) else NoJob(PlanExhausted);
      }
      if !available { return NoJob(BudgetExhausted); }
      CoverageReconciliation.ReconcileMeaning(before, revision);
      var refused := ledger.ReconcilePlan(revision);
      answer := OfferActive(revision);
    }

    method OfferActive(revision: nat) returns (answer: Answer)
      requires ledger.Valid() && PlanOnIndex(index, ledger.items)
      modifies ledger
      ensures ledger.Valid() || answer.Raised?
      ensures ActiveSections(old(ledger.View()))
              && (ledger.View(), answer)
                 == Offer(old(ledger.View()), index, ActiveItems(old(ledger.View()), |ledger.items|), revision, false)
    {
      ghost var before := ledger.View();
      ActiveSectionsPresent(index, before, |ledger.items|);
      var active := ActiveItems(ledger.View(), |ledger.items|);
      var missing := false;
      for k := 0 to |active|
        invariant ledger.Valid()
        invariant forall j :: 0 <= j < |active| ==> Present(index, active[j].0.section)
        invariant forall j :: 0 <= j < |active[k..]| ==> Present(index, active[k..][j].0.section)
        invariant Offer(ledger.View(), index, active[k..], revision, missing)
            == Offer(before, index, active, revision, false)
      {
        var (item, cats) := active[k];
        assert active[k..][1..] == active[k + 1..];
        assert active[k..][0] == active[k];
        assert Present(index, item.section);
        var context := ContextOf(SectionOf(index, item.section));
        if context.Some? {
          return Issued(JobFor(item, cats, context.value, revision));
        }
        var refused := ledger.MarkContextUnresolved(item.id, cats);
        if refused.Some? { return Raised(refused.value); }
        missing := true;
      }
      return NoJob(if missing || AnyContextMissing(ledger.View()) then ContextsUnresolved else PlanExhausted);
    }

    ghost predicate ActiveSections(l: Ledger) {
      |l.items| == |ledger.items|
      && forall k :: 0 <= k < |ActiveItems(l, |l.items|)| ==> Present(index, ActiveItems(l, |l.items|)[k].0.section)
    }

    method Start(job: Job) returns (refused: bool)
      requires ledger.Valid()
      modifies ledger
      ensures ledger.Valid()
      ensures match BeginJob(old(ledger.View()), index, job)
              case Ok(m) => !refused && ledger.View() == m
              case Err(_) => refused && ledger.View() == old(ledger.View())
    {
      if !(exists i :: 0 <= i < |index| && index[i].id == job.section) { return true; }
      var item := Find(ledger.items, job.item);
      if item.None? || item.value.section != job.section || item.value.tier != job.tier { return true; }
      if job.categories != item.value.categories { return true; }
      if job.jobId != JobId(item.value.id, job.categories, job.revision) { return true; }
      var error := ledger.BeginItem(job.item, job.categories, job.revision);
      return error.Some?;
    }
  }

  /** src/qualor/runtime/loop.py: the counters a run stops on. */
  class OpportunityRun {
    var steps: nat
    const maxSteps: nat
    var noProgress: nat
    var failures: nat
    var actions: set<ActionKey>
    var stopped: Option<StopReason>
    var revision: nat
    var calls: nat
    const callLimit: int

    function View(): Run
      reads this
    {
      Run(steps, maxSteps, noProgress, failures, actions, stopped, revision, calls, callLimit)
    }

    constructor (maxSteps: nat, callLimit: int, calls: nat)
      ensures View() == Run(0, maxSteps, 0, 0, {}, None, 0, calls, callLimit)
    {
      this.maxSteps, this.callLimit, this.calls := maxSteps, callLimit, calls;
      steps, noProgress, failures, actions, stopped, revision := 0, 0, 0, {}, None, 0;
    }

    method StopWith(reason: StopReason)
      modifies this
      ensures View() == Stop(old(View()), reason)
    {
      if stopped.None? { stopped := Some(reason); }
    }

    method EnterAction(key: ActionKey) returns (entered: bool)
      modifies this
      ensures (View(), entered) == Enter(old(View()), key)
    {
      if stopped.Some? { return false; }
      if steps >= maxSteps {
        StopWith(MaxSteps);
        return false;
      }
      steps := steps + 1;
      if key in actions {
        noProgress := noProgress + 1;
        if noProgress >= 3 { StopWith(NoProgress); }
        return false;
      }
      actions := actions + {key};
      return true;
    }

    method RecordFailure(budget: bool)
      modifies this
      ensures View() == Failure(old(View()), budget)
    {
      if budget {
        StopWith(BudgetStop);
      } else {
        failures := failures + 1;
        if failures >= 3 { StopWith(ToolFailureBound); }
      }
    }

    /** The counters after `_admit`: a newer authority revision, or one more step without progress. */
    method RecordAdmission(changed: bool, verdict: Option<StopReason>)
      modifies this
      ensures View() == Progressed(old(View()), changed, verdict)
    {
      if changed {
        revision := revision + 1;
        if verdict.Some? { StopWith(verdict.value); }
      } else {
        noProgress := noProgress + 1;
        if noProgress >= 3 { StopWith(NoProgress); }
      }
    }

    /** A covered extraction: one dispatched call, and what admitting its facts led to. */
    method CountCall(admission: Admission)
      modifies this
      ensures View() == Admit(Called(old(View())), admission)
    {
      calls := calls + 1;
      match admission
      case Admitted(changed, stop) => RecordAdmission(changed, stop);
      case AdmissionFailed(budget, changed, stop) =>
        if changed { RecordAdmission(true, stop); }
        RecordFailure(budget);
    }
  }

  /** src/qualor/runtime/section_acquisition.py */
  class SectionAcquisition {
    const run: OpportunityRun
    const scheduler: SectionScheduler
    const ledger: CoverageLedger
    const initial: nat

    function View(): Acquisition
      reads this, run, ledger
    {
      Acquisition(run.View(), ledger.View(), initial)
    }

    ghost predicate Valid()
      reads this, run, scheduler, ledger
    {
      scheduler.ledger == ledger && scheduler.Valid() && DrainInv(View(), scheduler.index)
    }

    constructor (run: OpportunityRun, scheduler: SectionScheduler)
      requires scheduler.Valid() && run.steps <= run.maxSteps && run.actions == {}
      ensures Valid() && this.run == run && this.scheduler == scheduler && ledger == scheduler.ledger
      ensures View() == Acquisition(run.View(), scheduler.ledger.View(), run.calls)
    {
      this.run, this.scheduler, this.ledger := run, scheduler, scheduler.ledger;
      initial := run.calls;
    }

    method SettleFailure(job: Job, dispatched: bool, budget: bool) returns (verdict: Verdict)
      requires ledger.Valid()
      modifies run, ledger
      ensures HandleFailure(old(View()), job, dispatched, budget) == (View(), verdict)
      ensures verdict.Going? ==> ledger.Valid()
    {
      var error: Option<Error>;
      if budget && !dispatched {
        error := ledger.BudgetBlockedItem(job.item, job.categories);
      } else {
        error := ledger.OperationalFailureItem(job.item, job.categories);
      }
      if error.Some? { return Crashed; }
      run.RecordFailure(budget);
      return Going;
    }

    /** An extraction that raised before its coverage was recorded. */
    method Abandon(job: Job, dispatched: bool, budget: bool) returns (verdict: Verdict)
      requires ledger.Valid()
      modifies run, ledger
      ensures Extracted(old(View()), job, Interrupted(dispatched, budget)) == (View(), verdict)
      ensures verdict.Going? ==> ledger.Valid()
    {
      ghost var before := View();
      if dispatched { run.calls := run.calls + 1; }
      ghost var r := run.View();
      assert View() == before.(run := r);
      verdict := SettleFailure(job, dispatched, budget);
      InterruptedIs(before, job, dispatched, budget, r);
    }

    method RecordCoverage(job: Job, f: Category -> Outcome, admission: Admission)
      requires ledger.Valid() && CompletesWhenCovered(job, Covered(f, admission))
      modifies run, ledger
      ensures ledger.Valid() && Extracted(old(View()), job, Covered(f, admission)) == (View(), Going)
    {
      ghost var before := View();
      var results := OutcomesFor(job.categories, f);
      var error := ledger.CompleteItem(job.item, job.categories, results, job.revision);
      ghost var m := ledger.View();
      assert Complete(before.ledger, job.item, job.categories, results, job.revision) == Ok(m);
      assert run.View() == before.run;
      run.CountCall(admission);
      assert run.View() == Admit(Called(before.run), admission);
      assert ledger.View() == m;
      CoveredEndsIn(before, View(), job, f, admission, m);
    }

    method Extract(job: Job, e: Extraction) returns (verdict: Verdict)
      requires ledger.Valid() && CompletesWhenCovered(job, e)
      modifies run, ledger
      ensures Extracted(old(View()), job, e) == (View(), verdict)
      ensures verdict.Going? ==> ledger.Valid()
    {
      match e
      case Interrupted(dispatched, budget) => verdict := Abandon(job, dispatched, budget);
      case Covered(f, admission) =>
        RecordCoverage(job, f, admission);
        verdict := Going;
    }

    /** A covered extraction of a begun job is always recorded. */
    ghost predicate CompletesWhenCovered(job: Job, e: Extraction)
      requires ledger.Valid()
      reads this, ledger
    {
      e.Covered? ==> Complete(ledger.View(), job.item, job.categories, OutcomesFor(job.categories, e.outcome),
          job.revision).Ok?
    }

    /** An issued job, entered, begun and extracted. */
    method PursueJob(job: Job, e: Extraction) returns (verdict: Verdict)
      requires ledger.Valid() && scheduler.ledger == ledger
      requires BeginJob(ledger.View(), scheduler.index, job).Ok? && e.Covered? ==>
                 Sound(BeginJob(ledger.View(), scheduler.index, job).value)
                 && Complete(BeginJob(ledger.View(), scheduler.index, job).value, job.item, job.categories,
                             OutcomesFor(job.categories, e.outcome), job.revision).Ok?
      requires BeginJob(ledger.View(), scheduler.index, job).Ok? ==>
          Sound(BeginJob(ledger.View(), scheduler.index, job).value)
      modifies run, ledger
      ensures Pursue(old(View()), scheduler.index, old(ledger.View()), job, e) == (View(), verdict)
      ensures !verdict.Crashed? ==> ledger.Valid()
    {
      var entered := run.EnterAction((job.section, job.categories));
      if !entered { return Finished; }
      var refused := scheduler.Start(job);
      if refused { return Crashed; }
      verdict := Extract(job, e);
    }

    /** One iteration of the drain loop. */
    method Iterate(e: Extraction) returns (verdict: Verdict)
      requires Valid() && run.stopped.None?
      modifies run, ledger
      ensures DrainStep(old(View()), scheduler.index, e) == (View(), verdict)
      ensures !verdict.Crashed? ==> Valid()
    {
      ghost var before := View();
      StepKeeps(before, scheduler.index, e);
      var answer := scheduler.AskNext(
        run.revision, run.maxSteps - run.steps, run.stopped.Some?, run.calls - initial, run.calls < run.callLimit);
      match answer
      case Raised(_) => verdict := Crashed;
      case NoJob(reason) =>
        run.StopWith(StopFor(reason));
        verdict := Finished;
      case Issued(job) =>
        AskedCompletes(before, scheduler.index, e);
        verdict := PursueJob(job, e);
    }

    method DrainAll(script: nat -> Extraction) returns (verdict: Verdict)
      requires Valid()
      modifies run, ledger
      ensures Drain(old(View()), scheduler.index, script) == (View(), verdict)
      ensures !verdict.Crashed? ==> Valid()
    {
      while run.stopped.None?
        invariant Valid() && Drain(View(), scheduler.index, script) == Drain(old(View()), scheduler.index, script)
        decreases run.maxSteps - run.steps
      {
        StepKeeps(View(), scheduler.index, script(run.steps));
        verdict := Iterate(script(run.steps));
        if !verdict.Going? { return; }
      }
      return Finished;
    }
  }

  /** After an issued job has begun, recording its outcomes cannot fail. */
  lemma BegunCompletes(l: Ledger, index: seq<Section>, job: Job, i: nat, e: Extraction)
    requires CoverageInv(l) && PlanOnIndex(index, l.items) && IssuedFrom(l, index, job, i)
    ensures BeginJob(l, index, job).Ok? ==>
              CoverageInv(BeginJob(l, index, job).value)
              && (e.Covered? ==>
                    Complete(BeginJob(l, index, job).value, job.item, job.categories,
                             OutcomesFor(job.categories, e.outcome), job.revision).Ok?)
  {
    BeginAccepts(l, index, job, i);
    if BeginJob(l, index, job).Ok? && e.Covered? {
      OutcomeKeys(job.categories, e.outcome);
      var n := CompleteBegun(l, BeginJob(l, index, job).value, job, i, OutcomesFor(job.categories, e.outcome));
    }
  }

  /** The same of whatever job the drain asks for. */
  lemma AskedCompletes(a: Acquisition, index: seq<Section>, e: Extraction)
    requires DrainInv(a, index)
    ensures var (l, answer) := Ask(a, index);
            answer.Issued? ==>
              CoverageInv(l) && PlanOnIndex(index, l.items)
              && (BeginJob(l, index, answer.job).Ok? ==>
                    CoverageInv(BeginJob(l, index, answer.job).value)
                    && (e.Covered? ==>
                          Complete(BeginJob(l, index, answer.job).value, answer.job.item, answer.job.categories,
                                   OutcomesFor(answer.job.categories, e.outcome), answer.job.revision).Ok?))
  {
    NextJobMeaning(a.ledger, index, a.run.revision, a.run.maxSteps - a.run.steps, a.run.stopped.Some?,
                   a.run.calls - a.initial, a.run.calls < a.run.callLimit);
    var (l, answer) := Ask(a, index);
    if answer.Issued? {
      var i :| IssuedFrom(l, index, answer.job, i);
      BegunCompletes(l, index, answer.job, i, e);
    }
  }

  lemma PendingPresent(index: seq<Section>, pending: seq<SectionId>)
    requires AllPresent(index, pending) && pending != []
    ensures Present(index, pending[|pending| - 1]) && AllPresent(index, pending[..|pending| - 1])
  {
  }

  lemma BothPresent(index: seq<Section>, a: seq<SectionId>, b: seq<SectionId>)
    requires AllPresent(index, a) && AllPresent(index, b)
    ensures AllPresent(index, a + b)
  {
    forall k | 0 <= k < |a + b| ensures Present(index, (a + b)[k]) {
      if k < |a| { assert Present(index, a[k]); } else { assert Present(index, b[k - |a|]); }
    }
  }
}
