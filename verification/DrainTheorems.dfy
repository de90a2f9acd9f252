/** A whole drain: it terminates, stays within seven dispatches, and ends with the run stopped. */
module DrainTheorems {
  import EligibilityModel
  import opened Wrappers
  import opened AcquisitionModel
  import opened ActivationClosure
  import opened Activations
  import opened CoverageRules
  import opened CoverageInvariants
  import opened CoverageReconciliation
  import opened CoverageStart
  import opened CoverageTransitions
  import opened SectionContexts
  import opened SectionScheduling
  import opened SchedulingMeaning
  import opened SectionDrain

  // ----- an untried item's action key has never been entered

  ghost predicate Untried(l: Ledger, item: Item) {
    && item.categories != [] && (item.id, item.categories[0]) in l.states
    && (StateOf(l, item).Inactive? || StateOf(l, item).Active?)
  }

  ghost predicate FreshKeys(actions: set<ActionKey>, l: Ledger) {
    forall i {:trigger Untried(l, l.items[i])} :: 0 <= i < |l.items| && Untried(l, l.items[i]) ==>
      (l.items[i].section, l.items[i].categories) !in actions
  }

  lemma FreshForward(actions: set<ActionKey>, l: Ledger, m: Ledger)
    requires Forward(l, m) && FreshKeys(actions, l)
    ensures FreshKeys(actions, m)
  {
    forall i | 0 <= i < |m.items| && Untried(m, m.items[i])
      ensures (m.items[i].section, m.items[i].categories) !in actions
    {
      assert ItemForward(l, m, l.items[i]);
      assert Untried(l, l.items[i]);
    }
  }

  lemma FreshAdds(actions: set<ActionKey>, l: Ledger, i: nat)
    requires PlanValid(l.items) && FreshKeys(actions, l) && i < |l.items| && !Untried(l, l.items[i])
    requires l.items[i].categories != []
    ensures FreshKeys(actions + {(l.items[i].section, l.items[i].categories)}, l)
  {
    var x := l.items[i];
    forall j | 0 <= j < |l.items| && Untried(l, l.items[j])
      ensures (l.items[j].section, l.items[j].categories) !in actions + {(x.section, x.categories)}
    {
      if j != i {
        DifferentKeys(l.items, i, j);
      }
    }
  }

  lemma DifferentKeys(items: seq<Item>, i: nat, j: nat)
    requires PlanValid(items) && i < |items| && j < |items| && i != j && items[i].categories != []
    ensures (items[j].section, items[j].categories) != (items[i].section, items[i].categories)
  {
    assert items[i].categories[0] in items[i].categories;
  }

  // ----- the invariant of the loop

  ghost predicate ReserveActive(l: Ledger) {
    exists e :: Entry(l, e) && e.0.tier.ReserveFallback?
  }

  ghost predicate DrainInv(a: Acquisition, index: seq<Section>) {
    && Loaded(a, index)
    && a.run.steps <= a.run.maxSteps
    && a.initial <= a.run.calls <= a.initial + MAX_EXTRACTION_JOBS
    && (a.run.stopped.None? ==> FreshKeys(a.run.actions, a.ledger))
  }

  /** What one iteration does, whatever the extraction returns. */
  ghost predicate Stepped(a: Acquisition, b: Acquisition, v: Verdict) {
    && b.initial == a.initial && b.run.maxSteps == a.run.maxSteps && b.run.callLimit == a.run.callLimit
    && b.ledger.items == a.ledger.items && CoverageInv(b.ledger) && Forward(a.ledger, b.ledger)
    && a.run.calls <= b.run.calls <= a.run.calls + 1
    && b.run.calls <= b.initial + MAX_EXTRACTION_JOBS && b.run.steps <= b.run.maxSteps
    && (v.Going? ==> b.run.steps == a.run.steps + 1)
    && a.run.steps <= b.run.steps
    && (v.Crashed? ==> ReserveActive(b.ledger))
    && (v.Finished? ==> b.run.stopped.Some? || ReserveActive(b.ledger))
  }

  lemma FailureStops(r: Run, budget: bool)
    ensures var f := Failure(r, budget);
            && f.steps == r.steps && f.maxSteps == r.maxSteps && f.actions == r.actions && f.calls == r.calls
            && f.callLimit == r.callLimit && (budget ==> f.stopped.Some?)
            && (r.stopped.Some? ==> f.stopped.Some?)
  {
  }

  lemma ProgressedKeeps(r: Run, changed: bool, verdict: Option<StopReason>)
    ensures var p := Progressed(r, changed, verdict);
            && p.steps == r.steps && p.maxSteps == r.maxSteps && p.actions == r.actions && p.calls == r.calls
            && p.callLimit == r.callLimit && (r.stopped.Some? ==> p.stopped.Some?)
  {
  }

  /** How an extraction may leave the run and the ledger. */
  ghost predicate Left(l: Ledger, a: Acquisition, b: Acquisition, i: nat) {
    && SameScript(a.run, b.run) && b.initial == a.initial
    && CoverageInv(b.ledger) && b.ledger.items == a.ledger.items && Forward(l, b.ledger)
    && (b.run.stopped.None? ==> Forward(a.ledger, b.ledger) && ItemMoved(a.ledger, b.ledger, i))
    && (ItemMoved(a.ledger, b.ledger, i) || (b.run.stopped.Some? && ItemIn(b.ledger, i, Active)))
  }

  ghost predicate SameScript(r: Run, s: Run) {
    && s.steps == r.steps && s.maxSteps == r.maxSteps && s.actions == r.actions && s.callLimit == r.callLimit
    && r.calls <= s.calls <= r.calls + 1
  }

  lemma LeftWith(l: Ledger, a: Acquisition, r: Run, m: Ledger, i: nat)
    requires SameScript(a.run, r) && CoverageInv(m) && m.items == a.ledger.items && Forward(l, m)
    requires r.stopped.None? ==> Forward(a.ledger, m) && ItemMoved(a.ledger, m, i)
    requires ItemMoved(a.ledger, m, i) || (r.stopped.Some? && ItemIn(m, i, Active))
    ensures Left(l, a, a.(run := r, ledger := m), i)
  {
  }

  lemma InterruptedIs(a: Acquisition, job: Job, dispatched: bool, budget: bool, r: Run)
    requires Sound(a.ledger) && r == if dispatched then a.run.(calls := a.run.calls + 1) else a.run
    ensures Extracted(a, job, Interrupted(dispatched, budget)) == HandleFailure(a.(run := r), job, dispatched, budget)
  {
  }

  lemma InterruptedMeaning(l: Ledger, a: Acquisition, job: Job, i: nat, dispatched: bool, budget: bool)
    requires CoverageInv(l) && Begun(l, a.ledger, job, i) && job.item == l.items[i].id && CoverageInv(a.ledger)
    ensures var (b, v) := Extracted(a, job, Interrupted(dispatched, budget));
            v.Going? && Left(l, a, b, i)
  {
    var r := if dispatched then a.run.(calls := a.run.calls + 1) else a.run;
    InterruptedIs(a, job, dispatched, budget, r);
    FailureStops(r, budget);
    FailureStops(r, true);
    if budget && !dispatched {
      var m := BlockBegun(l, a.ledger, job, i);
      LeftWith(l, a, Failure(r, true), m, i);
    } else {
      var m := FailBegun(l, a.ledger, job, i);
      ForwardTransitive(l, a.ledger, m);
      LeftWith(l, a, Failure(r, budget), m, i);
    }
  }

  /**
   * From a begun job every ending keeps the ledger, and accounts the item or stops the run with the item
   * active again.
   */
  lemma ExtractedMeaning(l: Ledger, a: Acquisition, job: Job, i: nat, e: Extraction)
    requires CoverageInv(l) && Begun(l, a.ledger, job, i) && job.item == l.items[i].id && CoverageInv(a.ledger)
    ensures var (b, v) := Extracted(a, job, e);
            v.Going? && Left(l, a, b, i)
  {
    match e
    case Interrupted(dispatched, budget) =>
      InterruptedMeaning(l, a, job, i, dispatched, budget);
    case Covered(f, admission) =>
      CoveredMeaning(l, a, job, i, f, admission);
  }

  lemma OutcomeKeys(cats: seq<Category>, f: Category -> Outcome)
    ensures OutcomesFor(cats, f).Keys == set c | c in cats
  {
  }

  /** One more dispatched call. */
  function Called(r: Run): Run { r.(calls := r.calls + 1) }

  lemma CoveredIs(a: Acquisition, job: Job, f: Category -> Outcome, admission: Admission, m: Ledger)
    requires Sound(a.ledger)
    requires Complete(a.ledger, job.item, job.categories, OutcomesFor(job.categories, f), job.revision) == Ok(m)
    ensures Extracted(a, job, Covered(f, admission))
         == (a.(run := Admit(Called(a.run), admission), ledger := m), Going)
  {
  }

  lemma CoveredEndsIn(a: Acquisition, b: Acquisition, job: Job, f: Category -> Outcome, admission: Admission, m: Ledger)
    requires Sound(a.ledger)
    requires Complete(a.ledger, job.item, job.categories, OutcomesFor(job.categories, f), job.revision) == Ok(m)
    requires b == a.(run := Admit(Called(a.run), admission), ledger := m)
    ensures Extracted(a, job, Covered(f, admission)) == (b, Going)
  {
    CoveredIs(a, job, f, admission, m);
  }

  lemma AdmitKeeps(r: Run, admission: Admission) returns (after: Run)
    ensures after == Admit(Called(r), admission) && SameScript(r, after)
  {
    var called := Called(r);
    after := Admit(called, admission);
    match admission
    case Admitted(changed, verdict) => ProgressedKeeps(called, changed, verdict);
    case AdmissionFailed(budget, changed, verdict) =>
      ProgressedKeeps(called, true, verdict);
      FailureStops(if changed then Newer(called, verdict) else called, budget);
  }

  lemma CoveredOutcome(l: Ledger, a: Acquisition, job: Job, i: nat, f: Category -> Outcome, admission: Admission)
    returns (m: Ledger)
    requires CoverageInv(l) && Begun(l, a.ledger, job, i) && job.item == l.items[i].id && CoverageInv(a.ledger)
    ensures Extracted(a, job, Covered(f, admission))
         == (a.(run := Admit(Called(a.run), admission), ledger := m), Going)
    ensures CoverageInv(m) && Forward(a.ledger, m) && ItemMoved(a.ledger, m, i)
  {
    OutcomeKeys(job.categories, f);
    m := CompleteBegun(l, a.ledger, job, i, OutcomesFor(job.categories, f));
    CoveredIs(a, job, f, admission, m);
  }

  lemma CoveredMeaning(l: Ledger, a: Acquisition, job: Job, i: nat, f: Category -> Outcome, admission: Admission)
    requires CoverageInv(l) && Begun(l, a.ledger, job, i) && job.item == l.items[i].id && CoverageInv(a.ledger)
    ensures var (b, v) := Extracted(a, job, Covered(f, admission));
            v.Going? && Left(l, a, b, i)
  {
    var m := CoveredOutcome(l, a, job, i, f, admission);
    LeftAfterAdmission(l, a, m, admission, i);
  }

  lemma LeftAfterAdmission(l: Ledger, a: Acquisition, m: Ledger, admission: Admission, i: nat)
    requires CoverageInv(m) && Forward(l, a.ledger) && Forward(a.ledger, m) && ItemMoved(a.ledger, m, i)
    ensures Left(l, a, a.(run := Admit(Called(a.run), admission), ledger := m), i)
  {
    var after := AdmitKeeps(a.run, admission);
    ForwardTransitive(l, a.ledger, m);
    LeftWith(l, a, after, m, i);
  }

  lemma WideIsReserve(l: Ledger)
    requires exists e :: Entry(l, e) && Wide(e)
    ensures ReserveActive(l)
  {
  }

  lemma IssuedReserve(l: Ledger, index: seq<Section>, job: Job, i: nat)
    requires PlanOnIndex(index, l.items) && IssuedFrom(l, index, job, i) && job.tier.ReserveFallback?
    ensures ReserveActive(l)
  {
    assert Entry(l, (l.items[i], job.categories));
  }

  /** An issued addressed job has a key that was never entered. */
  lemma IssuedIsFresh(l: Ledger, index: seq<Section>, job: Job, i: nat, actions: set<ActionKey>)
    requires CoverageInv(l) && PlanOnIndex(index, l.items) && IssuedFrom(l, index, job, i) && !job.tier.ReserveFallback?
    requires FreshKeys(actions, l)
    ensures (job.section, job.categories) !in actions
    ensures l.items[i].categories == job.categories != []
  {
    assert Addressed(l.items[i]);
    EntryIsWhole(l, i, job.categories);
    assert Untried(l, l.items[i]);
  }

  /** The scheduler raised, or issued a reserve job that this run has not entered before. */
  ghost predicate Fatal(a: Acquisition, answer: Answer) {
    answer.Raised?
    || (answer.Issued? && answer.job.tier.ReserveFallback?
        && (answer.job.section, answer.job.categories) !in a.run.actions)
  }

  /** One iteration from a running state keeps the invariant, and raises exactly when the answer is fatal. */
  lemma StepKeeps(a: Acquisition, index: seq<Section>, e: Extraction)
    requires DrainInv(a, index) && a.run.stopped.None?
    ensures var (b, v) := DrainStep(a, index, e);
            && Stepped(a, b, v) && (!v.Crashed? ==> DrainInv(b, index))
            && (v.Crashed? <==> Fatal(a, Ask(a, index).1))
  {
    var steps, used, available := a.run.maxSteps - a.run.steps, a.run.calls - a.initial, a.run.calls < a.run.callLimit;
    NextJobMeaning(a.ledger, index, a.run.revision, steps, false, used, available);
    var (l, answer) := Ask(a, index);
    FreshForward(a.run.actions, a.ledger, l);
    match answer
    case Raised(_) => WideIsReserve(l);
    case NoJob(reason) => StoppedStep(a, index, l, Stop(a.run, StopFor(reason)));
    case Issued(job) =>
      var i :| IssuedFrom(l, index, job, i);
      IssuedStep(a, index, e, l, job, i);
  }

  lemma StoppedStep(a: Acquisition, index: seq<Section>, l: Ledger, r: Run)
    requires DrainInv(a, index) && CoverageInv(l) && l.items == a.ledger.items && Forward(a.ledger, l)
    requires r == a.run.(stopped := r.stopped) && r.stopped.Some?
    ensures Stepped(a, a.(ledger := l, run := r), Finished) && DrainInv(a.(ledger := l, run := r), index)
  {
  }

  ghost predicate Sound(l: Ledger) { Refers(l.items, l.activations) && UniqueIds(l.items) }

  lemma IssuedStep(a: Acquisition, index: seq<Section>, e: Extraction, l: Ledger, job: Job, i: nat)
    requires DrainInv(a, index) && a.run.stopped.None?
    requires CoverageInv(l) && l.items == a.ledger.items && Forward(a.ledger, l) && FreshKeys(a.run.actions, l)
    requires IssuedFrom(l, index, job, i)
    requires a.run.steps < a.run.maxSteps && a.run.calls - a.initial < MAX_EXTRACTION_JOBS
    ensures BeginJob(l, index, job).Ok? ==> Sound(BeginJob(l, index, job).value)
    ensures var (b, v) := Pursue(a, index, l, job, e);
            && Stepped(a, b, v) && (!v.Crashed? ==> DrainInv(b, index))
            && (v.Crashed? <==> job.tier.ReserveFallback? && (job.section, job.categories) !in a.run.actions)
  {
    BeginAccepts(l, index, job, i);
    if job.tier.ReserveFallback? {
      IssuedReserve(l, index, job, i);
      ReservePursuit(a, index, e, l, job);
    } else {
      IssuedIsFresh(l, index, job, i, a.run.actions);
      AddressedPursuit(a, index, e, l, BeginJob(l, index, job).value, job, i);
    }
  }

  /** A reserve job whose key is new is refused by `begin`, and one already entered ends the loop. */
  lemma ReservePursuit(a: Acquisition, index: seq<Section>, e: Extraction, l: Ledger, job: Job)
    requires DrainInv(a, index) && a.run.stopped.None? && a.run.steps < a.run.maxSteps
    requires CoverageInv(l) && l.items == a.ledger.items && Forward(a.ledger, l) && FreshKeys(a.run.actions, l)
    requires BeginJob(l, index, job).Err? && ReserveActive(l)
    ensures var (b, v) := Pursue(a, index, l, job, e);
            && Stepped(a, b, v) && (!v.Crashed? ==> DrainInv(b, index))
            && (v.Crashed? <==> (job.section, job.categories) !in a.run.actions)
  {
    var (r, entered) := Enter(a.run, (job.section, job.categories));
    RefusedStep(a, index, l, r, if entered then Crashed else Finished);
  }

  lemma RefusedStep(a: Acquisition, index: seq<Section>, l: Ledger, r: Run, v: Verdict)
    requires DrainInv(a, index) && a.run.stopped.None? && a.run.steps < a.run.maxSteps
    requires CoverageInv(l) && l.items == a.ledger.items && Forward(a.ledger, l) && FreshKeys(a.run.actions, l)
    requires ReserveActive(l) && v != Going
    requires r.maxSteps == a.run.maxSteps && r.callLimit == a.run.callLimit && r.calls == a.run.calls
    requires r.steps == a.run.steps + 1 && (v.Finished? ==> r.actions == a.run.actions)
    ensures Stepped(a, a.(ledger := l, run := r), v) && (!v.Crashed? ==> DrainInv(a.(ledger := l, run := r), index))
  {
  }

  lemma AddressedPursuit(a: Acquisition, index: seq<Section>, e: Extraction, l: Ledger, begun: Ledger, job: Job, i: nat)
    requires DrainInv(a, index) && a.run.stopped.None?
    requires CoverageInv(l) && l.items == a.ledger.items && Forward(a.ledger, l) && FreshKeys(a.run.actions, l)
    requires BeginJob(l, index, job) == Ok(begun) && Begun(l, begun, job, i) && CoverageInv(begun)
    requires job.item == l.items[i].id && job.section == l.items[i].section
    requires (job.section, job.categories) !in a.run.actions
    requires a.run.steps < a.run.maxSteps && a.run.calls - a.initial < MAX_EXTRACTION_JOBS
    ensures var (b, v) := Pursue(a, index, l, job, e);
            v.Going? && Stepped(a, b, v) && DrainInv(b, index)
  {
    var r := EnterNew(a.run, (job.section, job.categories));
    var c := a.(run := r, ledger := begun);
    ExtractedMeaning(l, c, job, i, e);
    PursueIs(a, index, e, l, job, begun, r);
    AddressedStep(a, index, l, c, Extracted(c, job, e).0, job, i);
  }

  lemma EnterNew(r: Run, key: ActionKey) returns (s: Run)
    requires r.stopped.None? && r.steps < r.maxSteps && key !in r.actions
    ensures Enter(r, key) == (s, true) && s == r.(steps := r.steps + 1, actions := r.actions + {key})
  {
    s := r.(steps := r.steps + 1, actions := r.actions + {key});
  }

  lemma PursueIs(a: Acquisition, index: seq<Section>, e: Extraction, l: Ledger, job: Job, begun: Ledger, r: Run)
    requires Enter(a.run, (job.section, job.categories)) == (r, true)
    requires BeginJob(l, index, job) == Ok(begun) && Sound(begun)
    ensures Pursue(a, index, l, job, e) == Extracted(a.(ledger := begun, run := r), job, e)
  {
  }

  lemma AddressedStep(a: Acquisition, index: seq<Section>, l: Ledger, c: Acquisition, b: Acquisition, job: Job, i: nat)
    requires DrainInv(a, index) && a.run.steps < a.run.maxSteps && a.run.calls - a.initial < MAX_EXTRACTION_JOBS
    requires PlanValid(l.items) && l.items == a.ledger.items && FreshKeys(a.run.actions, l)
    requires Begun(l, c.ledger, job, i) && job.section == l.items[i].section && c.ledger.items == l.items
    requires c.run == a.run.(steps := a.run.steps + 1, actions := a.run.actions + {(job.section, job.categories)})
    requires c.initial == a.initial && Forward(a.ledger, l) && Left(l, c, b, i)
    ensures Stepped(a, b, Going) && DrainInv(b, index)
  {
    ForwardTransitive(a.ledger, l, b.ledger);
    if b.run.stopped.None? {
      KeysStayFresh(l, c.ledger, b.ledger, a.run.actions, job, i);
    }
  }

  lemma KeysStayFresh(l: Ledger, begun: Ledger, after: Ledger, actions: set<ActionKey>, job: Job, i: nat)
    requires FreshKeys(actions, l) && Begun(l, begun, job, i) && PlanValid(l.items)
    requires job.section == l.items[i].section
    requires Forward(begun, after) && ItemMoved(begun, after, i)
    ensures FreshKeys(actions + {(job.section, job.categories)}, after)
  {
    FreshForward(actions, l, begun);
    FreshForward(actions, begun, after);
    FreshAdds(actions, after, i);
  }

  // ----- the whole loop

  /** The loop, with the extraction of each step taken from `script`. */
  function Drain(a: Acquisition, index: seq<Section>, script: nat -> Extraction): (Acquisition, Verdict)
    requires DrainInv(a, index)
    decreases a.run.maxSteps - a.run.steps
  {
    if a.run.stopped.Some? then (a, Finished)
    else
      StepKeeps(a, index, script(a.run.steps));
      var (b, v) := DrainStep(a, index, script(a.run.steps));
      if v.Going? then Drain(b, index, script) else (b, v)
  }

  /**
   * Every drain ends. It makes at most seven dispatches although the guard only tests equality, and it
   * ends with the run stopped unless an activated reserve item made it raise or repeat itself. Along the
   * way every ledger invariant holds, and no item with categories ever goes back.
   */
  lemma DrainMeaning(a: Acquisition, index: seq<Section>, script: nat -> Extraction)
    requires DrainInv(a, index)
    ensures var (b, v) := Drain(a, index, script);
            && CoverageInv(b.ledger) && Forward(a.ledger, b.ledger)
            && b.run.calls <= a.initial + MAX_EXTRACTION_JOBS
            && b.run.steps <= a.run.maxSteps
            && !v.Going?
            && (b.run.stopped.Some? || ReserveActive(b.ledger))
            && (v.Crashed? ==> ReserveActive(b.ledger))
    decreases a.run.maxSteps - a.run.steps
  {
    ForwardReflexive(a.ledger);
    if a.run.stopped.None? {
      StepKeeps(a, index, script(a.run.steps));
      var (b, v) := DrainStep(a, index, script(a.run.steps));
      if v.Going? {
        DrainMeaning(b, index, script);
        ForwardTransitive(a.ledger, b.ledger, Drain(b, index, script).0.ledger);
      }
    }
  }

  /** A drain that has just built its ledger and scheduler starts in the invariant. */
  lemma DrainStarts(r: Run, index: seq<Section>, items: seq<Item>)
    requires PlanValid(items) && PlanOnIndex(index, items) && r.steps <= r.maxSteps && r.actions == {}
    ensures Initial(items).Ok?
    ensures DrainInv(Acquisition(r, Initial(items).value, r.calls), index)
  {
    InitialMeaning(items);
  }

  // ----- when a reserve item can be active at all

  lemma {:induction false} ActivatedFrom(acts: seq<Activation>, id: ItemId, c: Category) returns (k: nat)
    requires c in ActivatedCategories(acts, id)
    ensures k < |acts| && acts[k].item == id && c in acts[k].categories
  {
    var n := |acts| - 1;
    if c in ActivatedCategories(acts[..n], id) {
      k := ActivatedFrom(acts[..n], id, c);
    } else {
      k := n;
    }
  }

  /** Only a context edge ever activates a reserve item. */
  lemma ActiveReserveReached(l: Ledger) returns (i: nat)
    requires CoverageInv(l) && ReserveActive(l)
    ensures i < |l.items| && l.items[i].tier.ReserveFallback? && Reached(l.items, l.items[i])
  {
    var e :| Entry(l, e) && e.0.tier.ReserveFallback?;
    i :| 0 <= i < |l.items| && l.items[i] == e.0;
    assert Addressed(l.items[i]);
    ActiveAmongMembers(l, e.0.id, Recorded(l, e.0));
    assert e.1[0] in e.1;
    DistinctMembers(ActivatedCategories(l.activations, e.0.id));
    var k := ActivatedFrom(l.activations, e.0.id, e.1[0]);
    KeysAre(l.activations);
    assert Proper(l.items, KeyOf(l.activations[k]));
  }

  /**
   * When no context edge of the plan leads to a reserve item, whatever else the plan holds, nothing ever
   * raises and every drain ends with the run stopped.
   */
  lemma UnreachedReserveDrainStops(r: Run, index: seq<Section>, items: seq<Item>, script: nat -> Extraction)
    requires PlanValid(items) && PlanOnIndex(index, items) && r.steps <= r.maxSteps && r.actions == {}
    requires forall i :: 0 <= i < |items| && items[i].tier.ReserveFallback? ==> !Reached(items, items[i])
    ensures Initial(items).Ok?
    ensures DrainInv(Acquisition(r, Initial(items).value, r.calls), index)
    ensures var (b, v) := Drain(Acquisition(r, Initial(items).value, r.calls), index, script);
            v.Finished? && b.run.stopped.Some? && b.run.calls <= r.calls + MAX_EXTRACTION_JOBS
  {
    DrainStarts(r, index, items);
    var a := Acquisition(r, Initial(items).value, r.calls);
    InitialMeaning(items);
    DrainKeepsItems(a, index, script);
    DrainMeaning(a, index, script);
    var b := Drain(a, index, script).0;
    if ReserveActive(b.ledger) {
      var i := ActiveReserveReached(b.ledger);
      assert !Reached(items, items[i]);
    }
  }

  lemma DrainKeepsItems(a: Acquisition, index: seq<Section>, script: nat -> Extraction)
    requires DrainInv(a, index)
    ensures Drain(a, index, script).0.ledger.items == a.ledger.items
    decreases a.run.maxSteps - a.run.steps
  {
    if a.run.stopped.None? {
      StepKeeps(a, index, script(a.run.steps));
      var (b, v) := DrainStep(a, index, script(a.run.steps));
      if v.Going? {
        DrainKeepsItems(b, index, script);
      }
    }
  }

  /** When the scheduler answers that the plan or the contexts are exhausted, no obligation is left active. */
  lemma ExhaustedLeavesNothingActive(a: Acquisition, index: seq<Section>)
    requires DrainInv(a, index) && a.run.stopped.None?
    ensures var (l, answer) := NextJob(
              a.ledger, index, a.run.revision, a.run.maxSteps - a.run.steps, false,
              a.run.calls - a.initial, a.run.calls < a.run.callLimit);
            answer.NoJob? && (answer.reason.PlanExhausted? || answer.reason.ContextsUnresolved?) ==> NothingActive(l)
  {
    NextJobMeaning(
      a.ledger, index, a.run.revision, a.run.maxSteps - a.run.steps, false,
      a.run.calls - a.initial, a.run.calls < a.run.callLimit);
  }
}
