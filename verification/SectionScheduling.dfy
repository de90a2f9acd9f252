/** src/qualor/runtime/section_scheduler.py: which job comes next and whether it may begin. */
module SectionScheduling {
  import EligibilityModel
  import opened Wrappers
  import opened AcquisitionModel
  import opened ActivationClosure
  import opened Activations
  import opened CoverageRules
  import opened CoverageInvariants
  import opened CoverageReconciliation
  import opened SectionContexts

  /** Digest of the plan item, its categories and the authority revision; the plan and source are fixed. */
  datatype JobId = JobId(item: ItemId, categories: seq<Category>, revision: nat)

  datatype Job = Job(
    jobId: JobId, section: SectionId, categories: seq<Category>, spans: seq<Span>, contexts: seq<SectionId>,
    revision: nat, item: ItemId, tier: Tier)

  datatype Reason = RunTerminated | StepBound | BudgetExhausted | PlanExhausted | ContextsUnresolved

  datatype Answer = Issued(job: Job) | NoJob(reason: Reason) | Raised(error: Error)

  datatype BeginError = SourceMismatch | PlanMismatch | CategoriesMismatch | JobIdMismatch | Refused(error: Error)

  ghost predicate PlanOnIndex(index: seq<Section>, items: seq<Item>) {
    IndexValid(index) && forall i :: 0 <= i < |items| ==> Present(index, items[i].section)
  }

  function JobFor(item: Item, cats: seq<Category>, context: (seq<SectionId>, seq<Span>), revision: nat): Job {
    Job(JobId(item.id, cats, revision), item.section, cats, context.1, context.0, revision, item.id, item.tier)
  }

  predicate AnyContextMissing(l: Ledger) {
    exists k :: 0 <= k < |EligibilityModel.REQUIRED_CATEGORIES|
                && CategoryView(l, EligibilityModel.REQUIRED_CATEGORIES[k]).1.ContextMissing?
  }

  /** The loop over the active items: the first one whose context can be issued, the others before it set aside. */
  function Offer(l: Ledger, index: seq<Section>, active: seq<(Item, seq<Category>)>, revision: nat, missing: bool)
    : (Ledger, Answer)
    requires IndexValid(index) && forall k :: 0 <= k < |active| ==> Present(index, active[k].0.section)
    decreases |active|
  {
    if active == [] then (l, NoJob(if missing || AnyContextMissing(l) then ContextsUnresolved else PlanExhausted))
    else
      var (item, cats) := active[0];
      var context := ContextFor(index, SectionOf(index, item.section));
      if context.Some? then (l, Issued(JobFor(item, cats, context.value, revision)))
      else
        match Unresolved(l, item.id, cats)
        case Err(e) => (e.0, Raised(e.1))
        case Ok(m) => Offer(m, index, active[1..], revision, true)
  }

  lemma {:induction false} ActiveSectionsPresent(index: seq<Section>, l: Ledger, upTo: nat)
    requires PlanOnIndex(index, l.items) && upTo <= |l.items|
    ensures forall k :: 0 <= k < |ActiveItems(l, upTo)| ==> Present(index, ActiveItems(l, upTo)[k].0.section)
  {
    if upTo > 0 {
      ActiveSectionsPresent(index, l, upTo - 1);
    }
  }

  function NextJob(
    l: Ledger, index: seq<Section>, revision: nat, steps: int, terminated: bool, used: int, available: bool)
    : (Ledger, Answer)
    requires PlanOnIndex(index, l.items) && Refers(l.items, l.activations) && UniqueIds(l.items)
  {
    if terminated then (l, NoJob(RunTerminated))
    else if steps <= 0 then (l, NoJob(StepBound))
    else if used == MAX_EXTRACTION_JOBS then
      match Overflow(l)
      case Err(e) => (e.0, Raised(e.1))
      case Ok(m) => (m, NoJob(PlanExhausted))
    else if !available then (l, NoJob(BudgetExhausted))
    else
      match Reconcile(l, revision)
      case Err(e) => (e.0, Raised(e.1))
      case Ok(m) =>
        ReconcileItems(l, revision);
        ActiveSectionsPresent(index, m, |m.items|);
        Offer(m, index, ActiveItems(m, |m.items|), revision, false)
  }

  lemma {:induction false} ApplyItems(l: Ledger, acts: seq<Activation>)
    requires Apply(l, acts).Ok?
    ensures Apply(l, acts).value.items == l.items
  {
    if acts != [] {
      ApplyItems(l, acts[..|acts| - 1]);
    }
  }

  lemma ReconcileItems(l: Ledger, revision: nat)
    requires Refers(l.items, l.activations) && UniqueIds(l.items) && Reconcile(l, revision).Ok?
    ensures Reconcile(l, revision).value.items == l.items
  {
    ApplyItems(l, ActivateAll(l.items, l.activations, Requests(l, EligibilityModel.REQUIRED_CATEGORIES), revision));
  }

  function BeginJob(l: Ledger, index: seq<Section>, job: Job): Result<Ledger, BeginError> {
    if !(exists i :: 0 <= i < |index| && index[i].id == job.section) then Err(SourceMismatch)
    else
      var item := Find(l.items, job.item);
      if item.None? || item.value.section != job.section || item.value.tier != job.tier then Err(PlanMismatch)
      else if job.categories != item.value.categories then Err(CategoriesMismatch)
      else if job.jobId != JobId(item.value.id, job.categories, job.revision) then Err(JobIdMismatch)
      else
        match Begin(l, job.item, job.categories, job.revision)
        case Ok(m) => Ok(m)
        case Err(e) => Err(Refused(e))
  }

  // ----- active obligations

  lemma {:induction false} ActiveAmongMembers(l: Ledger, id: ItemId, cats: seq<Category>)
    ensures forall c :: c in ActiveAmong(l, id, cats) <==> c in cats && InState(l, id, c, Active)
  {
    if cats != [] {
      ActiveAmongMembers(l, id, cats[..|cats| - 1]);
      assert cats == cats[..|cats| - 1] + [cats[|cats| - 1]];
    }
  }

  lemma {:induction false} ActiveAmongUnique(l: Ledger, id: ItemId, cats: seq<Category>)
    requires Unique(cats)
    ensures Unique(ActiveAmong(l, id, cats))
  {
    if cats != [] {
      var n := |cats| - 1;
      ActiveAmongUnique(l, id, cats[..n]);
      ActiveAmongMembers(l, id, cats[..n]);
    }
  }

  lemma {:induction false} ActiveAmongAll(l: Ledger, id: ItemId, cats: seq<Category>)
    requires AllIn(l, id, cats, Active)
    ensures ActiveAmong(l, id, cats) == cats
  {
    if cats != [] {
      var n := |cats| - 1;
      forall k | 0 <= k < n ensures InState(l, id, cats[..n][k], Active) {
        assert InState(l, id, cats[k], Active);
      }
      ActiveAmongAll(l, id, cats[..n]);
      assert InState(l, id, cats[n], Active);
      assert cats == cats[..n] + [cats[n]];
    }
  }

  lemma {:induction false} ActiveAmongSame(l: Ledger, m: Ledger, id: ItemId, cats: seq<Category>)
    requires forall c :: InState(l, id, c, Active) <==> InState(m, id, c, Active)
    ensures ActiveAmong(l, id, cats) == ActiveAmong(m, id, cats)
  {
    if cats != [] {
      ActiveAmongSame(l, m, id, cats[..|cats| - 1]);
    }
  }

  /**
   * What an active item offers: exactly its recorded categories that are active, and an addressed item all
   * of its own.
   */
  ghost predicate Entry(l: Ledger, e: (Item, seq<Category>)) {
    e.0 in l.items && e.1 == ActiveAmong(l, e.0.id, Recorded(l, e.0)) && e.1 != []
  }

  ghost predicate Entries(l: Ledger, active: seq<(Item, seq<Category>)>) {
    && (forall k :: 0 <= k < |active| ==> Entry(l, active[k]))
    && (forall j, k :: 0 <= j < k < |active| ==> active[j].0.id != active[k].0.id)
  }

  /** Every active obligation belongs to a listed item. */
  ghost predicate Covers(l: Ledger, active: seq<(Item, seq<Category>)>) {
    forall o :: o in l.states && l.states[o].Active? ==> Covered(active, o.0)
  }

  ghost predicate Covered(active: seq<(Item, seq<Category>)>, id: ItemId) {
    exists k :: 0 <= k < |active| && active[k].0.id == id
  }

  ghost predicate NothingActive(l: Ledger) {
    forall o :: o in l.states ==> !l.states[o].Active?
  }

  ghost predicate FromFront(l: Ledger, active: seq<(Item, seq<Category>)>, upTo: nat)
    requires upTo <= |l.items|
  {
    forall k :: 0 <= k < |active| ==> exists i :: 0 <= i < upTo && active[k].0 == l.items[i]
  }

  lemma {:induction false} ActiveItemsEntries(l: Ledger, upTo: nat)
    requires upTo <= |l.items| && UniqueIds(l.items)
    ensures Entries(l, ActiveItems(l, upTo)) && FromFront(l, ActiveItems(l, upTo), upTo)
  {
    if upTo > 0 {
      ActiveItemsEntries(l, upTo - 1);
      var before, after := ActiveItems(l, upTo - 1), ActiveItems(l, upTo);
      forall k | 0 <= k < |before| ensures before[k].0.id != l.items[upTo - 1].id {
        var i :| 0 <= i < upTo - 1 && before[k].0 == l.items[i];
      }
      forall k | 0 <= k < |after| ensures exists i :: 0 <= i < upTo && after[k].0 == l.items[i] {
        if k < |before| {
          var i :| 0 <= i < upTo - 1 && before[k].0 == l.items[i];
          assert after[k].0 == l.items[i];
        } else {
          assert after[k].0 == l.items[upTo - 1];
        }
      }
    }
  }

  lemma CoveredPrefix(a: seq<(Item, seq<Category>)>, b: seq<(Item, seq<Category>)>, id: ItemId)
    ensures Covered(a, id) || Covered(b, id) ==> Covered(a + b, id)
  {
    if Covered(a, id) {
      var k :| 0 <= k < |a| && a[k].0.id == id;
      assert (a + b)[k].0.id == id;
    } else if Covered(b, id) {
      var k :| 0 <= k < |b| && b[k].0.id == id;
      assert (a + b)[|a| + k].0.id == id;
    }
  }

  lemma {:induction false} ActiveItemListed(l: Ledger, upTo: nat, i: nat)
    requires i < upTo <= |l.items| && Offered(l, l.items[i]) != []
    ensures Covered(ActiveItems(l, upTo), l.items[i].id)
  {
    if i < upTo - 1 {
      ActiveItemListed(l, upTo - 1, i);
    } else {
      assert Offered(l, l.items[i])[0].0.id == l.items[i].id;
    }
    CoveredPrefix(ActiveItems(l, upTo - 1), Offered(l, l.items[upTo - 1]), l.items[i].id);
  }

  lemma ActiveItemsCover(l: Ledger)
    requires CoverageInv(l)
    ensures Covers(l, ActiveItems(l, |l.items|)) && Entries(l, ActiveItems(l, |l.items|))
  {
    ActiveItemsEntries(l, |l.items|);
    forall o | o in l.states && l.states[o].Active? ensures Covered(ActiveItems(l, |l.items|), o.0) {
      assert ObligationKnown(l, o);
      var i :| 0 <= i < |l.items| && l.items[i].id == o.0 && o.1 in Recorded(l, l.items[i]);
      ActiveAmongMembers(l, l.items[i].id, Recorded(l, l.items[i]));
      assert o.1 in ActiveAmong(l, l.items[i].id, Recorded(l, l.items[i]));
      ActiveItemListed(l, |l.items|, i);
    }
  }

  // ----- states only move forward

  function Progress(s: ItemState): nat {
    match s
    case Inactive => 0
    case Active => 1
    case Attempted => 2
    case Accounted => 3
    case ContextUnresolved => 3
    case OverflowUndispatched => 3
  }

  ghost predicate ItemForward(l: Ledger, m: Ledger, item: Item) {
    item.categories != [] ==>
      && (item.id, item.categories[0]) in l.states && (item.id, item.categories[0]) in m.states
      && (StateOf(m, item) == StateOf(l, item) || Progress(StateOf(l, item)) < Progress(StateOf(m, item)))
  }

  /** No item with categories goes back, so a terminal one never reopens. */
  ghost predicate Forward(l: Ledger, m: Ledger) {
    m.items == l.items && forall i {:trigger ItemForward(l, m, l.items[i])} :: 0 <= i < |l.items| ==>
        ItemForward(l, m, l.items[i])
  }

  lemma ForwardTransitive(l: Ledger, m: Ledger, n: Ledger)
    requires Forward(l, m) && Forward(m, n)
    ensures Forward(l, n)
  {
    forall i | 0 <= i < |l.items| ensures ItemForward(l, n, l.items[i]) {
      assert ItemForward(l, m, l.items[i]) && ItemForward(m, n, m.items[i]);
    }
  }

  lemma ActivatedIsForward(l: Ledger, m: Ledger)
    requires OnlyActivated(l, m)
    ensures Forward(l, m)
  {
    forall i | 0 <= i < |l.items| ensures ItemForward(l, m, l.items[i]) {
      assert SameOrActivated(l, m, l.items[i]);
    }
  }

  lemma ForwardReflexive(l: Ledger)
    requires CoverageInv(l)
    ensures Forward(l, l)
  {
    OnlyActivatedReflexive(l);
    ActivatedIsForward(l, l);
  }

  lemma ElsewhereForward(l: Ledger, m: Ledger, i: nat)
    requires CoverageInv(l) && i < |l.items| && Elsewhere(l, m, l.items[i])
    requires ItemForward(l, m, l.items[i])
    ensures Forward(l, m)
  {
    forall j | 0 <= j < |l.items| ensures ItemForward(l, m, l.items[j]) {
      if j != i && l.items[j].categories != [] {
        OthersKeepState(l, m, i, j);
      }
    }
  }

  lemma Advances(a: ItemState, b: ItemState)
    requires (a.Active? && (b.Attempted? || Terminal(b))) || (a.Attempted? && Terminal(b))
    ensures Progress(a) < Progress(b)
  {
  }

  lemma MovesForward(l: Ledger, m: Ledger, item: Item)
    requires item.categories != []
    requires (item.id, item.categories[0]) in l.states && (item.id, item.categories[0]) in m.states
    requires var (a, b) := (StateOf(l, item), StateOf(m, item));
             (a.Active? && (b.Attempted? || Terminal(b))) || (a.Attempted? && Terminal(b))
    ensures ItemForward(l, m, item)
  {
    Advances(StateOf(l, item), StateOf(m, item));
  }

  // ----- setting one listed item aside

  lemma RecordedUnique(l: Ledger, item: Item)
    requires Addressed(item)
    ensures Unique(Recorded(l, item))
  {
    DistinctMembers(ActivatedCategories(l.activations, item.id));
  }

  /** An addressed active item offers exactly its own categories. */
  lemma EntryIsWhole(l: Ledger, i: nat, cats: seq<Category>)
    requires CoverageInv(l) && i < |l.items| && l.items[i].categories != [] && Entry(l, (l.items[i], cats))
    ensures cats == l.items[i].categories
    ensures (l.items[i].id, l.items[i].categories[0]) in l.states && StateOf(l, l.items[i]).Active?
  {
    var x := l.items[i];
    ActiveAmongMembers(l, x.id, x.categories);
    assert cats[0] in cats;
    UniformState(l, i, cats[0]);
    UniformAll(l, i, Active);
    ActiveAmongAll(l, x.id, x.categories);
  }

  /** `m` is `l` with the listed item's active obligations moved to `s`. */
  ghost predicate AsideOf(l: Ledger, m: Ledger, e: (Item, seq<Category>), s: ItemState) {
    m.(overflows := l.overflows) == l.(states := Marked(l.states, e.0.id, e.1, s))
  }

  lemma AsideReserve(l: Ledger, m: Ledger, i: nat, cats: seq<Category>, s: ItemState)
    requires CoverageInv(l) && i < |l.items| && l.items[i].categories == [] && Entry(l, (l.items[i], cats))
    requires AsideOf(l, m, (l.items[i], cats), s)
    ensures CoverageInv(m) && Elsewhere(l, m, l.items[i])
  {
    var x := l.items[i];
    assert m.items == l.items && m.attempts == l.attempts && m.open == l.open && m.outcomes == l.outcomes
           && m.activations == l.activations && m.states == Marked(l.states, x.id, cats, s);
    ActiveAmongMembers(l, x.id, Recorded(l, x));
    forall o | o in Obligations(x.id, cats) ensures o in l.states {
      assert InState(l, x.id, o.1, Active);
    }
    assert Cells(m, x);
    KeepInv(l, m, i);
  }

  lemma AsideAddressed(l: Ledger, m: Ledger, i: nat, s: ItemState)
    requires CoverageInv(l) && i < |l.items| && l.items[i].categories != []
    requires (l.items[i].id, l.items[i].categories[0]) in l.states && StateOf(l, l.items[i]).Active?
    requires s.ContextUnresolved? || s.OverflowUndispatched?
    requires AsideOf(l, m, (l.items[i], l.items[i].categories), s)
    ensures CoverageInv(m) && Elsewhere(l, m, l.items[i]) && Forward(l, m)
  {
    var x := l.items[i];
    assert m.(overflows := l.overflows) == l.(states := Marked(l.states, x.id, x.categories, s));
    SetAsideMeaning(l, i, m, s);
    MovesForward(l, m, x);
    ElsewhereForward(l, m, i);
  }

  lemma AsideKeeps(l: Ledger, m: Ledger, i: nat, cats: seq<Category>, s: ItemState)
    requires CoverageInv(l) && i < |l.items| && Entry(l, (l.items[i], cats))
    requires s.ContextUnresolved? || s.OverflowUndispatched?
    requires AsideOf(l, m, (l.items[i], cats), s)
    ensures CoverageInv(m) && Elsewhere(l, m, l.items[i]) && Forward(l, m)
  {
    if l.items[i].categories == [] {
      AsideReserve(l, m, i, cats, s);
      ElsewhereForward(l, m, i);
    } else {
      EntryIsWhole(l, i, cats);
      AsideAddressed(l, m, i, s);
    }
  }

  /** Afterwards none of the item's obligations is active. */
  lemma AsideClears(l: Ledger, m: Ledger, i: nat, cats: seq<Category>, s: ItemState, o: Obligation)
    requires CoverageInv(l) && i < |l.items| && Entry(l, (l.items[i], cats)) && !s.Active?
    requires AsideOf(l, m, (l.items[i], cats), s)
    requires o in m.states && o.0 == l.items[i].id
    ensures !m.states[o].Active?
  {
    var x := l.items[i];
    assert m.states == Marked(l.states, x.id, cats, s);
    if o !in Obligations(x.id, cats) {
      assert o in l.states;
      assert ObligationKnown(l, o);
      var j :| 0 <= j < |l.items| && l.items[j].id == o.0 && o.1 in Recorded(l, l.items[j]);
      assert j == i;
      ActiveAmongMembers(l, x.id, Recorded(l, x));
      assert o.1 in cats ==> (x.id, o.1) in Obligations(x.id, cats);
      assert !InState(l, x.id, o.1, Active);
    }
  }

  /** The rest of the list still describes the ledger. */
  lemma AsideRest(l: Ledger, m: Ledger, active: seq<(Item, seq<Category>)>, i: nat, s: ItemState)
    requires CoverageInv(l) && active != [] && Entries(l, active) && Covers(l, active)
    requires i < |l.items| && l.items[i] == active[0].0 && !s.Active?
    requires AsideOf(l, m, active[0], s) && Elsewhere(l, m, l.items[i])
    ensures Entries(m, active[1..]) && Covers(m, active[1..])
  {
    var rest := active[1..];
    forall k | 0 <= k < |rest| ensures Entry(m, rest[k]) {
      assert Entry(l, active[k + 1]);
      var id := rest[k].0.id;
      assert active[0].0.id != active[k + 1].0.id;
      forall c ensures InState(l, id, c, Active) <==> InState(m, id, c, Active) {
        assert (id, c) in l.states <==> (id, c) in m.states;
      }
      ActiveAmongSame(l, m, id, Recorded(l, rest[k].0));
    }
    forall j, k | 0 <= j < k < |rest| ensures rest[j].0.id != rest[k].0.id {
      assert active[j + 1].0.id != active[k + 1].0.id;
    }
    forall o | o in m.states && m.states[o].Active? ensures Covered(rest, o.0) {
      if o.0 == l.items[i].id {
        AsideClears(l, m, i, active[0].1, s, o);
      } else {
        assert l.states[o].Active?;
        assert Covered(active, o.0);
        var k :| 0 <= k < |active| && active[k].0.id == o.0;
        assert rest[k - 1].0.id == o.0;
      }
    }
  }
}
