/** What the scheduler's answers guarantee on every ledger the run can reach. */
module SchedulingMeaning {
  import EligibilityModel
  import opened Wrappers
  import opened AcquisitionModel
  import opened ActivationClosure
  import opened Activations
  import opened CoverageRules
  import opened CoverageInvariants
  import opened CoverageReconciliation
  import opened SectionContexts
  import opened SectionScheduling

  /** A reserve item activated for more categories than one record may carry. */
  ghost predicate Wide(e: (Item, seq<Category>)) {
    e.0.tier.ReserveFallback? && |e.1| > 2
  }

  lemma EntryShape(l: Ledger, i: nat, cats: seq<Category>)
    requires CoverageInv(l) && i < |l.items| && Entry(l, (l.items[i], cats))
    ensures Unique(cats) && AllIn(l, l.items[i].id, cats, Active)
    ensures |cats| > 2 ==> Wide((l.items[i], cats))
    ensures l.items[i].categories != [] ==> cats == l.items[i].categories
  {
    var x := l.items[i];
    assert Addressed(x);
    RecordedUnique(l, x);
    ActiveAmongUnique(l, x.id, Recorded(l, x));
    ActiveAmongMembers(l, x.id, Recorded(l, x));
    forall k | 0 <= k < |cats| ensures InState(l, x.id, cats[k], Active) {
      assert cats[k] in cats;
    }
    if x.categories != [] {
      EntryIsWhole(l, i, cats);
    }
  }

  /** Setting a listed item aside for want of context succeeds unless it is a wide reserve item. */
  lemma UnresolvedIs(l: Ledger, i: nat, cats: seq<Category>)
    requires CoverageInv(l) && i < |l.items| && Entry(l, (l.items[i], cats))
    ensures Unresolved(l, l.items[i].id, cats)
         == if |cats| <= 2 then Ok(l.(states := Marked(l.states, l.items[i].id, cats, ContextUnresolved)))
            else Err((l, InvalidCategories))
  {
    FindAt(l.items, i);
    EntryShape(l, i, cats);
    if |cats| <= 2 {
      UnresolveEachMeaning(l, l.items[i].id, cats, Active);
    }
  }

  /** The job is for an active item of the ledger, with its own context. */
  ghost predicate IssuedFrom(l: Ledger, index: seq<Section>, job: Job, i: nat)
    requires PlanOnIndex(index, l.items)
  {
    && i < |l.items| && Entry(l, (l.items[i], job.categories))
    && Present(index, l.items[i].section)
    && ContextFor(index, SectionOf(index, l.items[i].section)) == Some((job.contexts, job.spans))
    && job == JobFor(l.items[i], job.categories, (job.contexts, job.spans), job.revision)
  }

  /** How a search over the active items can end. */
  ghost predicate Searched(l: Ledger, index: seq<Section>, m: Ledger, answer: Answer)
    requires PlanOnIndex(index, l.items)
  {
    && CoverageInv(m) && Forward(l, m)
    && (answer.NoJob? ==> NothingActive(m) && (answer.reason.PlanExhausted? || answer.reason.ContextsUnresolved?))
    && (answer.Issued? ==> exists i :: IssuedFrom(m, index, answer.job, i))
    && (answer.Raised? ==> exists e :: Entry(m, e) && Wide(e))
  }

  lemma NothingCovered(l: Ledger)
    requires Covers(l, [])
    ensures NothingActive(l)
  {
    forall o | o in l.states ensures !l.states[o].Active? {
      assert !Covered([], o.0);
    }
  }

  lemma SearchedLater(l: Ledger, m: Ledger, index: seq<Section>, n: Ledger, answer: Answer)
    requires PlanOnIndex(index, l.items) && m.items == l.items && Forward(l, m) && Searched(m, index, n, answer)
    ensures Searched(l, index, n, answer)
  {
    ForwardTransitive(l, m, n);
  }

  // ----- which entries were set aside

  /** The obligation belongs to one of the first `k` entries. */
  ghost predicate ListedBefore(active: seq<(Item, seq<Category>)>, k: nat, o: Obligation)
    requires k <= |active|
  {
    exists j :: 0 <= j < k && active[j].0.id == o.0 && o.1 in active[j].1
  }

  /** Only the obligations of the first `k` entries moved, all to `s`. */
  ghost predicate AsideExactly(l: Ledger, m: Ledger, active: seq<(Item, seq<Category>)>, k: nat, s: ItemState)
    requires k <= |active|
  {
    && m == l.(states := m.states, overflows := m.overflows) && m.states.Keys == l.states.Keys
    && forall o {:trigger ListedBefore(active, k, o)} :: o in l.states ==>
         m.states[o] == if ListedBefore(active, k, o) then s else l.states[o]
  }

  lemma AsideNone(l: Ledger, active: seq<(Item, seq<Category>)>, s: ItemState)
    ensures AsideExactly(l, l, active, 0, s)
  {
  }

  lemma AsideFirst(
    l: Ledger, m: Ledger, n: Ledger, active: seq<(Item, seq<Category>)>, k: nat, s: ItemState)
    requires active != [] && k < |active| && m.states == Marked(l.states, active[0].0.id, active[0].1, s)
    requires m == l.(states := m.states, overflows := m.overflows) && m.states.Keys == l.states.Keys
    requires AsideExactly(m, n, active[1..], k, s)
    ensures AsideExactly(l, n, active, k + 1, s)
  {
    var rest := active[1..];
    forall o | o in l.states ensures n.states[o] == if ListedBefore(active, k + 1, o) then s else l.states[o] {
      assert ListedBefore(active, k + 1, o) <==>
          ListedBefore(rest, k, o) || o in Obligations(active[0].0.id, active[0].1) by {
        ListedStep(active, k, o);
      }
    }
  }

  lemma ListedStep(active: seq<(Item, seq<Category>)>, k: nat, o: Obligation)
    requires active != [] && k < |active|
    ensures ListedBefore(active, k + 1, o) <==>
              ListedBefore(active[1..], k, o) || o in Obligations(active[0].0.id, active[0].1)
  {
    if ListedBefore(active, k + 1, o) {
      var j :| 0 <= j < k + 1 && active[j].0.id == o.0 && o.1 in active[j].1;
      assert j > 0 ==> active[1..][j - 1] == active[j];
    }
    if ListedBefore(active[1..], k, o) {
      var j :| 0 <= j < k && active[1..][j].0.id == o.0 && o.1 in active[1..][j].1;
      assert active[j + 1] == active[1..][j];
    }
  }

  ghost predicate Resolves(index: seq<Section>, item: Item)
    requires IndexValid(index) && Present(index, item.section)
  {
    ContextFor(index, SectionOf(index, item.section)).Some?
  }

  ghost predicate AllPlaced(index: seq<Section>, active: seq<(Item, seq<Category>)>) {
    forall k {:trigger Present(index, active[k].0.section)} :: 0 <= k < |active| ==> Present(index, active[k].0.section)
  }

  /** None of the first `k` entries has a context that can be issued. */
  ghost predicate NoneResolves(index: seq<Section>, active: seq<(Item, seq<Category>)>, k: nat)
    requires IndexValid(index) && AllPlaced(index, active) && k <= |active|
  {
    forall j {:trigger Resolves(index, active[j].0)} :: 0 <= j < k ==> !Resolves(index, active[j].0)
  }

  /** Entry `k` is issued with its own context, and exactly the entries before it were set aside. */
  ghost predicate IssuedAt(
    l: Ledger, index: seq<Section>, active: seq<(Item, seq<Category>)>, revision: nat, m: Ledger, job: Job, k: nat)
    requires IndexValid(index) && AllPlaced(index, active)
  {
    && k < |active| && Present(index, active[k].0.section) && NoneResolves(index, active, k)
        && Resolves(index, active[k].0)
    && job == JobFor(
         active[k].0, active[k].1, ContextFor(index, SectionOf(index, active[k].0.section)).value, revision)
    && AsideExactly(l, m, active, k, ContextUnresolved) && m.overflows == l.overflows
  }

  /** The first entry whose context resolves is issued; without one everything is set aside. */
  ghost predicate OfferedFirst(
    l: Ledger, index: seq<Section>, active: seq<(Item, seq<Category>)>, revision: nat, m: Ledger, answer: Answer)
    requires IndexValid(index) && AllPlaced(index, active)
  {
    && (answer.Issued? ==> exists k: nat :: IssuedAt(l, index, active, revision, m, answer.job, k))
    && (answer.NoJob? ==>
          NoneResolves(index, active, |active|) && AsideExactly(l, m, active, |active|, ContextUnresolved))
  }

  lemma OfferedLater(
    l: Ledger, m: Ledger, index: seq<Section>, active: seq<(Item, seq<Category>)>, revision: nat, n: Ledger,
    answer: Answer)
    requires IndexValid(index) && active != [] && AllPlaced(index, active) && AllPlaced(index, active[1..])
    requires Present(index, active[0].0.section) && !Resolves(index, active[0].0)
    requires m == l.(states := Marked(l.states, active[0].0.id, active[0].1, ContextUnresolved))
    requires m.states.Keys == l.states.Keys
    requires OfferedFirst(m, index, active[1..], revision, n, answer)
    ensures OfferedFirst(l, index, active, revision, n, answer)
  {
    var rest := active[1..];
    if answer.Issued? {
      var k: nat :| IssuedAt(m, index, rest, revision, n, answer.job, k);
      NoneStep(index, active, k);
      AsideFirst(l, m, n, active, k, ContextUnresolved);
      assert rest[k] == active[k + 1];
      assert IssuedAt(l, index, active, revision, n, answer.job, k + 1);
    } else if answer.NoJob? {
      NoneStep(index, active, |rest|);
      AsideFirst(l, m, n, active, |rest|, ContextUnresolved);
    }
  }

  lemma NoneStep(index: seq<Section>, active: seq<(Item, seq<Category>)>, k: nat)
    requires IndexValid(index) && active != [] && AllPlaced(index, active) && AllPlaced(index, active[1..])
    requires Present(index, active[0].0.section) && !Resolves(index, active[0].0)
    requires k < |active| && NoneResolves(index, active[1..], k)
    ensures NoneResolves(index, active, k + 1)
  {
    forall j | 0 <= j < k + 1 ensures Present(index, active[j].0.section) && !Resolves(index, active[j].0) {
      assert Present(index, active[j].0.section);
      if j > 0 {
        assert active[1..][j - 1] == active[j];
        assert !Resolves(index, active[1..][j - 1].0);
      }
    }
  }

  lemma IssuedFirst(l: Ledger, index: seq<Section>, active: seq<(Item, seq<Category>)>, revision: nat)
    requires IndexValid(index) && active != [] && AllPlaced(index, active)
    requires Present(index, active[0].0.section) && Resolves(index, active[0].0)
    ensures OfferedFirst(l, index, active, revision, l, Issued(JobFor(
              active[0].0, active[0].1, ContextFor(index, SectionOf(index, active[0].0.section)).value, revision)))
  {
    AsideNone(l, active, ContextUnresolved);
    assert IssuedAt(l, index, active, revision, l, JobFor(
      active[0].0, active[0].1, ContextFor(index, SectionOf(index, active[0].0.section)).value, revision), 0);
  }

  /**
   * The search issues the first listed item whose context resolves and sets aside exactly the ones before
   * it; when none resolves it sets all of them aside. Only a wide reserve item makes it raise.
   */
  lemma {:induction false} OfferMeaning(
    l: Ledger, index: seq<Section>, active: seq<(Item, seq<Category>)>, revision: nat, missing: bool)
    requires CoverageInv(l) && PlanOnIndex(index, l.items)
    requires Entries(l, active) && Covers(l, active) && AllPlaced(index, active)
    requires forall k :: 0 <= k < |active| ==> Present(index, active[k].0.section)
    ensures var (m, answer) := Offer(l, index, active, revision, missing);
            Searched(l, index, m, answer) && OfferedFirst(l, index, active, revision, m, answer)
    decreases |active|
  {
    ForwardReflexive(l);
    if active == [] {
      NothingCovered(l);
      AsideNone(l, active, ContextUnresolved);
    } else {
      var (item, cats) := active[0];
      assert Entry(l, active[0]);
      var i :| 0 <= i < |l.items| && l.items[i] == item;
      assert Present(index, item.section);
      var context := ContextFor(index, SectionOf(index, item.section));
      if context.Some? {
        assert IssuedFrom(l, index, JobFor(item, cats, context.value, revision), i);
        IssuedFirst(l, index, active, revision);
      } else {
        UnresolvedIs(l, i, cats);
        EntryShape(l, i, cats);
        if |cats| <= 2 {
          var m := l.(states := Marked(l.states, item.id, cats, ContextUnresolved));
          OfferStep(l, m, index, active, i);
          PlacedRest(index, active);
          OfferMeaning(m, index, active[1..], revision, true);
          var (n, answer) := Offer(m, index, active[1..], revision, true);
          SearchedLater(l, m, index, n, answer);
          OfferedLater(l, m, index, active, revision, n, answer);
        } else {
          assert Entry(l, active[0]) && Wide(active[0]);
        }
      }
    }
  }

  lemma PlacedRest(index: seq<Section>, active: seq<(Item, seq<Category>)>)
    requires active != [] && AllPlaced(index, active)
    ensures AllPlaced(index, active[1..])
  {
    forall k | 0 <= k < |active[1..]| ensures Present(index, active[1..][k].0.section) {
      assert Present(index, active[k + 1].0.section);
    }
  }

  lemma OfferStep(l: Ledger, m: Ledger, index: seq<Section>, active: seq<(Item, seq<Category>)>, i: nat)
    requires CoverageInv(l) && PlanOnIndex(index, l.items) && active != []
    requires Entries(l, active) && Covers(l, active)
    requires i < |l.items| && l.items[i] == active[0].0
    requires m == l.(states := Marked(l.states, active[0].0.id, active[0].1, ContextUnresolved))
    ensures CoverageInv(m) && Forward(l, m) && m.items == l.items && m.states.Keys == l.states.Keys
    ensures Entries(m, active[1..]) && Covers(m, active[1..])
  {
    assert Entry(l, active[0]);
    assert active[0] == (l.items[i], active[0].1);
    assert AsideOf(l, m, active[0], ContextUnresolved);
    AsideKeeps(l, m, i, active[0].1, ContextUnresolved);
    AsideRest(l, m, active, i, ContextUnresolved);
  }

  /** The records a full overflow appends, one for each entry in order. */
  function OverflowRecords(active: seq<(Item, seq<Category>)>): seq<(ItemId, seq<Category>)>
    decreases |active|
  {
    if active == [] then [] else [(active[0].0.id, active[0].1)] + OverflowRecords(active[1..])
  }

  /** At capacity everything active is set aside, unless a wide reserve item stops the loop. */
  lemma {:induction false} OverflowKeeps(l: Ledger, active: seq<(Item, seq<Category>)>)
    requires CoverageInv(l) && Entries(l, active) && Covers(l, active)
    ensures var r := OverflowEach(l, active);
            && (r.Ok? ==> CoverageInv(r.value) && Forward(l, r.value) && NothingActive(r.value))
            && (r.Err? ==>
                  CoverageInv(r.error.0) && Forward(l, r.error.0) && exists w :: Entry(r.error.0, w) && Wide(w))
    decreases |active|
  {
    ForwardReflexive(l);
    if active == [] {
      NothingCovered(l);
    } else {
      var (item, cats) := active[0];
      assert Entry(l, active[0]);
      var i :| 0 <= i < |l.items| && l.items[i] == item;
      EntryShape(l, i, cats);
      if |cats| <= 2 {
        var m := SetAside(l, item.id, cats).(overflows := l.overflows + [(item.id, cats)]);
        OverflowStep(l, m, active, i);
        OverflowKeeps(m, active[1..]);
        match OverflowEach(m, active[1..])
        case Ok(n) => ForwardTransitive(l, m, n);
        case Err(e) => ForwardTransitive(l, m, e.0);
      } else {
        assert Entry(l, active[0]) && Wide(active[0]);
      }
    }
  }

  ghost predicate AllKnown(states: map<Obligation, ItemState>, active: seq<(Item, seq<Category>)>) {
    forall k {:trigger Obligations(active[k].0.id, active[k].1)} :: 0 <= k < |active| ==>
      Obligations(active[k].0.id, active[k].1) <= states.Keys
  }

  /** When the loop ends, exactly the listed obligations moved and each item has its record, in order. */
  lemma {:induction false} OverflowExactly(l: Ledger, active: seq<(Item, seq<Category>)>)
    requires AllKnown(l.states, active) && OverflowEach(l, active).Ok?
    ensures var m := OverflowEach(l, active).value;
            && AsideExactly(l, m, active, |active|, OverflowUndispatched)
            && m.overflows == l.overflows + OverflowRecords(active)
    decreases |active|
  {
    if active == [] {
      AsideNone(l, active, OverflowUndispatched);
    } else {
      var (item, cats) := active[0];
      var m := SetAside(l, item.id, cats).(overflows := l.overflows + [(item.id, cats)]);
      assert Obligations(active[0].0.id, active[0].1) <= l.states.Keys;
      assert m.states.Keys == l.states.Keys;
      forall k | 0 <= k < |active[1..]|
        ensures Obligations(active[1..][k].0.id, active[1..][k].1) <= m.states.Keys
      {
        assert active[1..][k] == active[k + 1];
        assert Obligations(active[k + 1].0.id, active[k + 1].1) <= l.states.Keys;
      }
      OverflowExactly(m, active[1..]);
      AsideFirst(l, m, OverflowEach(m, active[1..]).value, active, |active| - 1, OverflowUndispatched);
    }
  }

  lemma EntriesKnown(l: Ledger, active: seq<(Item, seq<Category>)>)
    requires Entries(l, active)
    ensures AllKnown(l.states, active)
  {
    forall k | 0 <= k < |active| ensures Obligations(active[k].0.id, active[k].1) <= l.states.Keys {
      assert Entry(l, active[k]);
      ActiveAmongMembers(l, active[k].0.id, Recorded(l, active[k].0));
      forall o | o in Obligations(active[k].0.id, active[k].1) ensures o in l.states {
        assert InState(l, o.0, o.1, Active);
      }
    }
  }

  /**
   * At capacity exactly the active obligations move, all to the overflow state, and one record is appended
   * for each item in order; only a wide reserve item stops the loop.
   */
  lemma OverflowMeaning(l: Ledger, active: seq<(Item, seq<Category>)>)
    requires CoverageInv(l) && Entries(l, active) && Covers(l, active)
    ensures var r := OverflowEach(l, active);
            && (r.Ok? ==>
                  && CoverageInv(r.value) && Forward(l, r.value) && NothingActive(r.value)
                  && AsideExactly(l, r.value, active, |active|, OverflowUndispatched)
                  && r.value.overflows == l.overflows + OverflowRecords(active))
            && (r.Err? ==>
                  CoverageInv(r.error.0) && Forward(l, r.error.0) && exists w :: Entry(r.error.0, w) && Wide(w))
  {
    OverflowKeeps(l, active);
    if OverflowEach(l, active).Ok? {
      EntriesKnown(l, active);
      OverflowExactly(l, active);
    }
  }

  lemma OverflowStep(l: Ledger, m: Ledger, active: seq<(Item, seq<Category>)>, i: nat)
    requires CoverageInv(l) && active != [] && Entries(l, active) && Covers(l, active)
    requires i < |l.items| && l.items[i] == active[0].0
    requires m == SetAside(l, active[0].0.id, active[0].1).(overflows := l.overflows + [(active[0].0.id, active[0].1)])
    ensures CoverageInv(m) && Forward(l, m) && m.states.Keys == l.states.Keys
    ensures Entries(m, active[1..]) && Covers(m, active[1..])
  {
    assert Entry(l, active[0]);
    assert active[0] == (l.items[i], active[0].1);
    assert AsideOf(l, m, active[0], OverflowUndispatched);
    AsideKeeps(l, m, i, active[0].1, OverflowUndispatched);
    AsideRest(l, m, active, i, OverflowUndispatched);
  }

  /**
   * No answer of the scheduler breaks the ledger, moves an item back, or leaves an obligation active when
   * it says there is none.
   */
  lemma NextJobMeaning(
    l: Ledger, index: seq<Section>, revision: nat, steps: int, terminated: bool, used: int, available: bool)
    requires CoverageInv(l) && PlanOnIndex(index, l.items)
    ensures var (m, answer) := NextJob(l, index, revision, steps, terminated, used, available);
            && CoverageInv(m) && Forward(l, m)
            && (answer.NoJob? && (answer.reason.PlanExhausted? || answer.reason.ContextsUnresolved?) ==>
                NothingActive(m))
            && (answer.Issued? ==> exists i :: IssuedFrom(m, index, answer.job, i))
            && (answer.Raised? ==> exists e :: Entry(m, e) && Wide(e))
            && (answer.Issued? ==> !terminated && steps > 0 && available && used != MAX_EXTRACTION_JOBS)
  {
    ForwardReflexive(l);
    if !terminated && steps > 0 {
      if used == MAX_EXTRACTION_JOBS {
        ActiveItemsCover(l);
        OverflowKeeps(l, ActiveItems(l, |l.items|));
      } else if available {
        ReconcileMeaning(l, revision);
        var m := Reconcile(l, revision).value;
        ActivatedIsForward(l, m);
        ActiveItemsCover(m);
        ActiveSectionsPresent(index, m, |m.items|);
        OfferMeaning(m, index, ActiveItems(m, |m.items|), revision, false);
        var (n, answer) := Offer(m, index, ActiveItems(m, |m.items|), revision, false);
        SearchedLater(l, m, index, n, answer);
      }
    }
  }

  /** `m` is `l` with item `i` attempted for its own categories at the job's revision, and nothing else changed. */
  ghost predicate Begun(l: Ledger, m: Ledger, job: Job, i: nat) {
    && i < |l.items| && l.items[i].categories == job.categories != []
    && Begin(l, job.item, job.categories, job.revision) == Ok(m)
    && CoverageInv(m) && Forward(l, m) && Elsewhere(l, m, l.items[i])
    && (job.item, job.categories[0]) in m.states && m.states[(job.item, job.categories[0])].Attempted?
  }

  lemma BeginJobIs(l: Ledger, index: seq<Section>, job: Job, item: Item)
    requires Find(l.items, job.item) == Some(item) && Present(index, job.section)
    requires item.id == job.item && item.section == job.section && item.tier == job.tier
    requires job.jobId == JobId(item.id, job.categories, job.revision)
    ensures job.categories != item.categories ==> BeginJob(l, index, job) == Err(CategoriesMismatch)
    ensures job.categories == item.categories && Begin(l, job.item, job.categories, job.revision).Ok? ==>
              BeginJob(l, index, job) == Ok(Begin(l, job.item, job.categories, job.revision).value)
  {
  }

  lemma BegunMeaning(l: Ledger, i: nat, job: Job)
    requires CoverageInv(l) && i < |l.items| && l.items[i].id == job.item
        && l.items[i].categories == job.categories != []
    requires Entry(l, (l.items[i], job.categories))
    ensures Begin(l, job.item, job.categories, job.revision).Ok?
    ensures Begun(l, Begin(l, job.item, job.categories, job.revision).value, job, i)
  {
    EntryIsWhole(l, i, job.categories);
    BeginMeaning(l, i, job.revision);
    MovesForward(l, Begin(l, job.item, job.categories, job.revision).value, l.items[i]);
    ElsewhereForward(l, Begin(l, job.item, job.categories, job.revision).value, i);
  }

  /** An issued job is accepted exactly when it is not for a reserve item, and then the item is attempted. */
  lemma BeginAccepts(l: Ledger, index: seq<Section>, job: Job, i: nat)
    requires CoverageInv(l) && PlanOnIndex(index, l.items) && IssuedFrom(l, index, job, i)
    ensures BeginJob(l, index, job).Ok? <==> !job.tier.ReserveFallback?
    ensures job.tier.ReserveFallback? ==> BeginJob(l, index, job) == Err(CategoriesMismatch)
    ensures BeginJob(l, index, job).Ok? ==> Begun(l, BeginJob(l, index, job).value, job, i)
  {
    var x := l.items[i];
    assert Addressed(x);
    FindAt(l.items, i);
    BeginJobIs(l, index, job, x);
    if !x.tier.ReserveFallback? {
      EntryShape(l, i, job.categories);
      BegunMeaning(l, i, job);
    }
  }
}
