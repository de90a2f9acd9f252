/** src/qualor/runtime/acquisition_coverage.py: the progress of a plan's obligations, as values. */
module CoverageRules {
  import EligibilityModel
  import ModelReceipts
  import opened Wrappers
  import opened AcquisitionModel
  import opened ActivationClosure
  import opened Activations

  datatype ItemState = Inactive | Active | Attempted | Accounted | ContextUnresolved | OverflowUndispatched

  datatype AcquisitionState =
    | Unseen | SectionAvailable | ExtractionAttempted | Supported | Ambiguous | Unsupported | Exhausted

  datatype Accounting = Pending | AccountedSupport | ExhaustedUnresolved | ContextMissing | OverflowUnresolved

  /** An acquisition outcome. */
  datatype Outcome = Outcome(
    status: ModelReceipts.Status, ruleIds: seq<string>, conditional: bool, contextComplete: bool, reason: string)

  /** An obligation: plan item and category. An attempt: section and category. */
  type Obligation = (ItemId, Category)
  type Attempt = (SectionId, Category)

  datatype Error =
    | ItemNotFound | InvalidCategories | CategoryMismatch | ItemNotActive | DuplicateAttempt
    | OutcomesMismatch | AttemptNotActive | RevisionMismatch | MissingRevision | OverflowInvalid | ActivationMismatch

  /** One source revision: the plan and everything recorded about it. */
  datatype Ledger = Ledger(
    items: seq<Item>,
    states: map<Obligation, ItemState>,
    attempts: set<Attempt>,
    outcomes: map<Attempt, Outcome>,
    open: map<Attempt, nat>,
    activations: seq<Activation>,
    overflows: seq<(ItemId, seq<Category>)>)

  // ----- lookups

  predicate Terminal(s: ItemState) { s.Accounted? || s.ContextUnresolved? || s.OverflowUndispatched? }

  predicate InState(l: Ledger, id: ItemId, c: Category, s: ItemState) {
    (id, c) in l.states && l.states[(id, c)] == s
  }

  predicate AllowedCategories(item: Item, cats: seq<Category>) {
    1 <= |cats| <= 2 && Unique(cats) && (item.categories != [] ==> cats == item.categories)
  }

  function CategoryError(item: Item, cats: seq<Category>): Error {
    if 1 <= |cats| <= 2 && Unique(cats) then CategoryMismatch else InvalidCategories
  }

  function Obligations(id: ItemId, cats: seq<Category>): set<Obligation> {
    set c | c in cats :: (id, c)
  }

  function AttemptsOf(item: Item, cats: seq<Category>): set<Attempt> {
    set c | c in cats :: (item.section, c)
  }

  /** Every obligation of the item in one state. */
  function Marked(
    states: map<Obligation, ItemState>, id: ItemId, cats: seq<Category>, s: ItemState): map<Obligation, ItemState>
  {
    map o | o in states.Keys + Obligations(id, cats) :: if o in Obligations(id, cats) then s else states[o]
  }

  /** The categories of an item's obligations in the order they were recorded. */
  function Recorded(l: Ledger, item: Item): seq<Category> {
    if item.categories != [] then item.categories else Distinct(ActivatedCategories(l.activations, item.id))
  }

  function ActivatedCategories(acts: seq<Activation>, id: ItemId): seq<Category> {
    if acts == [] then []
    else
      var n := |acts| - 1;
      ActivatedCategories(acts[..n], id) + if acts[n].item == id then acts[n].categories else []
  }

  function ActiveAmong(l: Ledger, id: ItemId, cats: seq<Category>): seq<Category> {
    if cats == [] then []
    else
      var n := |cats| - 1;
      ActiveAmong(l, id, cats[..n]) + if InState(l, id, cats[n], Active) then [cats[n]] else []
  }

  /** The active categories of one item, as an entry of the list when there are any. */
  function Offered(l: Ledger, item: Item): seq<(Item, seq<Category>)> {
    var cats := ActiveAmong(l, item.id, Recorded(l, item));
    if cats != [] then [(item, cats)] else []
  }

  /** The plan items with an active obligation, in plan order, each with its active categories. */
  function ActiveItems(l: Ledger, upTo: nat): seq<(Item, seq<Category>)>
    requires upTo <= |l.items|
  {
    if upTo == 0 then [] else ActiveItems(l, upTo - 1) + Offered(l, l.items[upTo - 1])
  }

  // ----- one category, recomputed

  predicate SomeIn(l: Ledger, c: Category, s: ItemState) {
    exists o :: o in l.states && o.1 == c && l.states[o] == s
  }

  function OutcomeOf(l: Ledger, o: Obligation): Option<Outcome> {
    var item := Find(l.items, o.0);
    if item.Some? && (item.value.section, o.1) in l.outcomes then Some(l.outcomes[(item.value.section, o.1)]) else None
  }

  predicate Supports(l: Ledger, o: Obligation) {
    OutcomeOf(l, o).Some? && OutcomeOf(l, o).value.ruleIds != []
  }

  predicate Safe(l: Ledger, o: Obligation) {
    && OutcomeOf(l, o).Some? && OutcomeOf(l, o).value.contextComplete
    && !OutcomeOf(l, o).value.status.Ambiguous? && !OutcomeOf(l, o).value.status.Unknown?
    && Find(l.items, o.0).Some? && Find(l.items, o.0).value.contextComplete
  }

  predicate Open(l: Ledger, c: Category, o: Obligation) {
    o in l.states && o.1 == c && !l.states[o].Inactive?
  }

  function CategoryView(l: Ledger, c: Category): (AcquisitionState, Accounting) {
    if !exists o :: o in l.states && Open(l, c, o) then (Unseen, Pending)
    else if SomeIn(l, c, Attempted) then (ExtractionAttempted, Pending)
    else if SomeIn(l, c, Active) then (SectionAvailable, Pending)
    else if SomeIn(l, c, ContextUnresolved) then (Exhausted, ContextMissing)
    else if SomeIn(l, c, OverflowUndispatched) then (Exhausted, OverflowUnresolved)
    else if (exists o :: o in l.states && Open(l, c, o) && Supports(l, o))
            && (forall o :: o in l.states && Open(l, c, o) ==> Safe(l, o))
    then (Supported, AccountedSupport)
    else (Exhausted, ExhaustedUnresolved)
  }

  // ----- reconciliation

  function MandatoryFor(items: seq<Item>, c: Category): seq<Item> {
    if items == [] then []
    else
      var n := |items| - 1;
      MandatoryFor(items[..n], c)
      + if items[n].tier.MandatoryAnchor? && c in items[n].categories then [items[n]] else []
  }

  function Ids(items: seq<Item>): seq<ItemId> {
    if items == [] then [] else Ids(items[..|items| - 1]) + [items[|items| - 1].id]
  }

  function AmbiguousAmong(l: Ledger, items: seq<Item>, c: Category): seq<Item> {
    if items == [] then []
    else
      var n := |items| - 1;
      var o := OutcomeOf(l, (items[n].id, c));
      AmbiguousAmong(l, items[..n], c) + if o.Some? && o.value.status.Ambiguous? then [items[n]] else []
  }

  predicate Settled(l: Ledger, item: Item, c: Category) {
    (item.id, c) in l.states && Terminal(l.states[(item.id, c)])
  }

  predicate AllSettled(l: Ledger, items: seq<Item>, c: Category) {
    forall k :: 0 <= k < |items| ==> Settled(l, items[k], c)
  }

  predicate AnySupported(l: Ledger, items: seq<Item>, c: Category) {
    exists k :: 0 <= k < |items| && Supports(l, (items[k].id, c))
  }

  /** What one category asks for, from its mandatory items alone. */
  function RequestsFor(l: Ledger, c: Category): seq<Request> {
    var anchors := MandatoryFor(l.items, c);
    var ambiguous := AmbiguousAmong(l, anchors, c);
    if anchors == [] then []
    else
      (if ambiguous != [] then [Request(AmbiguousAnchor, [c], Ids(ambiguous))] else [])
      + if AllSettled(l, anchors, c) && !AnySupported(l, anchors, c)
        then [Request(NoSupportedAnchor, [c], Ids(anchors))] else []
  }

  function Requests(l: Ledger, cats: seq<Category>): seq<Request> {
    if cats == [] then [] else Requests(l, cats[..|cats| - 1]) + RequestsFor(l, cats[|cats| - 1])
  }

  /** A refused activation is reported with the ledger it leaves behind. */
  function ApplyOne(l: Ledger, a: Activation): Result<Ledger, (Ledger, Error)> {
    if KeyOf(a) in Keys(l.activations) then Ok(l)
    else
      var item := Find(l.items, a.item);
      if item.None? then Err((l, ItemNotFound))
      else if item.value.categories != [] && a.categories != item.value.categories then Err((l, ActivationMismatch))
      else Ok(l.(activations := l.activations + [a], states := Marked(l.states, a.item, a.categories, Active)))
  }

  function Apply(l: Ledger, acts: seq<Activation>): Result<Ledger, (Ledger, Error)> {
    if acts == [] then Ok(l)
    else
      match Apply(l, acts[..|acts| - 1])
      case Err(e) => Err(e)
      case Ok(m) => ApplyOne(m, acts[|acts| - 1])
  }

  function Reconcile(l: Ledger, revision: nat): Result<Ledger, (Ledger, Error)>
    requires Refers(l.items, l.activations) && UniqueIds(l.items)
  {
    Apply(l, ActivateAll(l.items, l.activations, Requests(l, EligibilityModel.REQUIRED_CATEGORIES), revision))
  }

  // ----- the transitions

  function InitialStates(items: seq<Item>): map<Obligation, ItemState> {
    if items == [] then map[]
    else
      var item := items[|items| - 1];
      Marked(InitialStates(items[..|items| - 1]), item.id, item.categories,
             if item.tier.MandatoryAnchor? then Active else Inactive)
  }

  function Initial(items: seq<Item>): Result<Ledger, (Ledger, Error)> {
    Apply(Ledger(items, InitialStates(items), {}, map[], map[], [], []), InitialActivations(items, 0))
  }

  predicate AllIn(l: Ledger, id: ItemId, cats: seq<Category>, s: ItemState) {
    forall k :: 0 <= k < |cats| ==> InState(l, id, cats[k], s)
  }

  function Begin(l: Ledger, id: ItemId, cats: seq<Category>, revision: nat): Result<Ledger, Error> {
    var item := Find(l.items, id);
    if item.None? then Err(ItemNotFound)
    else if !AllowedCategories(item.value, cats) then Err(CategoryError(item.value, cats))
    else if !AllIn(l, id, cats, Active) then Err(ItemNotActive)
    else if !(AttemptsOf(item.value, cats) !! l.attempts) then Err(DuplicateAttempt)
    else Ok(l.(
      states := Marked(l.states, id, cats, Attempted),
      attempts := l.attempts + AttemptsOf(item.value, cats),
      open := l.open + map a | a in AttemptsOf(item.value, cats) :: revision))
  }

  /** The obligations accounted for, before reconciliation. */
  function Account(l: Ledger, item: Item, cats: seq<Category>, outcomes: map<Category, Outcome>): Ledger
    requires outcomes.Keys == set c | c in cats
  {
    l.(states := Marked(l.states, item.id, cats, Accounted),
       outcomes := l.outcomes + map c | c in outcomes :: (item.section, c) := outcomes[c],
       open := l.open - AttemptsOf(item, cats))
  }

  function Complete(l: Ledger, id: ItemId, cats: seq<Category>, outcomes: map<Category, Outcome>, revision: nat)
    : Result<Ledger, (Ledger, Error)>
    requires Refers(l.items, l.activations) && UniqueIds(l.items)
  {
    var item := Find(l.items, id);
    if item.None? then Err((l, ItemNotFound))
    else if !AllowedCategories(item.value, cats) then Err((l, CategoryError(item.value, cats)))
    else if outcomes.Keys != set c | c in cats then Err((l, OutcomesMismatch))
    else if !AllIn(l, id, cats, Attempted) then Err((l, AttemptNotActive))
    else if exists a :: a in AttemptsOf(item.value, cats) && !(a in l.open && l.open[a] == revision)
    then Err((l, RevisionMismatch))
    else Reconcile(Account(l, item.value, cats, outcomes), revision)
  }

  /**
   * One category of a failed extraction: refused when it is not attempted, in which case the earlier ones
   * stay changed.
   */
  function FailOne(l: Ledger, item: Item, c: Category): Result<Ledger, (Ledger, Error)> {
    if !InState(l, item.id, c, Attempted) then Err((l, AttemptNotActive))
    else if (item.section, c) !in l.open then Err((l, MissingRevision))
    else Ok(l.(states := Marked(l.states, item.id, [c], Accounted), open := l.open - {(item.section, c)}))
  }

  function FailEach(l: Ledger, item: Item, cats: seq<Category>): Result<Ledger, (Ledger, Error)> {
    if cats == [] then Ok(l)
    else
      match FailEach(l, item, cats[..|cats| - 1])
      case Err(e) => Err(e)
      case Ok(m) => FailOne(m, item, cats[|cats| - 1])
  }

  function OperationalFailure(l: Ledger, id: ItemId, cats: seq<Category>): Result<Ledger, (Ledger, Error)>
    requires Refers(l.items, l.activations) && UniqueIds(l.items)
  {
    var item := Find(l.items, id);
    if item.None? then Err((l, ItemNotFound))
    else if !AllowedCategories(item.value, cats) then Err((l, CategoryError(item.value, cats)))
    else
      match FailEach(l, item.value, cats)
      case Err(e) => Err(e)
      case Ok(m) =>
        FailEachFrame(l, item.value, cats);
        var last := (item.value.section, cats[|cats| - 1]);
        Reconcile(m, if last in l.open then l.open[last] else 0)
  }

  lemma {:induction false} FailEachFrame(l: Ledger, item: Item, cats: seq<Category>)
    requires FailEach(l, item, cats).Ok?
    ensures var m := FailEach(l, item, cats).value;
            m.items == l.items && m.activations == l.activations && m.attempts == l.attempts
            && m.outcomes == l.outcomes && m.overflows == l.overflows
  {
    if cats != [] {
      FailEachFrame(l, item, cats[..|cats| - 1]);
    }
  }

  function BudgetBlocked(l: Ledger, id: ItemId, cats: seq<Category>): Result<Ledger, Error> {
    var item := Find(l.items, id);
    if item.None? then Err(ItemNotFound)
    else if !AllowedCategories(item.value, cats) then Err(CategoryError(item.value, cats))
    else if !AllIn(l, id, cats, Attempted) || !(AttemptsOf(item.value, cats) <= l.open.Keys) then Err(AttemptNotActive)
    else Ok(l.(
      states := Marked(l.states, id, cats, Active),
      attempts := l.attempts - AttemptsOf(item.value, cats),
      open := l.open - AttemptsOf(item.value, cats)))
  }

  function UnresolveEach(l: Ledger, id: ItemId, cats: seq<Category>): Result<Ledger, (Ledger, Error)> {
    if cats == [] then Ok(l)
    else
      match UnresolveEach(l, id, cats[..|cats| - 1])
      case Err(e) => Err(e)
      case Ok(m) =>
        var c := cats[|cats| - 1];
        if !InState(m, id, c, Active) && !InState(m, id, c, Attempted) then Err((m, ItemNotActive))
        else Ok(m.(states := Marked(m.states, id, [c], ContextUnresolved)))
  }

  function Unresolved(l: Ledger, id: ItemId, cats: seq<Category>): Result<Ledger, (Ledger, Error)> {
    var item := Find(l.items, id);
    if item.None? then Err((l, ItemNotFound))
    else if !AllowedCategories(item.value, cats) then Err((l, CategoryError(item.value, cats)))
    else UnresolveEach(l, id, cats)
  }

  /** Capacity reached: every active item of the list is set aside, until one has too many categories for the record. */
  function OverflowEach(l: Ledger, active: seq<(Item, seq<Category>)>): Result<Ledger, (Ledger, Error)>
    decreases |active|
  {
    if active == [] then Ok(l)
    else
      var (item, cats) := active[0];
      if !(1 <= |cats| <= 2 && Unique(cats)) then Err((l, OverflowInvalid))
      else OverflowEach(SetAside(l, item.id, cats).(overflows := l.overflows + [(item.id, cats)]), active[1..])
  }

  function SetAside(l: Ledger, id: ItemId, cats: seq<Category>): Ledger {
    l.(states := Marked(l.states, id, cats, OverflowUndispatched))
  }

  function Overflow(l: Ledger): Result<Ledger, (Ledger, Error)> {
    OverflowEach(l, ActiveItems(l, |l.items|))
  }
}
