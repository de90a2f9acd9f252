/** src/qualor/runtime/model_receipts.py: one receipt per planned model call. */
module ModelReceipts {
  import opened Wrappers

  datatype ExecutionState = Planned | Dispatched | Completed | Failed | BudgetBlocked

  /** A rejection or failure code. */
  datatype Code = DuplicateProposal | BudgetExhausted | Coded(n: nat)

  datatype Status = Supported | Ambiguous | Unknown | Unsupported

  /** An adapter result; `content` stands for the fields accounting never looks at. */
  datatype Outcome = Outcome(status: Status, conditional: bool, reasons: seq<Code>, content: string)

  /** What an extraction call is about, categories by rank; a planning call has none. */
  datatype Scope = Scope(source: string, section: string, categories: seq<nat>)

  datatype Counts = Counts(
    proposals: nat, supported: nat, conditional: nat, ambiguous: nat,
    unknown: nat, unsupported: nat, duplicates: nat)

  datatype Receipt = Receipt(
    slot: nat, index: Option<nat>, scope: Option<Scope>, counts: Counts, codes: seq<Code>,
    before: int, after: int, state: ExecutionState, reserved: Option<real>, reconciled: Option<real>)

  datatype ReceiptError = PlanLimit | UnknownSlot | NotPlanned | DispatchLimit | NotDispatched | Rewritten | Invalid

  const MAX_PLANNED_SLOTS := 24
  const MAX_DISPATCHED := 9
  const MAX_OUTCOMES := 40
  const MAX_CODES := 40
  const MAX_COST := 0.20

  // ----- the record contract

  predicate WithinCost(c: Option<real>) {
    c.Some? ==> 0.0 <= c.value <= MAX_COST
  }

  predicate CountsBounded(c: Counts) {
    && c.proposals <= MAX_OUTCOMES && c.supported <= MAX_OUTCOMES && c.conditional <= MAX_OUTCOMES
    && c.ambiguous <= MAX_OUTCOMES && c.unknown <= MAX_OUTCOMES && c.unsupported <= MAX_OUTCOMES
    && c.duplicates <= MAX_OUTCOMES
  }

  predicate CountsPartition(c: Counts) {
    && c.supported + c.ambiguous + c.unknown + c.unsupported + c.duplicates == c.proposals
    && c.conditional <= c.supported
  }

  predicate IsDispatched(s: ExecutionState) { s.Dispatched? || s.Completed? || s.Failed? }

  predicate ScopeValid(s: Scope) {
    1 <= |s.categories| <= 2 && Unique(s.categories)
  }

  /** Field bounds and `lifecycle_is_consistent`. */
  predicate Consistent(r: Receipt) {
    && 1 <= r.slot <= MAX_PLANNED_SLOTS
    && (r.index.Some? ==> 1 <= r.index.value <= MAX_DISPATCHED)
    && (r.scope.Some? ==> ScopeValid(r.scope.value))
    && CountsBounded(r.counts) && CountsPartition(r.counts)
    && |r.codes| <= MAX_CODES && Unique(r.codes)
    && 0 <= r.before <= r.after
    && WithinCost(r.reserved) && WithinCost(r.reconciled)
    && (r.state.Planned? || r.state.BudgetBlocked? ==> r.index.None? && r.reserved.None? && r.reconciled.None?)
    && (IsDispatched(r.state) ==> r.index.Some? && r.reserved.Some?)
    && (r.state.Planned? || r.state.Dispatched? ==> r.counts.proposals == 0 && r.codes == [])
  }

  // ----- the ledger

  datatype Ledger = Ledger(receipts: seq<Receipt>, dispatched: nat)

  predicate Known(l: Ledger, slot: nat) { 1 <= slot <= |l.receipts| }

  function Current(l: Ledger, slot: nat): Receipt
    requires Known(l, slot)
  {
    l.receipts[slot - 1]
  }

  function Replace(l: Ledger, slot: nat, r: Receipt): Result<Ledger, ReceiptError>
    requires Known(l, slot)
  {
    if Consistent(r) then Ok(l.(receipts := l.receipts[slot - 1 := r])) else Err(Invalid)
  }

  function PlannedReceipt(slot: nat, scope: Option<Scope>, revision: int): Receipt {
    Receipt(slot, None, scope, Counts(0, 0, 0, 0, 0, 0, 0), [], revision, revision, Planned, None, None)
  }

  function Plan(l: Ledger, scope: Option<Scope>, revision: int): Result<Ledger, ReceiptError> {
    if |l.receipts| >= MAX_PLANNED_SLOTS then Err(PlanLimit)
    else
      var r := PlannedReceipt(|l.receipts| + 1, scope, revision);
      if Consistent(r) then Ok(l.(receipts := l.receipts + [r])) else Err(Invalid)
  }

  /** The counter has already moved when the record contract refuses the dispatched receipt. */
  function Dispatch(l: Ledger, slot: nat, reservation: real): (Ledger, Option<ReceiptError>) {
    if !Known(l, slot) then (l, Some(UnknownSlot))
    else if !Current(l, slot).state.Planned? then (l, Some(NotPlanned))
    else if l.dispatched >= MAX_DISPATCHED then (l, Some(DispatchLimit))
    else
      var counted := l.(dispatched := l.dispatched + 1);
      var r := Current(l, slot).(index := Some(counted.dispatched), reserved := Some(reservation), state := Dispatched);
      match Replace(counted, slot, r)
      case Ok(after) => (after, None)
      case Err(e) => (counted, Some(e))
  }

  function ReconcileSlot(l: Ledger, slot: nat, actual: real): Result<Ledger, ReceiptError> {
    if !Known(l, slot) then Err(UnknownSlot)
    else if !Current(l, slot).state.Dispatched? || Current(l, slot).reconciled.Some? then Err(NotDispatched)
    else Replace(l, slot, Current(l, slot).(reconciled := Some(actual)))
  }

  function Fail(l: Ledger, slot: nat, code: Code, budgetBlocked: bool): Result<Ledger, ReceiptError> {
    if !Known(l, slot) then Err(UnknownSlot)
    else
      var r := Current(l, slot);
      if !(r.state.Planned? || r.state.Dispatched?) || budgetBlocked != r.state.Planned? then Err(NotDispatched)
      else Replace(l, slot, r.(codes := [code], state := if budgetBlocked then BudgetBlocked else Failed))
  }

  // ----- completion counts

  function CountStatus(outcomes: seq<Outcome>, status: Status): nat {
    if outcomes == [] then 0
    else
      var n := |outcomes| - 1;
      CountStatus(outcomes[..n], status) + if outcomes[n].status == status then 1 else 0
  }

  function CountConditional(outcomes: seq<Outcome>): nat {
    if outcomes == [] then 0
    else
      var n := |outcomes| - 1;
      CountConditional(outcomes[..n]) + if outcomes[n].status.Supported? && outcomes[n].conditional then 1 else 0
  }

  /** The reasons of the unsupported outcomes, in order. */
  function Reasons(outcomes: seq<Outcome>): seq<Code> {
    if outcomes == [] then []
    else
      var n := |outcomes| - 1;
      Reasons(outcomes[..n]) + if outcomes[n].status.Supported? then [] else outcomes[n].reasons
  }

  function CodesOf(outcomes: seq<Outcome>): seq<Code> {
    var unique := Distinct(outcomes);
    Distinct(Reasons(unique)) + if |unique| < |outcomes| then [DuplicateProposal] else []
  }

  /** The counts of the distinct outcomes, among `total` proposed ones. */
  function CountsAmong(unique: seq<Outcome>, total: nat): Counts
    requires |unique| <= total
  {
    Counts(
      total, CountStatus(unique, Supported), CountConditional(unique), CountStatus(unique, Ambiguous),
      CountStatus(unique, Unknown), CountStatus(unique, Unsupported), total - |unique|)
  }

  function CountsOf(outcomes: seq<Outcome>): Counts {
    CountsAmong(Distinct(outcomes), |outcomes|)
  }

  function CompletedReceipt(
    r: Receipt, counts: Counts, codes: seq<Code>, revision: int, reconciled: Option<real>): Receipt
  {
    r.(counts := counts, codes := codes, after := revision, state := Completed,
       reconciled := if r.reconciled.Some? then r.reconciled else reconciled)
  }

  function Complete(l: Ledger, slot: nat, outcomes: seq<Outcome>, revision: int, reconciled: Option<real>)
    : Result<Ledger, ReceiptError>
  {
    if !Known(l, slot) then Err(UnknownSlot)
    else
      var r := Current(l, slot);
      if !r.state.Dispatched? then Err(NotDispatched)
      else if r.reconciled.Some? && reconciled.Some? && reconciled != r.reconciled then Err(Rewritten)
      else Replace(l, slot, CompletedReceipt(r, CountsOf(outcomes), CodesOf(outcomes), revision, reconciled))
  }

  lemma {:induction false} StatusesPartition(outcomes: seq<Outcome>)
    ensures CountStatus(outcomes, Supported) + CountStatus(outcomes, Ambiguous) + CountStatus(outcomes, Unknown)
            + CountStatus(outcomes, Unsupported) == |outcomes|
    ensures CountConditional(outcomes) <= CountStatus(outcomes, Supported)
  {
    if outcomes != [] {
      StatusesPartition(outcomes[..|outcomes| - 1]);
    }
  }

  lemma AmongPartition(unique: seq<Outcome>, total: nat)
    requires |unique| <= total
    ensures CountsPartition(CountsAmong(unique, total))
    ensures CountsBounded(CountsAmong(unique, total)) <==> total <= MAX_OUTCOMES
  {
    StatusesPartition(unique);
  }

  /** The counts always partition the proposals, so the contract never refuses them for that. */
  lemma CompletionPartitions(outcomes: seq<Outcome>)
    ensures CountsPartition(CountsOf(outcomes))
    ensures CountsBounded(CountsOf(outcomes)) <==> |outcomes| <= MAX_OUTCOMES
  {
    AmongPartition(Distinct(outcomes), |outcomes|);
  }

  lemma CodesUnique(outcomes: seq<Outcome>)
    ensures Unique(CodesOf(outcomes)) <==>
              !(|Distinct(outcomes)| < |outcomes| && DuplicateProposal in Reasons(Distinct(outcomes)))
  {
    var reasons := Reasons(Distinct(outcomes));
    var codes := Distinct(reasons);
    DistinctMembers(reasons);
    if |Distinct(outcomes)| < |outcomes| {
      assert CodesOf(outcomes) == codes + [DuplicateProposal];
      if DuplicateProposal in reasons {
        assert DuplicateProposal in codes;
        var k :| 0 <= k < |codes| && codes[k] == DuplicateProposal;
        assert CodesOf(outcomes)[k] == CodesOf(outcomes)[|codes|];
      } else {
        assert DuplicateProposal !in codes;
      }
    } else {
      assert CodesOf(outcomes) == codes;
    }
  }

  /** Reasons that never name a repetition themselves cannot clash with the one that is added. */
  lemma ReasonsNeverClash(outcomes: seq<Outcome>)
    requires forall k :: 0 <= k < |outcomes| ==> DuplicateProposal !in outcomes[k].reasons
    ensures Unique(CodesOf(outcomes))
  {
    CodesUnique(outcomes);
    DistinctMembers(outcomes);
    var unique := Distinct(outcomes);
    ReasonsMembers(unique);
    forall k | 0 <= k < |unique| ensures DuplicateProposal !in unique[k].reasons {
      assert unique[k] in outcomes;
    }
  }

  lemma {:induction false} ReasonsMembers(outcomes: seq<Outcome>)
    ensures forall code :: code in Reasons(outcomes) ==> exists k :: 0 <= k < |outcomes| && code in outcomes[k].reasons
  {
    if outcomes != [] {
      ReasonsMembers(outcomes[..|outcomes| - 1]);
    }
  }

  lemma CompletedConsistent(r: Receipt, outcomes: seq<Outcome>, revision: int, reconciled: Option<real>)
    requires Consistent(r) && r.state.Dispatched?
    ensures Consistent(CompletedReceipt(r, CountsOf(outcomes), CodesOf(outcomes), revision, reconciled)) <==>
              && |outcomes| <= MAX_OUTCOMES && |CodesOf(outcomes)| <= MAX_CODES && Unique(CodesOf(outcomes))
              && r.before <= revision && (r.reconciled.None? ==> WithinCost(reconciled))
  {
    CompletionPartitions(outcomes);
  }

  /**
   * When completing a consistent receipt is accepted, for any outcomes: it is dispatched, the reconciled
   * cost is not rewritten and, when it is set only now, within its bound, and the record's limits hold.
   */
  lemma CompleteMeaning(l: Ledger, slot: nat, outcomes: seq<Outcome>, revision: int, reconciled: Option<real>)
    requires Known(l, slot) && Consistent(Current(l, slot))
    ensures Complete(l, slot, outcomes, revision, reconciled).Ok? <==>
              && Current(l, slot).state.Dispatched?
              && (Current(l, slot).reconciled.Some? && reconciled.Some? ==> reconciled == Current(l, slot).reconciled)
              && (Current(l, slot).reconciled.None? ==> WithinCost(reconciled))
              && |outcomes| <= MAX_OUTCOMES && |CodesOf(outcomes)| <= MAX_CODES && Unique(CodesOf(outcomes))
              && Current(l, slot).before <= revision
  {
    if Current(l, slot).state.Dispatched? {
      CompletedConsistent(Current(l, slot), outcomes, revision, reconciled);
    }
  }

  // ----- the ledger over any sequence of operations

  datatype Operation =
    | Planning(scope: Option<Scope>, revision: int)
    | Dispatching(slot: nat, reservation: real)
    | Completing(slot: nat, outcomes: seq<Outcome>, revision: int, reconciled: Option<real>)
    | Reconciling(slot: nat, actual: real)
    | Failing(slot: nat, code: Code, budgetBlocked: bool)

  function OrElse(r: Result<Ledger, ReceiptError>, l: Ledger): Ledger { if r.Ok? then r.value else l }

  /** A refused operation raises and leaves the ledger alone, but for the counter of a dispatch. */
  function Operate(l: Ledger, op: Operation): Ledger {
    match op
    case Planning(scope, revision) => OrElse(Plan(l, scope, revision), l)
    case Dispatching(slot, reservation) => Dispatch(l, slot, reservation).0
    case Completing(slot, outcomes, revision, reconciled) =>
      OrElse(Complete(l, slot, outcomes, revision, reconciled), l)
    case Reconciling(slot, actual) => OrElse(ReconcileSlot(l, slot, actual), l)
    case Failing(slot, code, budgetBlocked) => OrElse(Fail(l, slot, code, budgetBlocked), l)
  }

  function OperateAll(l: Ledger, ops: seq<Operation>): Ledger {
    if ops == [] then l else Operate(OperateAll(l, ops[..|ops| - 1]), ops[|ops| - 1])
  }

  /** The receipt of its slot: consistent, and numbered within the dispatches exactly when it was dispatched. */
  ghost predicate Kept(r: Receipt, slot: nat, dispatched: nat) {
    && r.slot == slot && Consistent(r)
    && (r.index.Some? <==> IsDispatched(r.state))
    && (r.index.Some? ==> 1 <= r.index.value <= dispatched)
  }

  ghost predicate KeptIn(l: Ledger, k: nat)
    requires k < |l.receipts|
  {
    Kept(l.receipts[k], k + 1, l.dispatched)
  }

  ghost predicate SameNumber(a: Receipt, b: Receipt) { a.index.Some? && a.index == b.index }

  ghost predicate LedgerInv(l: Ledger) {
    && l.dispatched <= MAX_DISPATCHED && |l.receipts| <= MAX_PLANNED_SLOTS
    && (forall k {:trigger KeptIn(l, k)} :: 0 <= k < |l.receipts| ==> KeptIn(l, k))
    && (forall j, k {:trigger SameNumber(l.receipts[j], l.receipts[k])} :: 0 <= j < k < |l.receipts| ==>
          !SameNumber(l.receipts[j], l.receipts[k]))
  }

  lemma KeptAt(l: Ledger, slot: nat)
    requires LedgerInv(l) && Known(l, slot)
    ensures Kept(Current(l, slot), slot, l.dispatched)
  {
    assert KeptIn(l, slot - 1);
  }

  predicate Ended(s: ExecutionState) { s.Completed? || s.Failed? || s.BudgetBlocked? }

  /** How a receipt may go on: an ended one not at all, and numbers, reservations and settled costs stay. */
  ghost predicate Continues(r: Receipt, s: Receipt) {
    && s.slot == r.slot && s.scope == r.scope && s.before == r.before
    && (Ended(r.state) ==> s == r)
    && (r.index.Some? ==> s.index == r.index && s.reserved == r.reserved)
    && (r.reconciled.Some? ==> s.reconciled == r.reconciled)
  }

  /** A number given after `l` is above every number given before. */
  ghost predicate NumberedLater(l: Ledger, m: Ledger, k: nat)
    requires k < |m.receipts|
  {
    m.receipts[k].index.Some? && (k < |l.receipts| ==> l.receipts[k].index.None?) ==>
      l.dispatched < m.receipts[k].index.value
  }

  ghost predicate Later(l: Ledger, m: Ledger) {
    && |l.receipts| <= |m.receipts| && l.dispatched <= m.dispatched
    && (forall k {:trigger Continues(l.receipts[k], m.receipts[k])} :: 0 <= k < |l.receipts| ==>
          Continues(l.receipts[k], m.receipts[k]))
    && (forall k {:trigger NumberedLater(l, m, k)} :: 0 <= k < |m.receipts| ==> NumberedLater(l, m, k))
  }

  lemma LaterReflexive(l: Ledger)
    ensures Later(l, l)
  {
  }

  lemma LaterTransitive(l: Ledger, m: Ledger, n: Ledger)
    requires Later(l, m) && Later(m, n) && LedgerInv(n)
    ensures Later(l, n)
  {
    forall k | 0 <= k < |l.receipts| ensures Continues(l.receipts[k], n.receipts[k]) {
      assert Continues(l.receipts[k], m.receipts[k]) && Continues(m.receipts[k], n.receipts[k]);
    }
    forall k | 0 <= k < |n.receipts| ensures NumberedLater(l, n, k) {
      assert NumberedLater(m, n, k);
      if k < |m.receipts| {
        assert NumberedLater(l, m, k) && Continues(m.receipts[k], n.receipts[k]);
      }
    }
  }

  /** Rewriting one receipt, with its number or with the next one. */
  lemma RewriteLater(l: Ledger, slot: nat, r: Receipt, dispatched: nat) returns (m: Ledger)
    requires LedgerInv(l) && Known(l, slot) && l.dispatched <= dispatched <= MAX_DISPATCHED
    requires Kept(r, slot, dispatched) && Continues(Current(l, slot), r)
    requires r.index == Current(l, slot).index || (Current(l, slot).index.None? && r.index == Some(l.dispatched + 1))
    ensures m == Ledger(l.receipts[slot - 1 := r], dispatched) && LedgerInv(m) && Later(l, m)
    ensures r.index == Current(l, slot).index ==> SameNumbers(l, m)
  {
    m := Ledger(l.receipts[slot - 1 := r], dispatched);
    forall k | 0 <= k < |m.receipts| ensures KeptIn(m, k) {
      assert KeptIn(l, k);
    }
    forall j, k | 0 <= j < k < |m.receipts| ensures !SameNumber(m.receipts[j], m.receipts[k]) {
      assert !SameNumber(l.receipts[j], l.receipts[k]);
      assert KeptIn(l, j) && KeptIn(l, k);
    }
    forall k | 0 <= k < |l.receipts| ensures Continues(l.receipts[k], m.receipts[k]) {
    }
    forall k | 0 <= k < |m.receipts| ensures NumberedLater(l, m, k) {
    }
  }

  lemma PlanLater(l: Ledger, scope: Option<Scope>, revision: int)
    requires LedgerInv(l) && Plan(l, scope, revision).Ok?
    ensures LedgerInv(Plan(l, scope, revision).value) && Later(l, Plan(l, scope, revision).value)
  {
    var m := Plan(l, scope, revision).value;
    forall k | 0 <= k < |m.receipts| ensures KeptIn(m, k) && NumberedLater(l, m, k) {
      if k < |l.receipts| { assert KeptIn(l, k); }
    }
    forall j, k | 0 <= j < k < |m.receipts| ensures !SameNumber(m.receipts[j], m.receipts[k]) {
      if k < |l.receipts| { assert !SameNumber(l.receipts[j], l.receipts[k]); }
    }
    forall k | 0 <= k < |l.receipts| ensures Continues(l.receipts[k], m.receipts[k]) {
    }
  }

  /** The dispatch moves the counter and is then refused its record: its reservation is out of bounds. */
  predicate Loses(l: Ledger, op: Operation) {
    op.Dispatching? && Counted(l, op.slot) && !WithinCost(Some(op.reservation))
  }

  ghost predicate SameNumbers(l: Ledger, m: Ledger) {
    |l.receipts| == |m.receipts| && forall k :: 0 <= k < |l.receipts| ==> l.receipts[k].index == m.receipts[k].index
  }

  /** The dispatch is counted: its slot is planned and fewer than nine dispatches were counted. */
  predicate Counted(l: Ledger, slot: nat) {
    Known(l, slot) && Current(l, slot).state.Planned? && l.dispatched < MAX_DISPATCHED
  }

  function OnDispatch(r: Receipt, index: nat, reservation: real): Receipt {
    r.(index := Some(index), reserved := Some(reservation), state := Dispatched)
  }

  lemma DispatchedKept(r: Receipt, slot: nat, dispatched: nat, reservation: real)
    requires Kept(r, slot, dispatched) && r.state.Planned? && dispatched < MAX_DISPATCHED
    ensures Consistent(OnDispatch(r, dispatched + 1, reservation)) <==> WithinCost(Some(reservation))
    ensures WithinCost(Some(reservation)) ==> Kept(OnDispatch(r, dispatched + 1, reservation), slot, dispatched + 1)
    ensures r.index.None? && Continues(r, OnDispatch(r, dispatched + 1, reservation))
    ensures Kept(r, slot, dispatched + 1) && Continues(r, r)
  {
  }

  /** A dispatch either is refused before it counts, counts and is recorded, or counts and is lost. */
  lemma DispatchMeaning(l: Ledger, slot: nat, reservation: real) returns (m: Ledger)
    requires LedgerInv(l)
    ensures m == Dispatch(l, slot, reservation).0 && LedgerInv(m) && Later(l, m)
    ensures Dispatch(l, slot, reservation).1.None? <==> Counted(l, slot) && WithinCost(Some(reservation))
    ensures m.dispatched == if Counted(l, slot) then l.dispatched + 1 else l.dispatched
    ensures Dispatch(l, slot, reservation).1.Some? ==> m.receipts == l.receipts
    ensures Dispatch(l, slot, reservation).1.None? ==>
              slot <= |m.receipts| && m.receipts[slot - 1].index == Some(m.dispatched)
  {
    LaterReflexive(l);
    if !Counted(l, slot) {
      m := l;
    } else if WithinCost(Some(reservation)) {
      m := DispatchRecorded(l, slot, reservation);
    } else {
      m := DispatchLost(l, slot, reservation);
    }
  }

  /** What a counted dispatch leaves, as values. */
  lemma DispatchCounted(l: Ledger, slot: nat, reservation: real)
    requires Counted(l, slot)
    ensures var r := OnDispatch(Current(l, slot), l.dispatched + 1, reservation);
            Dispatch(l, slot, reservation) ==
            if Consistent(r) then (Ledger(l.receipts[slot - 1 := r], l.dispatched + 1), None)
            else (Ledger(l.receipts, l.dispatched + 1), Some(Invalid))
  {
  }

  lemma DispatchRecorded(l: Ledger, slot: nat, reservation: real) returns (m: Ledger)
    requires LedgerInv(l) && Counted(l, slot) && WithinCost(Some(reservation))
    ensures m == Dispatch(l, slot, reservation).0 && Dispatch(l, slot, reservation).1.None?
    ensures LedgerInv(m) && Later(l, m) && m.dispatched == l.dispatched + 1
    ensures slot <= |m.receipts| && m.receipts[slot - 1].index == Some(m.dispatched)
  {
    DispatchCounted(l, slot, reservation);
    var r := Current(l, slot);
    KeptAt(l, slot);
    DispatchedKept(r, slot, l.dispatched, reservation);
    m := RewriteLater(l, slot, OnDispatch(r, l.dispatched + 1, reservation), l.dispatched + 1);
  }

  lemma DispatchLost(l: Ledger, slot: nat, reservation: real) returns (m: Ledger)
    requires LedgerInv(l) && Counted(l, slot) && !WithinCost(Some(reservation))
    ensures Dispatch(l, slot, reservation) == (m, Some(Invalid))
    ensures LedgerInv(m) && Later(l, m) && m == Ledger(l.receipts, l.dispatched + 1)
  {
    DispatchCounted(l, slot, reservation);
    KeptAt(l, slot);
    DispatchedKept(Current(l, slot), slot, l.dispatched, reservation);
    m := RaiseCounter(l);
  }

  lemma RaiseCounter(l: Ledger) returns (m: Ledger)
    requires LedgerInv(l) && l.dispatched < MAX_DISPATCHED
    ensures m == Ledger(l.receipts, l.dispatched + 1) && LedgerInv(m) && Later(l, m)
  {
    m := Ledger(l.receipts, l.dispatched + 1);
    forall k | 0 <= k < |m.receipts| ensures KeptIn(m, k) {
      assert KeptIn(l, k);
    }
    forall j, k | 0 <= j < k < |m.receipts| ensures !SameNumber(m.receipts[j], m.receipts[k]) {
      assert !SameNumber(l.receipts[j], l.receipts[k]);
    }
  }

  lemma CompletedKept(
    r: Receipt, slot: nat, dispatched: nat, counts: Counts, codes: seq<Code>, revision: int, reconciled: Option<real>)
    requires Kept(r, slot, dispatched) && r.state.Dispatched?
    requires Consistent(CompletedReceipt(r, counts, codes, revision, reconciled))
    ensures Kept(CompletedReceipt(r, counts, codes, revision, reconciled), slot, dispatched)
    ensures Continues(r, CompletedReceipt(r, counts, codes, revision, reconciled))
  {
  }

  lemma CompleteLater(l: Ledger, slot: nat, outcomes: seq<Outcome>, revision: int, reconciled: Option<real>)
    returns (m: Ledger)
    requires LedgerInv(l) && Complete(l, slot, outcomes, revision, reconciled).Ok?
    ensures Complete(l, slot, outcomes, revision, reconciled) == Ok(m)
    ensures LedgerInv(m) && Later(l, m) && m.dispatched == l.dispatched && SameNumbers(l, m)
  {
    var r := Current(l, slot);
    KeptAt(l, slot);
    var counts, codes := CountsOf(outcomes), CodesOf(outcomes);
    CompletedKept(r, slot, l.dispatched, counts, codes, revision, reconciled);
    m := RewriteLater(l, slot, CompletedReceipt(r, counts, codes, revision, reconciled), l.dispatched);
  }

  lemma ReconciledKept(r: Receipt, slot: nat, dispatched: nat, actual: real)
    requires Kept(r, slot, dispatched) && r.state.Dispatched? && r.reconciled.None?
    requires Consistent(r.(reconciled := Some(actual)))
    ensures Kept(r.(reconciled := Some(actual)), slot, dispatched) && Continues(r, r.(reconciled := Some(actual)))
  {
  }

  lemma ReconcileLater(l: Ledger, slot: nat, actual: real) returns (m: Ledger)
    requires LedgerInv(l) && ReconcileSlot(l, slot, actual).Ok?
    ensures ReconcileSlot(l, slot, actual) == Ok(m)
    ensures LedgerInv(m) && Later(l, m) && m.dispatched == l.dispatched && SameNumbers(l, m)
  {
    var r := Current(l, slot);
    KeptAt(l, slot);
    ReconciledKept(r, slot, l.dispatched, actual);
    m := RewriteLater(l, slot, r.(reconciled := Some(actual)), l.dispatched);
  }

  function OnFailure(r: Receipt, code: Code, budgetBlocked: bool): Receipt {
    r.(codes := [code], state := if budgetBlocked then BudgetBlocked else Failed)
  }

  lemma FailedKept(r: Receipt, slot: nat, dispatched: nat, code: Code, budgetBlocked: bool)
    requires Kept(r, slot, dispatched) && (if budgetBlocked then r.state.Planned? else r.state.Dispatched?)
    requires Consistent(OnFailure(r, code, budgetBlocked))
    ensures Kept(OnFailure(r, code, budgetBlocked), slot, dispatched) && Continues(r, OnFailure(r, code, budgetBlocked))
  {
  }

  lemma FailLater(l: Ledger, slot: nat, code: Code, budgetBlocked: bool) returns (m: Ledger)
    requires LedgerInv(l) && Fail(l, slot, code, budgetBlocked).Ok?
    ensures Fail(l, slot, code, budgetBlocked) == Ok(m)
    ensures LedgerInv(m) && Later(l, m) && m.dispatched == l.dispatched && SameNumbers(l, m)
  {
    var r := Current(l, slot);
    KeptAt(l, slot);
    FailedKept(r, slot, l.dispatched, code, budgetBlocked);
    m := RewriteLater(l, slot, OnFailure(r, code, budgetBlocked), l.dispatched);
  }

  /** Every operation keeps the invariant, and no receipt goes back on itself. */
  lemma OperateMeaning(l: Ledger, op: Operation)
    requires LedgerInv(l)
    ensures LedgerInv(Operate(l, op)) && Later(l, Operate(l, op))
  {
    LaterReflexive(l);
    match op
    case Planning(scope, revision) => if Plan(l, scope, revision).Ok? { PlanLater(l, scope, revision); }
    case Dispatching(slot, reservation) => var m := DispatchMeaning(l, slot, reservation);
    case Completing(slot, outcomes, revision, reconciled) =>
      if Complete(l, slot, outcomes, revision, reconciled).Ok? {
        var m := CompleteLater(l, slot, outcomes, revision, reconciled);
      }
    case Reconciling(slot, actual) =>
      if ReconcileSlot(l, slot, actual).Ok? { var m := ReconcileLater(l, slot, actual); }
    case Failing(slot, code, budgetBlocked) =>
      if Fail(l, slot, code, budgetBlocked).Ok? { var m := FailLater(l, slot, code, budgetBlocked); }
  }

  // ----- the numbers are exactly 1..n

  ghost predicate Given(l: Ledger, n: nat) {
    exists k :: 0 <= k < |l.receipts| && l.receipts[k].index == Some(n)
  }

  /** Every number up to the counter is on a receipt. */
  ghost predicate Exact(l: Ledger) {
    forall n: nat :: 1 <= n <= l.dispatched ==> Given(l, n)
  }

  lemma GivenStays(l: Ledger, m: Ledger, n: nat)
    requires Later(l, m) && Given(l, n)
    ensures Given(m, n)
  {
    var k :| 0 <= k < |l.receipts| && l.receipts[k].index == Some(n);
    assert Continues(l.receipts[k], m.receipts[k]);
    assert m.receipts[k].index == Some(n);
  }

  /** A number that was passed over never comes back. */
  lemma MissingStays(l: Ledger, m: Ledger, n: nat)
    requires Later(l, m) && n <= l.dispatched && Given(m, n)
    ensures Given(l, n)
  {
    var k :| 0 <= k < |m.receipts| && m.receipts[k].index == Some(n);
    assert NumberedLater(l, m, k);
    assert Continues(l.receipts[k], m.receipts[k]);
    assert l.receipts[k].index == Some(n);
  }

  /** One operation keeps the numbers exact if and only if it is not a lost dispatch. */
  lemma OperateExact(l: Ledger, op: Operation)
    requires LedgerInv(l)
    ensures Exact(Operate(l, op)) <==> Exact(l) && !Loses(l, op)
  {
    var m := Operate(l, op);
    OperateMeaning(l, op);
    if Exact(m) {
      forall n: nat | 1 <= n <= l.dispatched ensures Given(l, n) {
        assert Given(m, n);
        MissingStays(l, m, n);
      }
    }
    if Exact(l) {
      forall n: nat | 1 <= n <= l.dispatched ensures Given(m, n) {
        GivenStays(l, m, n);
      }
    }
    NextNumber(l, op);
  }

  lemma NextNumber(l: Ledger, op: Operation)
    requires LedgerInv(l)
    ensures var m := Operate(l, op);
            && (m.dispatched == l.dispatched || m.dispatched == l.dispatched + 1)
            && (Loses(l, op) ==> m.dispatched == l.dispatched + 1 && !Given(m, m.dispatched))
            && (m.dispatched == l.dispatched + 1 && !Loses(l, op) ==> Given(m, m.dispatched))
  {
    if op.Dispatching? {
      var m := DispatchMeaning(l, op.slot, op.reservation);
      forall k | 0 <= k < |l.receipts| ensures l.receipts[k].index != Some(l.dispatched + 1) {
        assert KeptIn(l, k);
      }
    }
  }

  lemma {:induction false} OperateAllMeaning(l: Ledger, ops: seq<Operation>)
    requires LedgerInv(l)
    ensures LedgerInv(OperateAll(l, ops)) && Later(l, OperateAll(l, ops))
  {
    LaterReflexive(l);
    if ops != [] {
      var n := |ops| - 1;
      OperateAllMeaning(l, ops[..n]);
      OperateMeaning(OperateAll(l, ops[..n]), ops[n]);
      LaterTransitive(l, OperateAll(l, ops[..n]), OperateAll(l, ops));
    }
  }

  /** Some dispatch of the sequence counted and was refused its record. */
  ghost predicate LosesAmong(l: Ledger, ops: seq<Operation>) {
    exists k :: 0 <= k < |ops| && LosesAt(l, ops, k)
  }

  ghost predicate LosesAt(l: Ledger, ops: seq<Operation>, k: nat)
    requires k < |ops|
  {
    Loses(OperateAll(l, ops[..k]), ops[k])
  }

  /**
   * Over any sequence of operations from an empty ledger, refused ones included: every receipt is consistent
   * and in its slot, numbers are distinct and at most the dispatch counter, which is at most nine; and the
   * numbers are exactly 1..counter if and only if no dispatch counted a reservation out of bounds.
   */
  lemma {:induction false} LedgerRuns(ops: seq<Operation>)
    ensures var m := OperateAll(Ledger([], 0), ops);
            LedgerInv(m) && (Exact(m) <==> !LosesAmong(Ledger([], 0), ops))
  {
    var start := Ledger([], 0);
    OperateAllMeaning(start, ops);
    if ops != [] {
      var n := |ops| - 1;
      LedgerRuns(ops[..n]);
      OperateExact(OperateAll(start, ops[..n]), ops[n]);
      LosesStep(start, ops);
    }
  }

  lemma LosesStep(l: Ledger, ops: seq<Operation>)
    requires ops != []
    ensures var n := |ops| - 1;
            LosesAmong(l, ops) <==> LosesAmong(l, ops[..n]) || Loses(OperateAll(l, ops[..n]), ops[n])
  {
    var front, last := ops[..|ops| - 1], |ops| - 1;
    forall k | 0 <= k < last ensures LosesAt(l, front, k) <==> LosesAt(l, ops, k) {
      assert front[..k] == ops[..k] && front[k] == ops[k];
    }
    if LosesAmong(l, front) {
      var k :| 0 <= k < |front| && LosesAt(l, front, k);
      assert LosesAt(l, ops, k);
    }
    if LosesAmong(l, ops) {
      var k :| 0 <= k < |ops| && LosesAt(l, ops, k);
      assert k < last ==> LosesAt(l, front, k);
    }
    assert LosesAt(l, ops, last) <==> Loses(OperateAll(l, front), ops[last]);
  }

  class ReceiptLedger {
    var receipts: seq<Receipt>
    var dispatched: nat

    function View(): Ledger
      reads this
    {
      Ledger(receipts, dispatched)
    }

    /** What every sequence of operations keeps, from the empty ledger on. */
    ghost predicate Valid()
      reads this
    {
      LedgerInv(View())
    }

    constructor ()
      ensures Valid() && View() == Ledger([], 0)
    {
      receipts, dispatched := [], 0;
    }

    method PlanSlot(scope: Option<Scope>, revision: int) returns (r: Result<nat, ReceiptError>)
      modifies this
      ensures match Plan(old(View()), scope, revision)
              case Ok(l) => r == Ok(|l.receipts|) && View() == l
              case Err(e) => r == Err(e) && View() == old(View())
      ensures View() == Operate(old(View()), Planning(scope, revision))
      ensures old(Valid()) ==> Valid() && Later(old(View()), View())
    {
      ghost var before := View();
      if LedgerInv(before) { OperateMeaning(before, Planning(scope, revision)); }
      if |receipts| >= MAX_PLANNED_SLOTS { return Err(PlanLimit); }
      var slot: nat := |receipts| + 1;
      var receipt := PlannedReceipt(slot, scope, revision);
      if !Consistent(receipt) { return Err(Invalid); }
      receipts := receipts + [receipt];
      return Ok(slot);
    }

    method ReplaceSlot(slot: nat, receipt: Receipt) returns (refused: Option<ReceiptError>)
      requires Known(View(), slot)
      modifies this`receipts
      ensures match Replace(old(View()), slot, receipt)
              case Ok(l) => refused.None? && View() == l
              case Err(e) => refused == Some(e) && View() == old(View())
    {
      if !Consistent(receipt) { return Some(Invalid); }
      receipts := receipts[slot - 1 := receipt];
      return None;
    }

    method DispatchSlot(slot: nat, reservation: real) returns (refused: Option<ReceiptError>)
      modifies this
      ensures (View(), refused) == Dispatch(old(View()), slot, reservation)
      ensures View() == Operate(old(View()), Dispatching(slot, reservation))
      ensures old(Valid()) ==> Valid() && Later(old(View()), View())
    {
      ghost var before := View();
      if LedgerInv(before) { OperateMeaning(before, Dispatching(slot, reservation)); }
      if !Known(View(), slot) { return Some(UnknownSlot); }
      var current := receipts[slot - 1];
      if !current.state.Planned? { return Some(NotPlanned); }
      if dispatched >= MAX_DISPATCHED { return Some(DispatchLimit); }
      dispatched := dispatched + 1;
      refused := ReplaceSlot(slot, OnDispatch(current, dispatched, reservation));
    }

    method ReconcileReceipt(slot: nat, actual: real) returns (refused: Option<ReceiptError>)
      modifies this
      ensures match ReconcileSlot(old(View()), slot, actual)
              case Ok(l) => refused.None? && View() == l
              case Err(e) => refused == Some(e) && View() == old(View())
      ensures View() == Operate(old(View()), Reconciling(slot, actual))
      ensures old(Valid()) ==> Valid() && Later(old(View()), View())
    {
      ghost var before := View();
      if LedgerInv(before) { OperateMeaning(before, Reconciling(slot, actual)); }
      if !Known(View(), slot) { return Some(UnknownSlot); }
      var current := receipts[slot - 1];
      if !current.state.Dispatched? || current.reconciled.Some? { return Some(NotDispatched); }
      refused := ReplaceSlot(slot, current.(reconciled := Some(actual)));
    }

    method FailReceipt(slot: nat, code: Code, budgetBlocked: bool) returns (refused: Option<ReceiptError>)
      modifies this
      ensures match Fail(old(View()), slot, code, budgetBlocked)
              case Ok(l) => refused.None? && View() == l
              case Err(e) => refused == Some(e) && View() == old(View())
      ensures View() == Operate(old(View()), Failing(slot, code, budgetBlocked))
      ensures old(Valid()) ==> Valid() && Later(old(View()), View())
    {
      ghost var before := View();
      if LedgerInv(before) { OperateMeaning(before, Failing(slot, code, budgetBlocked)); }
      if !Known(View(), slot) { return Some(UnknownSlot); }
      var current := receipts[slot - 1];
      if !(current.state.Planned? || current.state.Dispatched?) || budgetBlocked != current.state.Planned? {
        return Some(NotDispatched);
      }
      refused := ReplaceSlot(slot, current.(codes := [code], state := if budgetBlocked then BudgetBlocked else Failed));
    }

    /** The scan of `complete`: the outcomes seen for the first time and how many were repetitions. */
    static method Deduplicate(outcomes: seq<Outcome>) returns (unique: seq<Outcome>, duplicates: nat)
      ensures unique == Distinct(outcomes) && duplicates == |outcomes| - |unique|
    {
      unique, duplicates := [], 0;
      for k := 0 to |outcomes|
        invariant unique == Distinct(outcomes[..k]) && duplicates == k - |unique|
      {
        assert outcomes[..k + 1][..k] == outcomes[..k];
        if outcomes[k] in unique {
          duplicates := duplicates + 1;
        } else {
          unique := unique + [outcomes[k]];
        }
      }
      assert outcomes[..|outcomes|] == outcomes;
    }

    static method Tally(outcomes: seq<Outcome>) returns (counts: Counts, codes: seq<Code>)
      ensures counts == CountsOf(outcomes) && codes == CodesOf(outcomes)
    {
      var unique, duplicates := Deduplicate(outcomes);
      codes := Distinct(Reasons(unique));
      if duplicates > 0 {
        codes := codes + [DuplicateProposal];
      }
      counts := Counts(
        |outcomes|, CountStatus(unique, Supported), CountConditional(unique), CountStatus(unique, Ambiguous),
        CountStatus(unique, Unknown), CountStatus(unique, Unsupported), duplicates);
    }

    method CompleteReceipt(slot: nat, outcomes: seq<Outcome>, revision: int, reconciled: Option<real>)
      returns (refused: Option<ReceiptError>)
      modifies this
      ensures match Complete(old(View()), slot, outcomes, revision, reconciled)
              case Ok(l) => refused.None? && View() == l
              case Err(e) => refused == Some(e) && View() == old(View())
      ensures View() == Operate(old(View()), Completing(slot, outcomes, revision, reconciled))
      ensures old(Valid()) ==> Valid() && Later(old(View()), View())
    {
      ghost var before := View();
      if LedgerInv(before) { OperateMeaning(before, Completing(slot, outcomes, revision, reconciled)); }
      if !Known(View(), slot) { return Some(UnknownSlot); }
      var current := receipts[slot - 1];
      if !current.state.Dispatched? { return Some(NotDispatched); }
      if current.reconciled.Some? && reconciled.Some? && reconciled != current.reconciled {
        return Some(Rewritten);
      }
      var counts, codes := Tally(outcomes);
      refused := ReplaceSlot(slot, CompletedReceipt(current, counts, codes, revision, reconciled));
    }
  }
}
