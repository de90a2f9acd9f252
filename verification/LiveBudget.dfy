/** src/qualor/runtime/budget.py: reservations against call caps and one cost cap. */
module LiveBudget {
  import opened Wrappers

  datatype Kind = Inference | Search | Fetch

  datatype Authorization = Baseline | Qualor03B3 | Qualor5F

  datatype Policy = Policy(
    authorization: Authorization, inferenceMax: int, searchMax: int, fetchMax: int,
    costCap: real, modelOutput: int, extractionOutput: int)

  datatype BudgetError = NegativeCost | CallCapReached(kind: Kind) | CostCapExceeded | InvalidReservation

  const SEARCH_MAX := 5
  const FETCH_MAX := 10
  const EXTRACTION_OUTPUT_MAX := 1024
  const MODEL_OUTPUT_MAX := 1600

  /** The inference-call and dollar ceilings of an authorization. */
  function Envelope(a: Authorization): (int, real) {
    match a
    case Baseline => (3, 2.00)
    case Qualor03B3 => (9, 0.20)
    case Qualor5F => (9, 0.35)
  }

  predicate Admitted(p: Policy) {
    && 0.0 <= p.costCap <= Envelope(p.authorization).1
    && 0 <= p.inferenceMax <= Envelope(p.authorization).0
    && 0 <= p.searchMax <= SEARCH_MAX
    && 0 <= p.fetchMax <= FETCH_MAX
    && 64 <= p.modelOutput <= MODEL_OUTPUT_MAX
    && 64 <= p.extractionOutput <= EXTRACTION_OUTPUT_MAX
  }

  function LimitFor(p: Policy, kind: Kind): int {
    match kind
    case Inference => p.inferenceMax
    case Search => p.searchMax
    case Fetch => p.fetchMax
  }

  /** `open` holds the reservations neither reconciled nor committed. */
  datatype Guard = Guard(
    policy: Policy, inference: int, searches: int, fetches: int, reserved: real,
    open: map<nat, real>, next: nat)

  function Fresh(p: Policy): Guard { Guard(p, 0, 0, 0, 0.0, map[], 0) }

  function CallsUsed(g: Guard, kind: Kind): int {
    match kind
    case Inference => g.inference
    case Search => g.searches
    case Fetch => g.fetches
  }

  function Counted(g: Guard, kind: Kind): Guard {
    match kind
    case Inference => g.(inference := g.inference + 1)
    case Search => g.(searches := g.searches + 1)
    case Fetch => g.(fetches := g.fetches + 1)
  }

  function Reserve(g: Guard, kind: Kind, cost: real): Result<Guard, BudgetError> {
    if cost < 0.0 then Err(NegativeCost)
    else if CallsUsed(g, kind) >= LimitFor(g.policy, kind) then Err(CallCapReached(kind))
    else if g.reserved + cost > g.policy.costCap then Err(CostCapExceeded)
    else Ok(Counted(g, kind).(
      reserved := g.reserved + cost, next := g.next + 1, open := g.open[g.next + 1 := cost]))
  }

  function Reconcile(g: Guard, receipt: nat, actual: real): Result<Guard, BudgetError> {
    if receipt !in g.open || !(0.0 <= actual <= g.open[receipt]) then Err(InvalidReservation)
    else Ok(g.(reserved := g.reserved - (g.open[receipt] - actual), open := g.open - {receipt}))
  }

  function Commit(g: Guard, receipt: nat): Result<Guard, BudgetError> {
    if receipt !in g.open then Err(InvalidReservation) else Ok(g.(open := g.open - {receipt}))
  }

  class LiveBudgetGuard {
    const policy: Policy
    var calls: map<Kind, int>
    var reserved: real
    var reservations: map<nat, real>
    var nextReceipt: nat

    predicate Valid()
      reads this
    {
      Inference in calls && Search in calls && Fetch in calls
    }

    function View(): Guard
      reads this
      requires Valid()
    {
      Guard(policy, calls[Inference], calls[Search], calls[Fetch], reserved, reservations, nextReceipt)
    }

    constructor (policy: Policy)
      requires Admitted(policy)
      ensures Valid() && View() == Fresh(policy)
    {
      this.policy := policy;
      calls := map[Inference := 0, Search := 0, Fetch := 0];
      reserved, reservations, nextReceipt := 0.0, map[], 0;
    }

    method ReserveCost(kind: Kind, cost: real) returns (r: Result<nat, BudgetError>)
      requires Valid()
      modifies this
      ensures Valid()
      ensures match Reserve(old(View()), kind, cost)
              case Ok(g) => r == Ok(g.next) && View() == g
              case Err(e) => r == Err(e) && View() == old(View())
    {
      if cost < 0.0 { return Err(NegativeCost); }
      if calls[kind] >= LimitFor(policy, kind) { return Err(CallCapReached(kind)); }
      var nextCost := reserved + cost;
      if nextCost > policy.costCap { return Err(CostCapExceeded); }
      calls := calls[kind := calls[kind] + 1];
      reserved := nextCost;
      nextReceipt := nextReceipt + 1;
      reservations := reservations[nextReceipt := cost];
      return Ok(nextReceipt);
    }

    method ReconcileCost(receipt: nat, actual: real) returns (refused: bool)
      requires Valid()
      modifies this
      ensures Valid()
      ensures match Reconcile(old(View()), receipt, actual)
              case Ok(g) => !refused && View() == g
              case Err(_) => refused && View() == old(View())
    {
      if receipt !in reservations || !(0.0 <= actual <= reservations[receipt]) { return true; }
      reserved := reserved - (reservations[receipt] - actual);
      reservations := reservations - {receipt};
      return false;
    }

    method CommitCost(receipt: nat) returns (refused: bool)
      requires Valid()
      modifies this
      ensures Valid()
      ensures match Commit(old(View()), receipt)
              case Ok(g) => !refused && View() == g
              case Err(_) => refused && View() == old(View())
    {
      if receipt !in reservations { return true; }
      reservations := reservations - {receipt};
      return false;
    }
  }
}
