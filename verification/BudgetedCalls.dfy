/** src/qualor/runtime/agent.py: every model call under one budget and one receipt ledger. */
module BudgetedCalls {
  import opened Wrappers
  import opened LiveBudget
  import opened ModelReceipts

  const SEARCH_COST := 0.009
  const REQUEST_OVERHEAD := 2048

  /** `size` is the encoded request in bytes; `extraction` that it carries the extraction schema. */
  datatype Request = Request(approved: bool, extraction: bool, maxTokens: int, size: nat)

  datatype Reply = Raises | Unmetered | Metered(input: nat, output: nat)

  datatype CallOutcome = Refused | Blocked | Broken | CallFailed | Returned

  datatype Context = Context(scope: Scope, slot: Option<nat>, reconciled: Option<real>, completed: bool)

  datatype Client = Client(guard: Guard, ledger: Ledger, context: Option<Context>)

  function Price(input: int, output: int): real {
    input as real * 0.000003 + output as real * 0.000015
  }

  function Estimate(q: Request): real { Price(q.size + REQUEST_OVERHEAD, q.maxTokens) }

  predicate Bounded(p: Policy, q: Request) {
    q.approved && 1 <= q.maxTokens <= if q.extraction then p.extractionOutput else p.modelOutput
  }

  // ----- converse

  function FailSlot(c: Client, slot: nat, code: Code, budgetBlocked: bool): Client {
    match Fail(c.ledger, slot, code, budgetBlocked)
    case Ok(l) => c.(ledger := l)
    case Err(_) => c
  }

  function FailIfOpen(c: Client, slot: nat, code: Code): Client {
    if Known(c.ledger, slot) && Current(c.ledger, slot).state.Dispatched? then FailSlot(c, slot, code, false) else c
  }

  /** The budget took the actual cost; the receipt follows. */
  function Settled(c: Client, slot: nat, actual: real, revision: int, code: Code): (Client, CallOutcome) {
    match ReconcileSlot(c.ledger, slot, actual)
    case Err(_) => (FailIfOpen(c, slot, code), CallFailed)
    case Ok(l) =>
      if c.context.Some? then
        (c.(ledger := l, context := Some(c.context.value.(reconciled := Some(actual)))), Returned)
      else
        match Complete(l, slot, [], revision, Some(actual))
        case Ok(done) => (c.(ledger := done), Returned)
        case Err(_) => (FailIfOpen(c.(ledger := l), slot, code), CallFailed)
  }

  function Answered(c: Client, slot: nat, reply: Reply, revision: int, code: Code): (Client, CallOutcome) {
    match reply
    case Raises => (FailIfOpen(c, slot, code), CallFailed)
    case Unmetered => (FailIfOpen(c, slot, code), CallFailed)
    case Metered(input, output) =>
      match Reconcile(c.guard, c.guard.next, Price(input, output))
      case Err(_) => (FailIfOpen(c, slot, code), CallFailed)
      case Ok(g) => Settled(c.(guard := g), slot, Price(input, output), revision, code)
  }

  /** The budget has reserved; the receipt is dispatched before anything is caught. */
  function SentCall(
    c: Client, slot: nat, cost: real, reply: Reply, revision: int, code: Code): (Client, CallOutcome)
  {
    var (l, refused) := Dispatch(c.ledger, slot, cost);
    if refused.Some? then (c.(ledger := l), Broken)
    else Answered(c.(ledger := l), slot, reply, revision, code)
  }

  function ScopeOf(c: Client): Option<Scope> {
    if c.context.Some? then Some(c.context.value.scope) else None
  }

  function WithSlot(c: Client, l: Ledger): Client {
    c.(ledger := l,
       context := if c.context.Some? then Some(c.context.value.(slot := Some(|l.receipts|))) else None)
  }

  /** `revision` and `laterRevision` are the authority revisions read before and after the call. */
  function Converse(c: Client, q: Request, revision: int, reply: Reply, laterRevision: int, code: Code)
    : (Client, CallOutcome)
  {
    if !Bounded(c.guard.policy, q) then (c, Refused)
    else
      match Plan(c.ledger, ScopeOf(c), revision)
      case Err(_) => (c, Refused)
      case Ok(l) =>
        var planned := WithSlot(c, l);
        match Reserve(c.guard, Inference, Estimate(q))
        case Err(_) => (FailSlot(planned, |l.receipts|, BudgetExhausted, true), Blocked)
        case Ok(g) => SentCall(planned.(guard := g), |l.receipts|, Estimate(q), reply, laterRevision, code)
  }

  // ----- the extraction context and the fixed-price calls

  function EnterContext(c: Client, scope: Scope): Client {
    if c.context.Some? then c else c.(context := Some(Context(scope, None, None, false)))
  }

  function CompleteContext(c: Client, outcomes: seq<Outcome>, revision: int): Client {
    if c.context.None? || c.context.value.slot.None? || c.context.value.completed then c
    else if !Known(c.ledger, c.context.value.slot.value)
            || !Current(c.ledger, c.context.value.slot.value).state.Dispatched? then c
    else
      match Complete(c.ledger, c.context.value.slot.value, outcomes, revision, c.context.value.reconciled)
      case Ok(l) => c.(ledger := l, context := Some(c.context.value.(completed := true)))
      case Err(_) => c
  }

  function FailContext(c: Client, code: Code): Client {
    if c.context.None? || c.context.value.slot.None? || c.context.value.completed then c
    else FailIfOpen(c, c.context.value.slot.value, code).(context := Some(c.context.value.(completed := true)))
  }

  function ExitContext(c: Client, raised: Option<Code>): Client {
    if c.context.None? then c
    else
      var left := if raised.Some? && c.context.value.slot.Some? && !c.context.value.completed
                  then FailIfOpen(c, c.context.value.slot.value, raised.value) else c;
      left.(context := None)
  }

  /** A search or fetch: reserved at its fixed price, and committed when the call succeeds. */
  function FixedPrice(c: Client, kind: Kind, cost: real, succeeds: bool): Client {
    match Reserve(c.guard, kind, cost)
    case Err(_) => c
    case Ok(g) =>
      if !succeeds then c.(guard := g)
      else
        match Commit(g, g.next)
        case Ok(done) => c.(guard := done)
        case Err(_) => c.(guard := g)
  }

  datatype Event =
    | Called(request: Request, revision: int, reply: Reply, laterRevision: int, code: Code)
    | Entered(scope: Scope)
    | ContextCompleted(outcomes: seq<Outcome>, revision: int)
    | ContextFailed(code: Code)
    | Left(raised: Option<Code>)
    | Searched(succeeds: bool)
    | Fetched(succeeds: bool)

  function Step(c: Client, e: Event): Client {
    match e
    case Called(q, revision, reply, later, code) => Converse(c, q, revision, reply, later, code).0
    case Entered(scope) => EnterContext(c, scope)
    case ContextCompleted(outcomes, revision) => CompleteContext(c, outcomes, revision)
    case ContextFailed(code) => FailContext(c, code)
    case Left(raised) => ExitContext(c, raised)
    case Searched(succeeds) => FixedPrice(c, Search, SEARCH_COST, succeeds)
    case Fetched(succeeds) => FixedPrice(c, Fetch, 0.0, succeeds)
  }

  function Run(c: Client, events: seq<Event>): Client {
    if events == [] then c else Step(Run(c, events[..|events| - 1]), events[|events| - 1])
  }

  // ----- the two ledgers agree

  function Cost(r: Receipt): real {
    if r.reconciled.Some? then r.reconciled.value else if r.reserved.Some? then r.reserved.value else 0.0
  }

  function Spent(receipts: seq<Receipt>): real {
    if receipts == [] then 0.0 else Spent(receipts[..|receipts| - 1]) + Cost(receipts[|receipts| - 1])
  }

  function DispatchedCount(receipts: seq<Receipt>): nat {
    if receipts == [] then 0
    else DispatchedCount(receipts[..|receipts| - 1]) + if IsDispatched(receipts[|receipts| - 1].state) then 1 else 0
  }

  /** A finished receipt in its slot: never left planned, and a dispatched one already reconciled. */
  ghost predicate Settles(r: Receipt, slot: nat) {
    && r.slot == slot && Consistent(r) && !r.state.Planned?
    && (r.state.Dispatched? ==> r.reconciled.Some?)
  }

  /** Each dispatched receipt carries the number of dispatches up to it. */
  ghost predicate NumberedAt(receipts: seq<Receipt>, k: nat)
    requires k < |receipts|
  {
    IsDispatched(receipts[k].state) ==> receipts[k].index == Some(DispatchedCount(receipts[..k + 1]))
  }

  ghost predicate Numbered(receipts: seq<Receipt>) {
    forall k :: 0 <= k < |receipts| ==> NumberedAt(receipts, k)
  }

  ghost predicate AllSettle(receipts: seq<Receipt>) {
    forall k :: 0 <= k < |receipts| ==> Settles(receipts[k], k + 1)
  }

  /** The receipts and the guard tell the same story. */
  ghost predicate Agreement(c: Client) {
    && Admitted(c.guard.policy)
    && AllSettle(c.ledger.receipts) && Numbered(c.ledger.receipts)
    && DispatchedCount(c.ledger.receipts) == c.ledger.dispatched == c.guard.inference
    && 0 <= c.guard.inference <= c.guard.policy.inferenceMax
    && 0 <= c.guard.searches
    && c.guard.reserved == Spent(c.ledger.receipts) + c.guard.searches as real * SEARCH_COST
    && c.guard.reserved <= c.guard.policy.costCap
    && (forall id :: id in c.guard.open ==> id <= c.guard.next)
  }

  lemma {:induction false} SpentNonNegative(receipts: seq<Receipt>)
    requires AllSettle(receipts)
    ensures Spent(receipts) >= 0.0
  {
    if receipts != [] {
      var n := |receipts| - 1;
      SpentNonNegative(receipts[..n]);
      assert Settles(receipts[n], n + 1);
    }
  }

  lemma {:induction false} SameAccounting(a: seq<Receipt>, b: seq<Receipt>)
    requires |a| == |b|
    requires forall k :: 0 <= k < |a| ==>
        IsDispatched(a[k].state) == IsDispatched(b[k].state) && Cost(a[k]) == Cost(b[k])
    ensures Spent(a) == Spent(b) && DispatchedCount(a) == DispatchedCount(b)
  {
    if a != [] {
      SameAccounting(a[..|a| - 1], b[..|b| - 1]);
    }
  }

  /** Rewriting one receipt without touching cost, index or dispatch keeps every account. */
  lemma RewriteKeeps(receipts: seq<Receipt>, i: nat, r: Receipt)
    requires i < |receipts| && AllSettle(receipts) && Numbered(receipts)
    requires Settles(r, i + 1) && r.index == receipts[i].index && Cost(r) == Cost(receipts[i])
    requires IsDispatched(r.state) == IsDispatched(receipts[i].state)
    ensures var after := receipts[i := r];
            && AllSettle(after) && Numbered(after)
            && Spent(after) == Spent(receipts) && DispatchedCount(after) == DispatchedCount(receipts)
  {
    var after := receipts[i := r];
    SameAccounting(receipts, after);
    forall k | 0 <= k < |after| ensures NumberedAt(after, k) {
      SameAccounting(receipts[..k + 1], after[..k + 1]);
      assert NumberedAt(receipts, k);
    }
    forall k | 0 <= k < |after| ensures Settles(after[k], k + 1) {
      assert Settles(receipts[k], k + 1);
    }
  }

  lemma AppendSettles(receipts: seq<Receipt>, r: Receipt)
    requires AllSettle(receipts) && Settles(r, |receipts| + 1)
    ensures AllSettle(receipts + [r])
  {
    var after := receipts + [r];
    forall k | 0 <= k < |after| ensures Settles(after[k], k + 1) {
      if k < |receipts| {
        assert after[k] == receipts[k];
        assert Settles(receipts[k], k + 1);
      }
    }
  }

  lemma AppendNumbers(receipts: seq<Receipt>, r: Receipt)
    requires Numbered(receipts)
    requires IsDispatched(r.state) ==> r.index == Some(DispatchedCount(receipts) + 1)
    ensures Numbered(receipts + [r])
    ensures Spent(receipts + [r]) == Spent(receipts) + Cost(r)
    ensures DispatchedCount(receipts + [r]) == DispatchedCount(receipts) + if IsDispatched(r.state) then 1 else 0
  {
    var after := receipts + [r];
    assert after[..|receipts|] == receipts;
    forall k | 0 <= k < |after| ensures NumberedAt(after, k) {
      if k < |receipts| {
        assert after[..k + 1] == receipts[..k + 1];
        assert NumberedAt(receipts, k);
      } else {
        assert after[..k + 1] == after;
      }
    }
  }

  // ----- what one call does

  /** The request is planned and the budget accepts a reservation that a receipt cannot hold. */
  predicate Overflows(c: Client, q: Request, revision: int) {
    && Bounded(c.guard.policy, q)
    && Plan(c.ledger, ScopeOf(c), revision).Ok?
    && Reserve(c.guard, Inference, Estimate(q)).Ok?
    && Estimate(q) > MAX_COST
  }

  /** How the last receipt of the call ends, given what it cost. */
  ghost predicate Concluded(before: Client, after: Client, r: Receipt, cost: real) {
    && after.ledger.receipts == before.ledger.receipts + [r]
    && after.ledger.dispatched == before.ledger.dispatched + 1
    && Settles(r, |before.ledger.receipts| + 1) && IsDispatched(r.state)
    && r.index == Some(before.ledger.dispatched + 1) && r.reserved == Some(cost)
    && after.guard.policy == before.guard.policy
    && after.guard.inference == before.guard.inference + 1
    && after.guard.searches == before.guard.searches
    && after.guard.reserved == before.guard.reserved + Cost(r)
    && Cost(r) <= cost
    && (forall id :: id in after.guard.open ==> id <= after.guard.next)
  }

  /** The receipt just after dispatch. */
  function DispatchedReceipt(slot: nat, scope: Option<Scope>, revision: int, index: nat, cost: real): Receipt {
    PlannedReceipt(slot, scope, revision).(index := Some(index), reserved := Some(cost), state := Dispatched)
  }

  /** Failing the open last receipt only marks it failed. */
  lemma FailingLast(c: Client, slot: nat, code: Code)
    requires Known(c.ledger, slot) && Consistent(Current(c.ledger, slot)) && Current(c.ledger, slot).state.Dispatched?
    ensures FailIfOpen(c, slot, code) == c.(ledger := c.ledger.(receipts :=
              c.ledger.receipts[slot - 1 := Current(c.ledger, slot).(codes := [code], state := Failed)]))
    ensures Consistent(Current(c.ledger, slot).(codes := [code], state := Failed))
  {
  }

  /** The guard keeps what the call actually cost. */
  lemma GuardPays(g: Guard, cost: real, actual: real)
    requires g.next in g.open && g.open[g.next] == cost && 0.0 <= actual <= cost
    requires forall id :: id in g.open ==> id <= g.next
    ensures Reconcile(g, g.next, actual).Ok?
    ensures var paid := Reconcile(g, g.next, actual).value;
            && paid.policy == g.policy && paid.inference == g.inference && paid.searches == g.searches
            && paid.reserved == g.reserved - cost + actual && paid.next == g.next
            && forall id :: id in paid.open ==> id <= paid.next
  {
  }

  /** An open last receipt, and a guard that has reserved its cost. */
  ghost predicate OpenCall(before: Client, c: Client, r: Receipt, cost: real) {
    && c.ledger.receipts == before.ledger.receipts + [r]
    && r.slot == |before.ledger.receipts| + 1 && Consistent(r) && r.state.Dispatched? && r.reconciled.None?
    && c.ledger.dispatched == before.ledger.dispatched + 1
    && r.index == Some(before.ledger.dispatched + 1) && r.reserved == Some(cost)
    && c.guard.policy == before.guard.policy && c.guard.inference == before.guard.inference + 1
    && c.guard.searches == before.guard.searches && c.guard.reserved == before.guard.reserved + cost
    && (forall id :: id in c.guard.open ==> id <= c.guard.next)
    && c.guard.next in c.guard.open && c.guard.open[c.guard.next] == cost
  }

  /** From an open last receipt, whatever the provider answers, the call concludes. */
  lemma AnsweredConcludes(
    before: Client, c: Client, r: Receipt, cost: real, reply: Reply, revision: int, code: Code)
    returns (last: Receipt)
    requires OpenCall(before, c, r, cost)
    ensures var (after, outcome) := Answered(c, r.slot, reply, revision, code);
            && Concluded(before, after, last, cost)
            && (outcome.Returned? || outcome.CallFailed?)
            && (outcome.Returned? ==>
                  (reply.Metered? && Price(reply.input, reply.output) <= cost
                   && last.reconciled == Some(Price(reply.input, reply.output))))
            && (reply.Raises? || reply.Unmetered? || Price(reply.input, reply.output) > cost ==>
                  outcome.CallFailed? && after.guard == c.guard)
  {
    if reply.Metered? && 0.0 <= Price(reply.input, reply.output) <= cost {
      var actual := Price(reply.input, reply.output);
      last := PaidConcludes(before, c, r, cost, actual, revision, code);
    } else {
      last := r.(codes := [code], state := Failed);
      FailedConcludes(before, c, r, cost, code);
      assert Answered(c, r.slot, reply, revision, code) == (FailIfOpen(c, r.slot, code), CallFailed);
    }
  }

  lemma PaidConcludes(
    before: Client, c: Client, r: Receipt, cost: real, actual: real, revision: int, code: Code)
    returns (last: Receipt)
    requires OpenCall(before, c, r, cost) && 0.0 <= actual <= cost
    ensures Reconcile(c.guard, c.guard.next, actual).Ok? && last.reconciled == Some(actual)
    ensures var (after, outcome) :=
              Settled(c.(guard := Reconcile(c.guard, c.guard.next, actual).value), r.slot, actual, revision, code);
            Concluded(before, after, last, cost) && (outcome.Returned? || outcome.CallFailed?)
  {
    GuardPays(c.guard, cost, actual);
    var paid := c.(guard := Reconcile(c.guard, c.guard.next, actual).value);
    last := SettledShape(paid, before.ledger.receipts, r, cost, actual, revision, code);
    PaidCallConcludes(before, c, paid.guard, Settled(paid, r.slot, actual, revision, code).0, r, last, cost, actual);
  }

  /** A paid guard and a settled last receipt conclude an open call. */
  lemma PaidCallConcludes(
    before: Client, c: Client, g: Guard, after: Client, r: Receipt, last: Receipt, cost: real, actual: real)
    requires OpenCall(before, c, r, cost) && 0.0 <= actual <= cost
    requires g.policy == c.guard.policy && g.inference == c.guard.inference && g.searches == c.guard.searches
    requires g.reserved == c.guard.reserved - cost + actual && (forall id :: id in g.open ==> id <= g.next)
    requires after.guard == g && after.ledger == c.ledger.(receipts := before.ledger.receipts + [last])
    requires Settles(last, r.slot) && IsDispatched(last.state)
    requires last.index == r.index && last.reserved == r.reserved && last.reconciled == Some(actual)
    ensures Concluded(before, after, last, cost)
  {
  }

  lemma FailedConcludes(before: Client, c: Client, r: Receipt, cost: real, code: Code)
    requires OpenCall(before, c, r, cost)
    ensures Concluded(before, FailIfOpen(c, r.slot, code), r.(codes := [code], state := Failed), cost)
    ensures FailIfOpen(c, r.slot, code).guard == c.guard
  {
    FailingLast(c, r.slot, code);
    ReplaceLast(c.ledger, before.ledger.receipts, r, r.(codes := [code], state := Failed));
  }

  /** Once the guard is paid, the last receipt carries that cost and ends in a final state. */
  lemma SettledShape(c: Client, front: seq<Receipt>, r: Receipt, cost: real, actual: real, revision: int, code: Code)
    returns (last: Receipt)
    requires c.ledger.receipts == front + [r] && r.slot == |front| + 1
    requires Consistent(r) && r.state.Dispatched? && r.reconciled.None? && r.reserved == Some(cost)
    requires 0.0 <= actual <= cost
    ensures var (after, outcome) := Settled(c, r.slot, actual, revision, code);
            && after.guard == c.guard && after.ledger == c.ledger.(receipts := front + [last])
            && (outcome.Returned? || outcome.CallFailed?)
    ensures Settles(last, r.slot) && IsDispatched(last.state)
    ensures last.index == r.index && last.reserved == r.reserved && last.reconciled == Some(actual)
  {
    var paid := r.(reconciled := Some(actual));
    PaidReceipt(c.ledger, front, r, cost, actual);
    var l := c.ledger.(receipts := front + [paid]);
    if c.context.Some? {
      last := paid;
    } else {
      var receipt := CompletedReceipt(paid, CountsOf([]), CodesOf([]), revision, Some(actual));
      var done := Complete(l, r.slot, [], revision, Some(actual));
      CompletionReplaces(l, front, paid, revision, actual);
      last := PlanningConcludes(c.(ledger := l), front, paid, receipt, done, code);
    }
  }

  lemma PaidReceipt(l: Ledger, front: seq<Receipt>, r: Receipt, cost: real, actual: real)
    requires l.receipts == front + [r] && r.slot == |front| + 1
    requires Consistent(r) && r.state.Dispatched? && r.reconciled.None? && r.reserved == Some(cost)
    requires 0.0 <= actual <= cost
    ensures Consistent(r.(reconciled := Some(actual)))
    ensures ReconcileSlot(l, r.slot, actual) == Ok(l.(receipts := front + [r.(reconciled := Some(actual))]))
  {
    ReplaceLast(l, front, r, r.(reconciled := Some(actual)));
  }

  lemma CompletionReplaces(l: Ledger, front: seq<Receipt>, paid: Receipt, revision: int, actual: real)
    requires l.receipts == front + [paid] && paid.slot == |front| + 1
    requires paid.state.Dispatched? && paid.reconciled == Some(actual)
    ensures var receipt := CompletedReceipt(paid, CountsOf([]), CodesOf([]), revision, Some(actual));
            Complete(l, paid.slot, [], revision, Some(actual)) == Replace(l, paid.slot, receipt)
  {
    assert Current(l, paid.slot) == paid;
  }

  lemma ReplaceLast(l: Ledger, front: seq<Receipt>, from: Receipt, into: Receipt)
    requires l.receipts == front + [from] && from.slot == |front| + 1
    ensures Known(l, from.slot) && Current(l, from.slot) == from
    ensures Replace(l, from.slot, into) == if Consistent(into) then Ok(l.(receipts := front + [into])) else Err(Invalid)
  {
    assert l.receipts[from.slot - 1 := into] == front + [into];
  }

  /** A planning call completes its receipt, or fails it when the contract refuses; the cost stays. */
  lemma PlanningConcludes(
    c: Client, front: seq<Receipt>, paid: Receipt, receipt: Receipt, done: Result<Ledger, ReceiptError>, code: Code)
    returns (last: Receipt)
    requires c.ledger.receipts == front + [paid]
    requires paid.slot == |front| + 1 && Consistent(paid) && paid.state.Dispatched? && paid.reconciled.Some?
    requires receipt.slot == paid.slot && receipt.state.Completed? && receipt.index == paid.index
    requires receipt.reserved == paid.reserved && receipt.reconciled == paid.reconciled
    requires done == Replace(c.ledger, paid.slot, receipt)
    ensures (if done.Ok? then c.(ledger := done.value) else FailIfOpen(c, paid.slot, code))
            == c.(ledger := c.ledger.(receipts := front + [last]))
    ensures Settles(last, paid.slot) && IsDispatched(last.state)
    ensures last.index == paid.index && last.reserved == paid.reserved && last.reconciled == paid.reconciled
  {
    ReplaceLast(c.ledger, front, paid, receipt);
    if Consistent(receipt) {
      last := receipt;
    } else {
      last := paid.(codes := [code], state := Failed);
      FailingLast(c, paid.slot, code);
      ReplaceLast(c.ledger, front, paid, last);
    }
  }

  /** One call: nothing at all, a blocked receipt, a broken dispatch, or a concluded one. */
  lemma CallMeaning(c: Client, q: Request, revision: int, reply: Reply, later: int, code: Code)
    requires Agreement(c)
    ensures var (after, outcome) := Converse(c, q, revision, reply, later, code);
            var n := |c.ledger.receipts|;
            && (outcome.Refused? ==> after == c)
            && (outcome.Blocked? ==>
                  && after.guard == c.guard && after.ledger.dispatched == c.ledger.dispatched
                  && |after.ledger.receipts| == n + 1 && after.ledger.receipts[..n] == c.ledger.receipts
                  && after.ledger.receipts[n].state.BudgetBlocked? && Settles(after.ledger.receipts[n], n + 1))
            && (outcome.Broken? <==> Overflows(c, q, revision))
            && (outcome.Broken? ==>
                  && |after.ledger.receipts| == n + 1 && after.ledger.receipts[n].state.Planned?
                  && after.guard.reserved > c.guard.reserved)
            && (outcome.CallFailed? || outcome.Returned? ==>
                  && |after.ledger.receipts| == n + 1
                  && Concluded(c, after, after.ledger.receipts[n], Estimate(q))
                  && after.guard.reserved <= after.guard.policy.costCap
                  && after.guard.inference <= after.guard.policy.inferenceMax)
  {
    if Bounded(c.guard.policy, q) && Plan(c.ledger, ScopeOf(c), revision).Ok? {
      if Reserve(c.guard, Inference, Estimate(q)).Ok? {
        ReservedCall(c, q, revision, reply, later, code);
      } else {
        BlockedCall(c, q, revision, reply, later, code);
      }
    }
  }

  /** Without a reservation the planned receipt is marked blocked and nothing else moves. */
  lemma BlockedCall(c: Client, q: Request, revision: int, reply: Reply, later: int, code: Code)
    requires Bounded(c.guard.policy, q)
    requires Plan(c.ledger, ScopeOf(c), revision).Ok? && Reserve(c.guard, Inference, Estimate(q)).Err?
    ensures var (after, outcome) := Converse(c, q, revision, reply, later, code);
            var n := |c.ledger.receipts|;
            && outcome.Blocked? && after.guard == c.guard && after.ledger.dispatched == c.ledger.dispatched
            && |after.ledger.receipts| == n + 1 && after.ledger.receipts[..n] == c.ledger.receipts
            && after.ledger.receipts[n].state.BudgetBlocked? && Settles(after.ledger.receipts[n], n + 1)
  {
    var l := Plan(c.ledger, ScopeOf(c), revision).value;
    var planned := PlannedReceipt(|l.receipts|, ScopeOf(c), revision);
    FailPlanned(WithSlot(c, l), c.ledger.receipts, planned);
    assert Converse(c, q, revision, reply, later, code)
        == (FailSlot(WithSlot(c, l), |l.receipts|, BudgetExhausted, true), Blocked);
  }

  /** Failing a planned last receipt for want of budget only marks it blocked. */
  lemma FailPlanned(c: Client, front: seq<Receipt>, planned: Receipt)
    requires c.ledger.receipts == front + [planned] && planned.slot == |front| + 1
    requires Consistent(planned) && planned.state.Planned?
    ensures var blocked := planned.(codes := [BudgetExhausted], state := BudgetBlocked);
            && Settles(blocked, planned.slot)
            && FailSlot(c, planned.slot, BudgetExhausted, true)
                == c.(ledger := c.ledger.(receipts := front + [blocked]))
  {
    ReplaceLast(c.ledger, front, planned, planned.(codes := [BudgetExhausted], state := BudgetBlocked));
  }

  /** After a successful reservation the receipt limit of nine dispatches is never met. */
  lemma DispatchNeverLimited(c: Client, kind: Kind, cost: real)
    requires Agreement(c) && kind.Inference? && Reserve(c.guard, kind, cost).Ok?
    ensures c.ledger.dispatched < MAX_DISPATCHED
  {
  }

  lemma ReservedCall(c: Client, q: Request, revision: int, reply: Reply, later: int, code: Code)
    requires Agreement(c)
    requires Bounded(c.guard.policy, q)
    requires Plan(c.ledger, ScopeOf(c), revision).Ok? && Reserve(c.guard, Inference, Estimate(q)).Ok?
    ensures var (after, outcome) := Converse(c, q, revision, reply, later, code);
            var n := |c.ledger.receipts|;
            && |after.ledger.receipts| == n + 1
            && (outcome.Broken? <==> Estimate(q) > MAX_COST)
            && (outcome.Broken? ==> after.ledger.receipts[n].state.Planned? && after.guard.reserved > c.guard.reserved)
            && (!outcome.Broken? ==>
                  && (outcome.CallFailed? || outcome.Returned?)
                  && Concluded(c, after, after.ledger.receipts[n], Estimate(q))
                  && after.guard.reserved <= after.guard.policy.costCap
                  && after.guard.inference <= after.guard.policy.inferenceMax)
  {
    var l := Plan(c.ledger, ScopeOf(c), revision).value;
    var g := Reserve(c.guard, Inference, Estimate(q)).value;
    var slot, cost := |l.receipts|, Estimate(q);
    var planned := PlannedReceipt(slot, ScopeOf(c), revision);
    assert l.receipts == c.ledger.receipts + [planned];
    assert Current(l, slot) == planned;
    DispatchNeverLimited(c, Inference, cost);
    var r := DispatchedReceipt(slot, ScopeOf(c), revision, c.ledger.dispatched + 1, cost);
    assert Consistent(r) <==> cost <= MAX_COST;
    if cost <= MAX_COST {
      var d := Dispatch(l, slot, cost).0;
      assert d.receipts == c.ledger.receipts + [r];
      var last := AnsweredConcludes(c, WithSlot(c, l).(guard := g, ledger := d), r, cost, reply, later, code);
    }
  }

  // ----- agreement is kept

  lemma ConcludedAgrees(c: Client, after: Client, r: Receipt, cost: real)
    requires Agreement(c) && Concluded(c, after, r, cost)
    requires after.guard.reserved <= after.guard.policy.costCap
    requires after.guard.inference <= after.guard.policy.inferenceMax
    ensures Agreement(after)
  {
    AppendSettles(c.ledger.receipts, r);
    AppendNumbers(c.ledger.receipts, r);
  }

  lemma BlockedAgrees(c: Client, after: Client, r: Receipt)
    requires Agreement(c)
    requires after.guard == c.guard && after.ledger == c.ledger.(receipts := c.ledger.receipts + [r])
    requires r.state.BudgetBlocked? && Settles(r, |c.ledger.receipts| + 1)
    ensures Agreement(after)
  {
    AppendSettles(c.ledger.receipts, r);
    AppendNumbers(c.ledger.receipts, r);
  }

  /** A call keeps the agreement exactly when it does not overflow the receipt's cost bound. */
  lemma CallKeepsAgreement(c: Client, q: Request, revision: int, reply: Reply, later: int, code: Code)
    requires Agreement(c)
    ensures Agreement(Converse(c, q, revision, reply, later, code).0) <==> !Overflows(c, q, revision)
  {
    CallMeaning(c, q, revision, reply, later, code);
    var (after, outcome) := Converse(c, q, revision, reply, later, code);
    var n := |c.ledger.receipts|;
    match outcome
    case Refused =>
    case Blocked =>
      assert after.ledger.receipts == c.ledger.receipts + [after.ledger.receipts[n]];
      BlockedAgrees(c, after, after.ledger.receipts[n]);
    case Broken =>
      assert !Settles(after.ledger.receipts[n], n + 1);
    case CallFailed => ConcludedAgrees(c, after, after.ledger.receipts[n], Estimate(q));
    case Returned => ConcludedAgrees(c, after, after.ledger.receipts[n], Estimate(q));
  }

  /** A reservation over the bound that the budget accepts: two hundred kilobytes under the largest caps. */
  lemma AgreementCanBreak() returns (c: Client, q: Request)
    ensures Agreement(c) && Overflows(c, q, 0)
    ensures c.guard.policy.authorization == Qualor5F
    ensures forall reply, later, code :: !Agreement(Converse(c, q, 0, reply, later, code).0)
  {
    var policy := Policy(Qualor5F, 9, 5, 10, 0.35, 512, 1024);
    FreshAgrees(policy);
    c := Client(Fresh(policy), Ledger([], 0), None);
    q := Request(true, false, 512, 80000);
    LargeRequestOverflows(c, q);
    forall reply, later, code ensures !Agreement(Converse(c, q, 0, reply, later, code).0) {
      CallKeepsAgreement(c, q, 0, reply, later, code);
    }
  }

  lemma LargeRequestOverflows(c: Client, q: Request)
    requires c.guard.policy.modelOutput == 512 && c.guard.policy.inferenceMax == 9 && c.guard.policy.costCap == 0.35
    requires c.guard.inference == 0 && c.guard.reserved == 0.0 && c.ledger.receipts == [] && c.context.None?
    requires q == Request(true, false, 512, 80000)
    ensures Overflows(c, q, 0)
  {
    assert Estimate(q) == 0.253824;
  }

  /** Under a cost cap of at most the receipt bound no call can overflow. */
  lemma SmallCapNeverOverflows(c: Client, q: Request, revision: int)
    requires Agreement(c) && c.guard.policy.costCap <= MAX_COST
    ensures !Overflows(c, q, revision)
  {
    SpentNonNegative(c.ledger.receipts);
  }

  lemma RewriteKeepsAgreement(c: Client, after: Client, i: nat, r: Receipt)
    requires Agreement(c) && i < |c.ledger.receipts|
    requires after.guard == c.guard && after.ledger == c.ledger.(receipts := c.ledger.receipts[i := r])
    requires Settles(r, i + 1) && r.index == c.ledger.receipts[i].index && Cost(r) == Cost(c.ledger.receipts[i])
    requires IsDispatched(r.state) == IsDispatched(c.ledger.receipts[i].state)
    ensures Agreement(after)
  {
    RewriteKeeps(c.ledger.receipts, i, r);
  }

  lemma SettlesAt(receipts: seq<Receipt>, i: nat)
    requires AllSettle(receipts) && i < |receipts|
    ensures Settles(receipts[i], i + 1)
  {
  }

  lemma FailureSettles(c: Client, slot: nat, r: Receipt, code: Code)
    requires Known(c.ledger, slot) && Current(c.ledger, slot) == r && Settles(r, slot) && r.state.Dispatched?
    ensures var failed := r.(codes := [code], state := Failed);
            && Settles(failed, slot)
            && FailIfOpen(c, slot, code) == c.(ledger := c.ledger.(receipts := c.ledger.receipts[slot - 1 := failed]))
  {
    FailingLast(c, slot, code);
  }

  lemma FailKeepsAgreement(c: Client, slot: nat, code: Code)
    requires Agreement(c)
    ensures Agreement(FailIfOpen(c, slot, code))
  {
    if Known(c.ledger, slot) && Current(c.ledger, slot).state.Dispatched? {
      var r := Current(c.ledger, slot);
      SettlesAt(c.ledger.receipts, slot - 1);
      FailureSettles(c, slot, r, code);
      RewriteKeepsAgreement(c, FailIfOpen(c, slot, code), slot - 1, r.(codes := [code], state := Failed));
    }
  }

  lemma CompleteKeepsAgreement(c: Client, outcomes: seq<Outcome>, revision: int)
    requires Agreement(c)
    ensures Agreement(CompleteContext(c, outcomes, revision))
  {
    var after := CompleteContext(c, outcomes, revision);
    if after.ledger != c.ledger {
      var slot := c.context.value.slot.value;
      var r := Current(c.ledger, slot);
      assert Settles(r, slot);
      var done := CompletedReceipt(r, CountsOf(outcomes), CodesOf(outcomes), revision, c.context.value.reconciled);
      assert Complete(c.ledger, slot, outcomes, revision, c.context.value.reconciled) == Replace(c.ledger, slot, done);
      RewriteKeepsAgreement(c, after, slot - 1, done);
    }
  }

  lemma SearchScales(n: int)
    ensures (n + 1) as real * SEARCH_COST == n as real * SEARCH_COST + SEARCH_COST
  {
  }

  lemma FixedPriceKeepsAgreement(c: Client, kind: Kind, cost: real, succeeds: bool)
    requires Agreement(c)
    requires (kind.Search? && cost == SEARCH_COST) || (kind.Fetch? && cost == 0.0)
    ensures Agreement(FixedPrice(c, kind, cost, succeeds))
  {
    SearchScales(c.guard.searches);
  }

  predicate EventOverflows(c: Client, e: Event) {
    e.Called? && Overflows(c, e.request, e.revision)
  }

  lemma StepKeepsAgreement(c: Client, e: Event)
    requires Agreement(c)
    ensures Agreement(Step(c, e)) <==> !EventOverflows(c, e)
  {
    match e
    case Called(q, revision, reply, later, code) => CallKeepsAgreement(c, q, revision, reply, later, code);
    case Entered(_) =>
    case ContextCompleted(outcomes, revision) => CompleteKeepsAgreement(c, outcomes, revision);
    case ContextFailed(code) =>
      if c.context.Some? && c.context.value.slot.Some? { FailKeepsAgreement(c, c.context.value.slot.value, code); }
    case Left(raised) =>
      if c.context.Some? && c.context.value.slot.Some? && raised.Some? {
        FailKeepsAgreement(c, c.context.value.slot.value, raised.value);
      }
    case Searched(succeeds) => FixedPriceKeepsAgreement(c, Search, SEARCH_COST, succeeds);
    case Fetched(succeeds) => FixedPriceKeepsAgreement(c, Fetch, 0.0, succeeds);
  }

  ghost predicate OverflowsAt(c: Client, events: seq<Event>, i: nat)
    requires i < |events|
  {
    EventOverflows(Run(c, events[..i]), events[i])
  }

  /** No call of the run overflows where it is made. */
  ghost predicate NoOverflow(c: Client, events: seq<Event>) {
    forall i :: 0 <= i < |events| ==> !OverflowsAt(c, events, i)
  }

  // ----- agreement never comes back

  /** Only the receipt in `slot` may differ. */
  ghost predicate OnlySlot(before: seq<Receipt>, after: seq<Receipt>, slot: nat) {
    |after| == |before| && forall k :: 0 <= k < |before| && k != slot - 1 ==> after[k] == before[k]
  }

  lemma FailsOnlySlot(c: Client, slot: nat, code: Code)
    ensures OnlySlot(c.ledger.receipts, FailIfOpen(c, slot, code).ledger.receipts, slot)
  {
  }

  lemma SettledOnlySlot(c: Client, slot: nat, actual: real, revision: int, code: Code)
    ensures OnlySlot(c.ledger.receipts, Settled(c, slot, actual, revision, code).0.ledger.receipts, slot)
  {
    var booked := ReconcileSlot(c.ledger, slot, actual);
    var after := Settled(c, slot, actual, revision, code).0;
    if booked.Err? {
      FailsOnlySlot(c, slot, code);
      assert after == FailIfOpen(c, slot, code);
    } else {
      var l := booked.value;
      ReconcilesOnlySlot(c.ledger, slot, actual);
      if c.context.Some? {
        assert after.ledger == l;
      } else {
        PlanningOnlySlot(c.(ledger := l), slot, actual, revision, code);
        assert after == PlanningSettled(c.(ledger := l), slot, actual, revision, code);
      }
    }
  }

  /** A planning call has no context; its receipt is completed at once. */
  function PlanningSettled(c: Client, slot: nat, actual: real, revision: int, code: Code): Client {
    var done := Complete(c.ledger, slot, [], revision, Some(actual));
    if done.Ok? then c.(ledger := done.value) else FailIfOpen(c, slot, code)
  }

  lemma PlanningOnlySlot(c: Client, slot: nat, actual: real, revision: int, code: Code)
    ensures OnlySlot(c.ledger.receipts, PlanningSettled(c, slot, actual, revision, code).ledger.receipts, slot)
  {
    FailsOnlySlot(c, slot, code);
    if Complete(c.ledger, slot, [], revision, Some(actual)).Ok? {
      CompletesOnlySlot(c.ledger, slot, revision, actual);
    }
  }

  lemma ReconcilesOnlySlot(l: Ledger, slot: nat, actual: real)
    requires ReconcileSlot(l, slot, actual).Ok?
    ensures OnlySlot(l.receipts, ReconcileSlot(l, slot, actual).value.receipts, slot)
  {
    ReplacesOnlySlot(l, slot, Current(l, slot).(reconciled := Some(actual)));
  }

  lemma ReplacesOnlySlot(l: Ledger, slot: nat, r: Receipt)
    requires Known(l, slot) && Replace(l, slot, r).Ok?
    ensures OnlySlot(l.receipts, Replace(l, slot, r).value.receipts, slot)
  {
  }

  lemma CompletesOnlySlot(l: Ledger, slot: nat, revision: int, actual: real)
    requires Complete(l, slot, [], revision, Some(actual)).Ok?
    ensures OnlySlot(l.receipts, Complete(l, slot, [], revision, Some(actual)).value.receipts, slot)
  {
    var counts, codes := CountsOf([]), CodesOf([]);
    ReplacesOnlySlot(l, slot, CompletedReceipt(Current(l, slot), counts, codes, revision, Some(actual)));
  }

  lemma AnsweredOnlySlot(c: Client, slot: nat, reply: Reply, revision: int, code: Code)
    ensures OnlySlot(c.ledger.receipts, Answered(c, slot, reply, revision, code).0.ledger.receipts, slot)
  {
    FailsOnlySlot(c, slot, code);
    if reply.Metered? && Reconcile(c.guard, c.guard.next, Price(reply.input, reply.output)).Ok? {
      var actual := Price(reply.input, reply.output);
      SettledOnlySlot(c.(guard := Reconcile(c.guard, c.guard.next, actual).value), slot, actual, revision, code);
    }
  }

  /** A call touches no receipt but its own. */
  lemma ConverseOnlyAppends(c: Client, q: Request, revision: int, reply: Reply, later: int, code: Code)
    ensures c.ledger.receipts <= Converse(c, q, revision, reply, later, code).0.ledger.receipts
  {
    var planned := Plan(c.ledger, ScopeOf(c), revision);
    if Bounded(c.guard.policy, q) && planned.Ok? && Reserve(c.guard, Inference, Estimate(q)).Ok? {
      var l, g := planned.value, Reserve(c.guard, Inference, Estimate(q)).value;
      var counted := Dispatch(l, |l.receipts|, Estimate(q)).0;
      AnsweredOnlySlot(WithSlot(c, l).(guard := g, ledger := counted), |l.receipts|, reply, later, code);
    }
  }

  /** A planned receipt stays planned: only the call that planned it could have moved it. */
  lemma PlannedStays(c: Client, e: Event, k: nat)
    requires k < |c.ledger.receipts| && c.ledger.receipts[k].state.Planned?
    ensures k < |Step(c, e).ledger.receipts| && Step(c, e).ledger.receipts[k].state.Planned?
  {
    match e
    case Called(q, revision, reply, later, code) => ConverseOnlyAppends(c, q, revision, reply, later, code);
    case Entered(_) =>
    case ContextCompleted(outcomes, revision) =>
    case ContextFailed(code) =>
    case Left(raised) =>
    case Searched(succeeds) =>
    case Fetched(succeeds) =>
  }

  /** An overflowing call leaves a receipt planned. */
  lemma OverflowLeavesPlanned(c: Client, e: Event) returns (k: nat)
    requires Agreement(c) && EventOverflows(c, e)
    ensures k < |Step(c, e).ledger.receipts| && Step(c, e).ledger.receipts[k].state.Planned?
  {
    CallMeaning(c, e.request, e.revision, e.reply, e.laterRevision, e.code);
    k := |c.ledger.receipts|;
  }

  /** Over any sequence of calls: the two ledgers agree at the end if and only if no call overflowed. */
  lemma {:induction false} RunsAgree(c: Client, events: seq<Event>)
    requires Agreement(c)
    ensures Agreement(Run(c, events)) <==> NoOverflow(c, events)
    ensures !NoOverflow(c, events) ==>
        exists k :: 0 <= k < |Run(c, events).ledger.receipts| && PlannedAt(Run(c, events), k)
  {
    if events != [] {
      var n := |events| - 1;
      var b := Run(c, events[..n]);
      RunsAgree(c, events[..n]);
      OverflowSoFar(c, events);
      if !NoOverflow(c, events[..n]) {
        var k :| 0 <= k < |b.ledger.receipts| && PlannedAt(b, k);
        PlannedStays(b, events[n], k);
        PlannedDisagrees(Step(b, events[n]), k);
      } else {
        StepKeepsAgreement(b, events[n]);
        if EventOverflows(b, events[n]) {
          var k := OverflowLeavesPlanned(b, events[n]);
          assert PlannedAt(Step(b, events[n]), k);
        }
      }
    }
  }

  ghost predicate PlannedAt(c: Client, k: nat)
    requires k < |c.ledger.receipts|
  {
    c.ledger.receipts[k].state.Planned?
  }

  lemma PlannedDisagrees(c: Client, k: nat)
    requires k < |c.ledger.receipts| && c.ledger.receipts[k].state.Planned?
    ensures PlannedAt(c, k) && !Agreement(c)
  {
    if Agreement(c) { SettlesAt(c.ledger.receipts, k); }
  }

  lemma OverflowSoFar(c: Client, events: seq<Event>)
    requires events != []
    ensures var n := |events| - 1;
            NoOverflow(c, events) <==> NoOverflow(c, events[..n]) && !EventOverflows(Run(c, events[..n]), events[n])
  {
    var front, n := events[..|events| - 1], |events| - 1;
    forall i | 0 <= i < n ensures OverflowsAt(c, front, i) <==> OverflowsAt(c, events, i) {
      assert front[..i] == events[..i] && front[i] == events[i];
    }
    if NoOverflow(c, events) {
      forall i | 0 <= i < n ensures !OverflowsAt(c, front, i) {
        assert !OverflowsAt(c, events, i);
      }
      assert !OverflowsAt(c, events, n);
    }
    if NoOverflow(c, front) {
      forall i | 0 <= i < n ensures !OverflowsAt(c, events, i) {
        assert !OverflowsAt(c, front, i);
      }
      assert OverflowsAt(c, events, n) <==> EventOverflows(Run(c, front), events[n]);
    }
  }

  lemma FreshAgrees(policy: Policy)
    requires Admitted(policy)
    ensures Agreement(Client(Fresh(policy), Ledger([], 0), None))
  {
  }

  /**
   * What agreement gives a reader of the receipts: as many dispatched receipts as the guard counted
   * calls, at most nine, numbered 1, 2, … in slot order, and every cent of model spend accounted for.
   */
  lemma ReceiptsTellTheSpend(policy: Policy, events: seq<Event>, i: nat, j: nat)
    requires Admitted(policy)
    requires NoOverflow(Client(Fresh(policy), Ledger([], 0), None), events)
    ensures var c := Run(Client(Fresh(policy), Ledger([], 0), None), events);
            var rs := c.ledger.receipts;
            && DispatchedCount(rs) == c.guard.inference <= MAX_DISPATCHED
            && Spent(rs) + c.guard.searches as real * SEARCH_COST == c.guard.reserved <= c.guard.policy.costCap
            && (i < j < |rs| && IsDispatched(rs[i].state) && IsDispatched(rs[j].state) ==>
                InOrder(rs[i], rs[j], c.guard.inference))
  {
    var start := Client(Fresh(policy), Ledger([], 0), None);
    FreshAgrees(policy);
    RunsAgree(start, events);
    var rs := Run(start, events).ledger.receipts;
    if i < j < |rs| && IsDispatched(rs[i].state) && IsDispatched(rs[j].state) {
      NumbersIncrease(rs, i, j);
    }
  }

  ghost predicate InOrder(first: Receipt, second: Receipt, calls: int) {
    first.index.Some? && second.index.Some? && 1 <= first.index.value < second.index.value <= calls
  }

  lemma NumbersIncrease(rs: seq<Receipt>, i: nat, j: nat)
    requires i < j < |rs| && NumberedAt(rs, i) && NumberedAt(rs, j) && IsDispatched(rs[i].state)
        && IsDispatched(rs[j].state)
    ensures InOrder(rs[i], rs[j], DispatchedCount(rs))
  {
    CountLast(rs[..i + 1]);
    CountLast(rs[..j + 1]);
    assert rs[..j + 1][..j] == rs[..j];
    CountGrows(rs[..j], i + 1);
    assert rs[..j][..i + 1] == rs[..i + 1];
    CountGrows(rs, j + 1);
  }

  lemma CountLast(rs: seq<Receipt>)
    requires rs != [] && IsDispatched(rs[|rs| - 1].state)
    ensures DispatchedCount(rs) == DispatchedCount(rs[..|rs| - 1]) + 1
  {
  }

  lemma {:induction false} CountGrows(rs: seq<Receipt>, k: nat)
    requires k <= |rs|
    ensures DispatchedCount(rs[..k]) <= DispatchedCount(rs)
  {
    if k < |rs| {
      assert rs[..|rs| - 1][..k] == rs[..k];
      CountGrows(rs[..|rs| - 1], k);
    } else {
      assert rs[..k] == rs;
    }
  }
}
