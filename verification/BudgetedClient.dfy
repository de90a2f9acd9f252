/** src/qualor/runtime/agent.py: the client object, its budget guard and its receipt ledger changing in sequence. */
module BudgetedClient {
  import opened Wrappers
  import opened LiveBudget
  import opened ModelReceipts
  import opened BudgetedCalls

  class BudgetedBedrockClient {
    const budget: LiveBudgetGuard
    const receiptLedger: ReceiptLedger
    var context: Option<Context>

    ghost predicate Valid()
      reads this, budget
    {
      budget.Valid()
    }

    function View(): Client
      reads this, budget, receiptLedger
      requires budget.Valid()
    {
      Client(budget.View(), receiptLedger.View(), context)
    }

    constructor (budget: LiveBudgetGuard, receiptLedger: ReceiptLedger)
      requires budget.Valid()
      ensures Valid() && this.budget == budget && this.receiptLedger == receiptLedger
      ensures View() == Client(budget.View(), receiptLedger.View(), None)
    {
      this.budget, this.receiptLedger, context := budget, receiptLedger, None;
    }

    method FailWhenDispatched(slot: nat, code: Code)
      requires Valid()
      modifies receiptLedger
      ensures Valid() && View() == FailIfOpen(old(View()), slot, code)
    {
      if Known(receiptLedger.View(), slot) && receiptLedger.receipts[slot - 1].state.Dispatched? {
        var _ := receiptLedger.FailReceipt(slot, code, false);
      }
    }

    /** The part after the provider answered with verified usage: budget first, then the receipt. */
    method Settle(slot: nat, actual: real, laterRevision: int, code: Code) returns (outcome: CallOutcome)
      requires Valid()
      modifies this, budget, receiptLedger
      ensures Valid() && (View(), outcome) == Settled(old(View()), slot, actual, laterRevision, code)
    {
      var refused := receiptLedger.ReconcileReceipt(slot, actual);
      if refused.Some? {
        FailWhenDispatched(slot, code);
        return CallFailed;
      }
      if context.Some? {
        context := Some(context.value.(reconciled := Some(actual)));
        return Returned;
      }
      refused := receiptLedger.CompleteReceipt(slot, [], laterRevision, Some(actual));
      if refused.Some? {
        FailWhenDispatched(slot, code);
        return CallFailed;
      }
      return Returned;
    }

    method Answer(slot: nat, reply: Reply, laterRevision: int, code: Code) returns (outcome: CallOutcome)
      requires Valid()
      modifies this, budget, receiptLedger
      ensures Valid() && (View(), outcome) == Answered(old(View()), slot, reply, laterRevision, code)
    {
      if !reply.Metered? {
        FailWhenDispatched(slot, code);
        return CallFailed;
      }
      var actual := Price(reply.input, reply.output);
      var refused := budget.ReconcileCost(budget.nextReceipt, actual);
      if refused {
        FailWhenDispatched(slot, code);
        return CallFailed;
      }
      outcome := Settle(slot, actual, laterRevision, code);
    }

    method ConverseOnce(q: Request, revision: int, reply: Reply, laterRevision: int, code: Code)
      returns (outcome: CallOutcome)
      requires Valid()
      modifies this, budget, receiptLedger
      ensures Valid() && (View(), outcome) == Converse(old(View()), q, revision, reply, laterRevision, code)
    {
      if !Bounded(budget.policy, q) { return Refused; }
      var cost := Estimate(q);
      var planned := receiptLedger.PlanSlot(ScopeOf(View()), revision);
      if planned.Err? { return Refused; }
      var slot := planned.value;
      if context.Some? {
        context := Some(context.value.(slot := Some(slot)));
      }
      var reserved := budget.ReserveCost(Inference, cost);
      if reserved.Err? {
        var _ := receiptLedger.FailReceipt(slot, BudgetExhausted, true);
        return Blocked;
      }
      outcome := DispatchAndAnswer(slot, cost, reply, laterRevision, code);
    }

    method DispatchAndAnswer(slot: nat, cost: real, reply: Reply, laterRevision: int, code: Code)
      returns (outcome: CallOutcome)
      requires Valid()
      modifies this, budget, receiptLedger
      ensures Valid() && (View(), outcome) == SentCall(old(View()), slot, cost, reply, laterRevision, code)
    {
      var broken := receiptLedger.DispatchSlot(slot, cost);
      if broken.Some? { return Broken; }
      outcome := Answer(slot, reply, laterRevision, code);
    }

    method Enter(scope: Scope) returns (nested: bool)
      requires Valid()
      modifies this
      ensures Valid() && View() == EnterContext(old(View()), scope) && nested == old(context).Some?
    {
      if context.Some? { return true; }
      context := Some(Context(scope, None, None, false));
      return false;
    }

    method CompleteInContext(outcomes: seq<Outcome>, revision: int) returns (done: bool)
      requires Valid()
      modifies this, receiptLedger
      ensures Valid() && View() == CompleteContext(old(View()), outcomes, revision)
      ensures done ==> View() != old(View())
    {
      if context.None? || context.value.slot.None? || context.value.completed { return false; }
      var slot := context.value.slot.value;
      if !Known(receiptLedger.View(), slot) || !receiptLedger.receipts[slot - 1].state.Dispatched? { return false; }
      var refused := receiptLedger.CompleteReceipt(slot, outcomes, revision, context.value.reconciled);
      if refused.Some? { return false; }
      context := Some(context.value.(completed := true));
      return true;
    }

    method FailInContext(code: Code)
      requires Valid()
      modifies this, receiptLedger
      ensures Valid() && View() == FailContext(old(View()), code)
    {
      if context.None? || context.value.slot.None? || context.value.completed { return; }
      FailWhenDispatched(context.value.slot.value, code);
      context := Some(context.value.(completed := true));
    }

    method Exit(raised: Option<Code>)
      requires Valid()
      modifies this, receiptLedger
      ensures Valid() && View() == ExitContext(old(View()), raised)
    {
      if context.None? { return; }
      if raised.Some? && context.value.slot.Some? && !context.value.completed {
        FailWhenDispatched(context.value.slot.value, raised.value);
      }
      context := None;
    }

    /** A search or a fetch on the shared budget. */
    method ReserveFixedPrice(kind: Kind, cost: real, succeeds: bool) returns (refused: bool)
      requires Valid()
      modifies budget
      ensures Valid() && View() == FixedPrice(old(View()), kind, cost, succeeds)
      ensures refused == Reserve(old(budget.View()), kind, cost).Err?
    {
      var reserved := budget.ReserveCost(kind, cost);
      if reserved.Err? { return true; }
      if succeeds {
        var _ := budget.CommitCost(reserved.value);
      }
      return false;
    }
  }
}
