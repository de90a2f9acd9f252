/** The services as they run: methods that append rows to one mutable store, one transaction at a time. */
module WorkspaceService {
  import opened Wrappers
  import opened WorkspaceRecords
  import opened ApprovalRules
  import opened DraftingRules

  class Workspace {
    var approvals: seq<Approval>
    var jobs: seq<Job>
    var packs: seq<Pack>
    var opportunities: map<nat, Opportunity>
    var founders: map<nat, nat>
    var projects: map<nat, nat>
    var decisions: map<nat, nat>

    function View(): Db
      reads this
    {
      Db(approvals, jobs, packs, opportunities, founders, projects, decisions)
    }

    constructor ()
      ensures View() == Db([], [], [], map[], map[], map[], map[])
    {
      approvals, jobs, packs := [], [], [];
      opportunities, founders, projects, decisions := map[], map[], map[], map[];
    }

    /** put_approval */
    method PutApproval(a: Approval) returns (refused: Option<Error>)
      modifies this`approvals
      ensures match Put(old(approvals), a)
              case Ok(t) => refused == None && approvals == t
              case Err(e) => refused == Some(e) && approvals == old(approvals)
    {
      if a.updatedAt < a.createdAt || a.version == 0 {
        return Some(ContractViolation);
      }
      for i := 0 to |approvals|
        invariant approvals == old(approvals)
        invariant forall k :: 0 <= k < i ==> (approvals[k].id, approvals[k].version) != (a.id, a.version)
        invariant a.key.Some? ==> forall k :: 0 <= k < i ==> approvals[k].key != a.key
      {
        if (approvals[i].id, approvals[i].version) == (a.id, a.version) {
          return Some(UniqueViolation);
        }
        if a.key.Some? && approvals[i].key == a.key {
          return Some(UniqueViolation);
        }
      }
      approvals := approvals + [a];
      refused := None;
    }

    /** _inspect with persist_revocation */
    method InspectAndRevoke(svc: Service, id: nat, expected: Binding, now: int, oracle: Oracle, pendingAllowed: bool)
      returns (r: Result<Finding, Error>)
      modifies this`approvals
      ensures var f := Inspect(old(View()), svc, id, expected, now, oracle, pendingAllowed);
              match Settle(old(approvals), f, now)
              case Ok(t) => r == Ok(f) && approvals == t
              case Err(e) => r == Err(e) && approvals == old(approvals)
    {
      var f := Inspect(View(), svc, id, expected, now, oracle, pendingAllowed);
      if f.revoke.Some? && f.record.Some? {
        var refused := PutApproval(RevokedRow(f.record.value, now, f.revoke.value));
        if refused.Some? {
          return Err(refused.value);
        }
      }
      r := Ok(f);
    }

    method ValidateApproval(svc: Service, id: nat, expected: Binding, now: int, oracle: Oracle)
      returns (r: Result<Finding, Error>)
      modifies this`approvals
      ensures (View(), r) == Validate(old(View()), svc, id, expected, now, oracle)
    {
      if expected.actor != svc.actor {
        return Err(Denied(ActorMismatch));
      }
      r := InspectAndRevoke(svc, id, expected, now, oracle, false);
    }

    /** The scan of request_approval over the current rows. */
    static method FindReusable(rows: seq<Approval>, binding: Binding, mode: RuntimeMode, now: int)
      returns (best: Option<Approval>)
      ensures best.None? <==> forall a :: a in rows ==> !IsReusable(a, binding, mode, now)
      ensures best.Some? ==> best.value in rows && IsReusable(best.value, binding, mode, now)
      ensures best.Some? ==> forall a :: a in rows && IsReusable(a, binding, mode, now) ==> NoLater(best.value, a)
      ensures var found := Reusable(rows, binding, mode, now);
              best == if found == [] then None else Some(EarliestCreated(found))
    {
      best := None;
      for k := 0 to |rows|
        invariant var found := Reusable(rows[..k], binding, mode, now);
                  best == if found == [] then None else Some(EarliestCreated(found))
      {
        ReusableStep(rows, k, binding, mode, now);
        if IsReusable(rows[k], binding, mode, now) {
          EarliestStep(Reusable(rows[..k], binding, mode, now), rows[k]);
          if best.None? || !NoLater(best.value, rows[k]) {
            best := Some(rows[k]);
          }
        }
      }
      assert rows[..|rows|] == rows;
      ReusableMembers(rows, binding, mode, now);
      if best.Some? {
        EarliestIsFirst(Reusable(rows, binding, mode, now));
      }
    }

    method RequestApproval(
      svc: Service, binding: Binding, deadline: Option<Deadline>, now: int, newId: nat, oracle: Oracle)
      returns (r: Result<Approval, Error>)
      modifies this`approvals
      ensures (View(), r) == Request(old(View()), svc, binding, deadline, now, newId, oracle)
    {
      if binding.actor != svc.actor {
        return Err(Denied(ActorMismatch));
      }
      var reason := GraphReason(View(), svc, binding.snapshot, now, oracle);
      if reason.Some? {
        return Err(Denied(reason.value));
      }
      var verified := EarliestDeadline(opportunities[binding.snapshot.opportunityId].deadlines);
      if deadline.Some? && deadline.value != AtInstant(verified) {
        return Err(Denied(DeadlineMismatch));
      }
      var best := FindReusable(ListCurrent(approvals), binding, svc.mode, now);
      if best.Some? {
        return Ok(best.value);
      }
      var a := NewApproval(binding, svc.mode, now, verified, newId);
      var refused := PutApproval(a);
      if refused.Some? {
        return Err(refused.value);
      }
      r := Ok(a);
    }

    method ConfirmApproval(svc: Service, id: nat, raw: string, now: int, expected: Binding, oracle: Oracle)
      returns (r: Result<Approval, Error>)
      modifies this`approvals
      ensures (View(), r) == Confirm(old(View()), svc, id, raw, now, expected, oracle)
    {
      if expected.actor != svc.actor {
        return Err(Denied(ActorMismatch));
      }
      var receipt := Receipt(approvals, svc, id, ConfirmKey(raw), expected);
      if receipt.Err? {
        return Err(receipt.error);
      }
      if receipt.value.Some? {
        return Ok(receipt.value.value);
      }
      var result := InspectAndRevoke(svc, id, expected, now, oracle, true);
      if result.Err? {
        return Err(result.error);
      }
      var f := result.value;
      if f.actionable {
        if !f.record.value.state.Pending? {
          return Err(Denied(IdempotencyConflict));
        }
        var a := ConfirmedRow(f.record.value, now, ConfirmKey(raw));
        var refused := PutApproval(a);
        if refused.Some? {
          return Err(refused.value);
        }
        return Ok(a);
      }
      r := Err(Denied(f.reason));
    }

    /** The caller owns the transaction and undoes every write when this is refused. */
    method ConsumeInTransaction(svc: Service, id: nat, raw: string, now: int, expected: Binding, oracle: Oracle)
      returns (r: Result<(Approval, bool), Error>)
      modifies this`approvals
      ensures match Consume(old(View()), svc, id, raw, now, expected, oracle)
              case Ok(c) => r == Ok((c.record, c.replayed)) && approvals == c.approvals
              case Err(e) => r == Err(e)
    {
      if expected.actor != svc.actor {
        return Err(Denied(ActorMismatch));
      }
      var receipt := Receipt(approvals, svc, id, ConsumeKey(raw), expected);
      if receipt.Err? {
        return Err(receipt.error);
      }
      if receipt.value.Some? {
        return Ok((receipt.value.value, true));
      }
      var result := InspectAndRevoke(svc, id, expected, now, oracle, false);
      if result.Err? {
        return Err(result.error);
      }
      var f := result.value;
      if !f.actionable {
        return Err(Denied(f.reason));
      }
      var a := ConsumedRow(f.record.value, now, ConsumeKey(raw));
      var refused := PutApproval(a);
      if refused.Some? {
        return Err(refused.value);
      }
      r := Ok((a, false));
    }

    method RevokeInvalidApprovals(svc: Service, scope: Change, now: int) returns (r: Result<seq<Approval>, Error>)
      modifies this`approvals
      ensures (View(), r) == RevokeInvalid(old(View()), svc, scope, now)
    {
      if EmptyScope(scope) {
        return Err(ContractViolation);
      }
      var before := approvals;
      var rows := ListCurrent(approvals);
      var revoked: seq<Approval> := [];
      for k := 0 to |rows|
        invariant before <= approvals && revoked == approvals[|before|..]
        invariant RevokeRows(before, rows, svc, scope, now) == RevokeRows(approvals, rows[k..], svc, scope, now)
      {
        assert rows[k..][0] == rows[k] && rows[k..][1..] == rows[k + 1..];
        if InScope(svc, scope, rows[k]) {
          var a := RevokedRow(rows[k], now, ChangeRevoked);
          var refused := PutApproval(a);
          if refused.Some? {
            approvals := before;
            return Err(refused.value);
          }
          revoked := revoked + [a];
        }
      }
      r := Ok(revoked);
    }

    /** put_draft_job */
    method PutDraftJob(j: Job) returns (refused: Option<Error>)
      modifies this`jobs
      ensures match PutJob(old(View()), j)
              case Ok(after) => refused == None && View() == after
              case Err(e) => refused == Some(e) && View() == old(View())
    {
      if j.updatedAt < j.createdAt || j.version == 0 {
        return Some(ContractViolation);
      }
      if !JobUnique(jobs, j) {
        return Some(UniqueViolation);
      }
      if !HasApproval(approvals, j.approvalId, j.approvalVersion) {
        return Some(MissingReference);
      }
      jobs := jobs + [j];
      refused := None;
    }

    /** put_draft_pack */
    method PutDraftPack(p: Pack) returns (refused: Option<Error>)
      modifies this`packs
      ensures match PutPack(old(View()), p)
              case Ok(after) => refused == None && View() == after
              case Err(e) => refused == Some(e) && View() == old(View())
    {
      if !PackGraph(View(), p) {
        return Some(MissingReference);
      }
      if !PackUnique(packs, p) {
        return Some(UniqueViolation);
      }
      packs := packs + [p];
      refused := None;
    }

    /** Transaction A of start_draft_job: every refusal undoes the consumption. */
    method StartDraftJob(
      svc: Service, id: nat, raw: string, now: int, oracle: Oracle, inputs: Result<Inputs, DraftReason>, jobId: nat)
      returns (r: Result<Started, Error>)
      modifies this`approvals, this`jobs
      ensures (View(), r) == Start(old(View()), svc, id, raw, now, oracle, inputs, jobId)
    {
      var before := approvals;
      var approved := Latest(approvals, id);
      if approved.None? {
        return Err(Denied(NotFound));
      }
      var receipt := ConsumeInTransaction(svc, id, raw, now, approved.value.binding, oracle);
      if receipt.Err? {
        approvals := before;
        return Err(RenamedError(receipt.error));
      }
      var (record, replayed) := receipt.value;
      if replayed {
        var existing := Existing(View(), record, raw);
        if existing.Err? {
          return Err(existing.error);
        }
        return Ok(Replayed(existing.value));
      }
      if inputs.Err? {
        approvals := before;
        return Err(DraftDenied(inputs.error));
      }
      var job := StartedJob(record, svc.mode, raw, now, jobId, inputs.value);
      var refused := PutDraftJob(job);
      if refused.Some? {
        approvals := before;
        return Err(refused.value);
      }
      r := Ok(StartedFlight(Flight(job, record, raw, now)));
    }

    /** _failed */
    method FailJob(f: Flight, failure: JobFailure) returns (r: Result<DraftResult, Error>)
      modifies this`jobs
      ensures (View(), r) == RecordFailure(old(View()), f, failure)
    {
      var failed := Terminal(f.job, f.raw, f.now, Failed, Some(failure));
      var refused := PutDraftJob(failed);
      if refused.Some? {
        return Err(refused.value);
      }
      r := Ok(DraftResult(failed, None, false));
    }

    /** The rest of start_draft_job: transaction B stores the outcome and the pack together or not at all. */
    method FinishDraftJob(f: Flight, outcome: Authoring) returns (r: Result<DraftResult, Error>)
      modifies this`jobs, this`packs
      ensures (View(), r) == Finish(old(View()), f, outcome)
    {
      match outcome
      case AuthorRaises => r := FailJob(f, AuthorFailed);
      case PackRefused => r := FailJob(f, PackPersistenceFailed);
      case Authored(packId) =>
        var before := jobs;
        var completed := Terminal(f.job, f.raw, f.now, Completed, None);
        var pack := CompletedPack(f.receipt, f.job, f.raw, f.now, packId);
        var refused := PutDraftJob(completed);
        if refused.None? {
          refused := PutDraftPack(pack);
          if refused.Some? {
            jobs := before;
          }
        }
        if refused.Some? {
          r := FailJob(f, PackPersistenceFailed);
        } else {
          r := Ok(DraftResult(completed, Some(pack), false));
        }
    }
  }
}
