/** src/qualor/workspace/approval.py over the append-only approval table. */
module ApprovalRules {
  import opened Wrappers
  import opened WorkspaceRecords

  // ----- the table (src/qualor/persistence/repositories.py)

  /** The row of `id` with the greatest version. */
  function Latest(t: seq<Approval>, id: nat): Option<Approval> {
    if t == [] then None
    else
      var rest := Latest(t[..|t| - 1], id);
      var last := t[|t| - 1];
      if last.id == id && (rest.None? || rest.value.version < last.version) then Some(last) else rest
  }

  /** The row that carries the receipt key. */
  function FindReceipt(t: seq<Approval>, key: ReceiptKey): (r: Option<Approval>)
    ensures r.Some? ==> r.value in t && r.value.key == Some(key)
    ensures r.None? ==> forall a :: a in t ==> a.key != Some(key)
  {
    if t == [] then None
    else if t[|t| - 1].key == Some(key) then Some(t[|t| - 1])
    else FindReceipt(t[..|t| - 1], key)
  }

  function IdBound(t: seq<Approval>): (n: nat)
    ensures forall a :: a in t ==> a.id < n
  {
    if t == [] then 0
    else
      var rest := IdBound(t[..|t| - 1]);
      var last := t[|t| - 1].id;
      assert t == t[..|t| - 1] + [t[|t| - 1]];
      if last < rest then rest else last + 1
  }

  /** The latest rows of all approvals below `n`, in the order of their identifiers. */
  function CurrentBelow(t: seq<Approval>, n: nat): seq<Approval> {
    if n == 0 then []
    else CurrentBelow(t, n - 1) + match Latest(t, n - 1) case Some(a) => [a] case None => []
  }

  function ListCurrent(t: seq<Approval>): seq<Approval> { CurrentBelow(t, IdBound(t)) }

  predicate KeyFree(t: seq<Approval>, a: Approval) {
    && (forall i :: 0 <= i < |t| ==> (t[i].id, t[i].version) != (a.id, a.version))
    && (a.key.Some? ==> forall i :: 0 <= i < |t| ==> t[i].key != a.key)
  }

  /** An insert: the record contract first, then the primary key and the unique receipt key. */
  function Put(t: seq<Approval>, a: Approval): Result<seq<Approval>, Error> {
    if a.updatedAt < a.createdAt || a.version == 0 then Err(ContractViolation)
    else if !KeyFree(t, a) then Err(UniqueViolation)
    else Ok(t + [a])
  }

  // ----- bindings and the decision graph

  function BindingReason(actual: Binding, expected: Binding): Option<Reason> {
    var a, e := actual.snapshot, expected.snapshot;
    if actual.actor != expected.actor then Some(ActorMismatch)
    else if a.opportunityId != e.opportunityId || a.founderId != e.founderId || a.projectId != e.projectId
            || a.decisionId != e.decisionId then Some(IdentityMismatch)
    else if a.policy != e.policy then Some(PolicyMismatch)
    else if actual != expected then Some(VersionMismatch)
    else None
  }

  predicate Present(db: Db, s: Snapshot) {
    && s.opportunityId in db.opportunities
    && s.founderId in db.founders
    && s.projectId in db.projects
    && s.decisionId in db.decisions
  }

  /** Every version the snapshot names is the latest stored one. */
  predicate UpToDate(db: Db, s: Snapshot) {
    && Present(db, s)
    && db.opportunities[s.opportunityId].version == s.opportunityVersion
    && db.opportunities[s.opportunityId].hash == s.opportunityHash
    && db.founders[s.founderId] == s.founderVersion
    && db.projects[s.projectId] == s.projectVersion
    && db.decisions[s.decisionId] == s.decisionVersion
  }

  predicate DeadlineUncertain(deadlines: seq<Deadline>) {
    deadlines == [] || exists d :: d in deadlines && d.OnDate?
  }

  /** The earliest of several exact deadlines. */
  function EarliestDeadline(deadlines: seq<Deadline>): (r: int)
    requires !DeadlineUncertain(deadlines)
    ensures AtInstant(r) in deadlines
    ensures forall d :: d in deadlines ==> r <= d.at
  {
    assert deadlines[0] in deadlines;
    if |deadlines| == 1 then deadlines[0].at
    else
      assert deadlines == [deadlines[0]] + deadlines[1..];
      var rest := deadlines[1..];
      assert rest[0] in rest;
      var tail := EarliestDeadline(rest);
      if deadlines[0].at <= tail then deadlines[0].at else tail
  }

  /** Why the bound decision cannot be acted on now, if there is a reason. */
  function GraphReason(db: Db, svc: Service, s: Snapshot, now: int, oracle: Oracle): Option<Reason> {
    if s.policy != svc.policy then Some(PolicyMismatch)
    else if !Present(db, s) then Some(GraphMismatch)
    else if !UpToDate(db, s) then Some(VersionMismatch)
    else if oracle.graph.Some? then oracle.graph
    else
      var deadlines := db.opportunities[s.opportunityId].deadlines;
      if DeadlineUncertain(deadlines) then Some(DeadlineUnknown)
      else if EarliestDeadline(deadlines) <= now then Some(DeadlinePassed)
      else oracle.evidence
  }

  function Expiry(now: int, deadline: int): int {
    if now + DAY <= deadline then now + DAY else deadline
  }

  // ----- transitions of one approval

  function ConfirmedRow(a: Approval, now: int, key: ReceiptKey): Approval {
    a.(version := a.version + 1, updatedAt := now, state := Approved, key := Some(key))
  }

  function ConsumedRow(a: Approval, now: int, key: ReceiptKey): Approval {
    a.(version := a.version + 1, updatedAt := now, consumedAt := Some(now), key := Some(key))
  }

  function RevokedRow(a: Approval, now: int, reason: Reason): Approval {
    a.(version := a.version + 1, updatedAt := now, state := Revoked, key := None, revocation := Some(reason))
  }

  // ----- inspection

  /** The finding on an approval, and the revocation it calls for. */
  datatype Finding = Finding(actionable: bool, reason: Reason, record: Option<Approval>, revoke: Option<Reason>)

  predicate Revoking(r: Reason) {
    r.VersionMismatch? || r.PolicyMismatch? || r.GraphMismatch? || r.EvidenceChanged?
  }

  function Inspect(
    db: Db, svc: Service, id: nat, expected: Binding, now: int, oracle: Oracle, pendingAllowed: bool): Finding
  {
    match Latest(db.approvals, id)
    case None => Finding(false, NotFound, None, None)
    case Some(a) =>
      var bound := BindingReason(a.binding, expected);
      if bound.Some? then Finding(false, bound.value, Some(a), None)
      else if a.mode != svc.mode then Finding(false, ModeMismatch, Some(a), None)
      else if now < a.updatedAt then Finding(false, TimeInvalid, Some(a), None)
      else if a.state.Revoked? then
        Finding(false, if a.revocation == Some(Expired) then Expired else AlreadyRevoked, Some(a), None)
      else if now >= a.expiresAt then Finding(false, Expired, Some(a), Some(Expired))
      else if a.consumedAt.Some? then Finding(false, AlreadyConsumed, Some(a), None)
      else
        match GraphReason(db, svc, a.binding.snapshot, now, oracle)
        case Some(r) => Finding(false, r, Some(a), if Revoking(r) then Some(r) else None)
        case None =>
          if a.state.Pending? && pendingAllowed then Finding(true, Valid, Some(a), None)
          else if !a.state.Approved? then Finding(false, StillPending, Some(a), None)
          else Finding(true, Valid, Some(a), None)
  }

  /** Writes the revocation a finding calls for. */
  function Settle(t: seq<Approval>, f: Finding, now: int): Result<seq<Approval>, Error> {
    if f.revoke.Some? && f.record.Some? then Put(t, RevokedRow(f.record.value, now, f.revoke.value)) else Ok(t)
  }

  // ----- operations: the new tables and the answer

  function Validate(db: Db, svc: Service, id: nat, expected: Binding, now: int, oracle: Oracle)
    : (Db, Result<Finding, Error>)
  {
    if expected.actor != svc.actor then (db, Err(Denied(ActorMismatch)))
    else
      var f := Inspect(db, svc, id, expected, now, oracle, false);
      match Settle(db.approvals, f, now)
      case Err(e) => (db, Err(e))
      case Ok(t) => (db.(approvals := t), Ok(f))
  }

  predicate IsReusable(a: Approval, b: Binding, mode: RuntimeMode, now: int) {
    && a.binding == b && a.mode == mode
    && (a.consumedAt.Some? || (!a.state.Revoked? && now < a.expiresAt))
  }

  function Reusable(rows: seq<Approval>, b: Binding, mode: RuntimeMode, now: int): seq<Approval> {
    if rows == [] then []
    else
      var n := |rows| - 1;
      Reusable(rows[..n], b, mode, now) + if IsReusable(rows[n], b, mode, now) then [rows[n]] else []
  }

  predicate NoLater(a: Approval, b: Approval) {
    a.createdAt < b.createdAt || (a.createdAt == b.createdAt && a.id <= b.id)
  }

  /** The first by creation instant and identifier. */
  function EarliestCreated(rows: seq<Approval>): Approval
    requires rows != []
  {
    var n := |rows| - 1;
    if n == 0 then rows[0]
    else
      var best := EarliestCreated(rows[..n]);
      if NoLater(best, rows[n]) then best else rows[n]
  }

  lemma {:induction false} ReusableMembers(rows: seq<Approval>, b: Binding, mode: RuntimeMode, now: int)
    ensures forall a :: a in Reusable(rows, b, mode, now) <==> a in rows && IsReusable(a, b, mode, now)
  {
    if rows != [] {
      var n := |rows| - 1;
      ReusableMembers(rows[..n], b, mode, now);
      assert rows == rows[..n] + [rows[n]];
    }
  }

  /** The chosen row is one of the rows and none was created before it. */
  lemma {:induction false} EarliestIsFirst(rows: seq<Approval>)
    requires rows != []
    ensures EarliestCreated(rows) in rows
    ensures forall a :: a in rows ==> NoLater(EarliestCreated(rows), a)
  {
    var n := |rows| - 1;
    assert rows == rows[..n] + [rows[n]];
    if n > 0 {
      EarliestIsFirst(rows[..n]);
    }
  }

  lemma EarliestStep(found: seq<Approval>, a: Approval)
    ensures EarliestCreated(found + [a]) ==
            if found == [] || !NoLater(EarliestCreated(found), a) then a else EarliestCreated(found)
  {
    assert (found + [a])[..|found|] == found;
  }

  lemma ReusableStep(rows: seq<Approval>, k: nat, b: Binding, mode: RuntimeMode, now: int)
    requires k < |rows|
    ensures Reusable(rows[..k + 1], b, mode, now) ==
            if IsReusable(rows[k], b, mode, now) then Reusable(rows[..k], b, mode, now) + [rows[k]]
            else Reusable(rows[..k], b, mode, now)
  {
    assert rows[..k + 1][..k] == rows[..k];
  }

  function NewApproval(b: Binding, mode: RuntimeMode, now: int, deadline: int, id: nat): Approval {
    Approval(id, 1, now, now, b, mode, Pending, Expiry(now, deadline), None, None, None)
  }

  function Request(
    db: Db, svc: Service, b: Binding, deadline: Option<Deadline>, now: int, newId: nat, oracle: Oracle)
    : (Db, Result<Approval, Error>)
  {
    if b.actor != svc.actor then (db, Err(Denied(ActorMismatch)))
    else
      var reason := GraphReason(db, svc, b.snapshot, now, oracle);
      if reason.Some? then (db, Err(Denied(reason.value)))
      else
        var verified := EarliestDeadline(db.opportunities[b.snapshot.opportunityId].deadlines);
        if deadline.Some? && deadline.value != AtInstant(verified) then (db, Err(Denied(DeadlineMismatch)))
        else
          var reusable := Reusable(ListCurrent(db.approvals), b, svc.mode, now);
          if reusable != [] then (db, Ok(EarliestCreated(reusable)))
          else
            var a := NewApproval(b, svc.mode, now, verified, newId);
            match Put(db.approvals, a)
            case Err(e) => (db, Err(e))
            case Ok(t) => (db.(approvals := t), Ok(a))
  }

  /** The receipt of an earlier call with this key, or the conflict of a retargeted key. */
  function Receipt(t: seq<Approval>, svc: Service, id: nat, key: ReceiptKey, expected: Binding)
    : Result<Option<Approval>, Error>
  {
    var r := FindReceipt(t, key);
    if r.Some? && (r.value.id != id || r.value.binding != expected || r.value.mode != svc.mode)
    then Err(Denied(IdempotencyConflict))
    else Ok(r)
  }

  function Confirm(
    db: Db, svc: Service, id: nat, raw: string, now: int, expected: Binding, oracle: Oracle)
    : (Db, Result<Approval, Error>)
  {
    if expected.actor != svc.actor then (db, Err(Denied(ActorMismatch)))
    else
      match Receipt(db.approvals, svc, id, ConfirmKey(raw), expected)
      case Err(e) => (db, Err(e))
      case Ok(Some(a)) => (db, Ok(a))
      case Ok(None) =>
        var f := Inspect(db, svc, id, expected, now, oracle, true);
        match Settle(db.approvals, f, now)
        case Err(e) => (db, Err(e))
        case Ok(settled) =>
          if !f.actionable then (db.(approvals := settled), Err(Denied(f.reason)))
          else if !f.record.value.state.Pending? then (db.(approvals := settled), Err(Denied(IdempotencyConflict)))
          else
            var a := ConfirmedRow(f.record.value, now, ConfirmKey(raw));
            match Put(settled, a)
            case Err(e) => (db, Err(e))
            case Ok(t) => (db.(approvals := t), Ok(a))
  }

  /** A consumption; an error aborts the caller's transaction with everything in it. */
  datatype Consumption = Consumption(record: Approval, replayed: bool, approvals: seq<Approval>)

  function Consume(
    db: Db, svc: Service, id: nat, raw: string, now: int, expected: Binding, oracle: Oracle)
    : Result<Consumption, Error>
  {
    if expected.actor != svc.actor then Err(Denied(ActorMismatch))
    else
      match Receipt(db.approvals, svc, id, ConsumeKey(raw), expected)
      case Err(e) => Err(e)
      case Ok(Some(a)) => Ok(Consumption(a, true, db.approvals))
      case Ok(None) =>
        var f := Inspect(db, svc, id, expected, now, oracle, false);
        match Settle(db.approvals, f, now)
        case Err(e) => Err(e)
        case Ok(settled) =>
          if !f.actionable then Err(Denied(f.reason))
          else
            var a := ConsumedRow(f.record.value, now, ConsumeKey(raw));
            match Put(settled, a)
            case Err(e) => Err(e)
            case Ok(t) => Ok(Consumption(a, false, t))
  }

  predicate Scoped(scope: Change, a: Approval) {
    var s := a.binding.snapshot;
    || scope.opportunityId == Some(s.opportunityId)
    || scope.founderId == Some(s.founderId)
    || scope.projectId == Some(s.projectId)
    || scope.decisionId == Some(s.decisionId)
    || (scope.policy.Some? && s.policy != scope.policy.value)
  }

  predicate InScope(svc: Service, scope: Change, a: Approval) {
    a.binding.actor == svc.actor && !a.state.Revoked? && Scoped(scope, a)
  }

  predicate EmptyScope(scope: Change) {
    scope.opportunityId.None? && scope.founderId.None? && scope.projectId.None? && scope.decisionId.None?
    && scope.policy.None?
  }

  /** Appends the revocation of every row in scope. */
  function RevokeRows(t: seq<Approval>, rows: seq<Approval>, svc: Service, scope: Change, now: int)
    : (r: Result<seq<Approval>, Error>)
    ensures r.Ok? ==> t <= r.value
    decreases rows
  {
    if rows == [] then Ok(t)
    else if !InScope(svc, scope, rows[0]) then RevokeRows(t, rows[1..], svc, scope, now)
    else
      match Put(t, RevokedRow(rows[0], now, ChangeRevoked))
      case Err(e) => Err(e)
      case Ok(t') => RevokeRows(t', rows[1..], svc, scope, now)
  }

  function RevokeInvalid(db: Db, svc: Service, scope: Change, now: int): (Db, Result<seq<Approval>, Error>) {
    if EmptyScope(scope) then (db, Err(ContractViolation))
    else
      match RevokeRows(db.approvals, ListCurrent(db.approvals), svc, scope, now)
      case Err(e) => (db, Err(e))
      case Ok(t) => (db.(approvals := t), Ok(t[|db.approvals|..]))
  }
}
