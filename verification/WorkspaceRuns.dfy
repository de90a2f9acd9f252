/** Every interleaving of the approval and drafting operations, crashes and version changes. */
module WorkspaceRuns {
  import opened Wrappers
  import opened WorkspaceRecords
  import opened ApprovalRules
  import opened ApprovalHistory
  import opened ApprovalSteps
  import opened DraftingRules
  import opened DraftingHistory

  /** One atomic step: a transaction, the end of an authoring call, or a new version of an input. */
  datatype Event =
    | RequestCall(svc: Service, binding: Binding, deadline: Option<Deadline>, now: int, newId: nat, oracle: Oracle)
    | ConfirmCall(svc: Service, id: nat, raw: string, now: int, binding: Binding, oracle: Oracle)
    | ValidateCall(svc: Service, id: nat, now: int, binding: Binding, oracle: Oracle)
    | StartCall(svc: Service, id: nat, raw: string, now: int, oracle: Oracle,
                inputs: Result<Inputs, DraftReason>, jobId: nat)
    | RevokeCall(svc: Service, scope: Change, now: int)
    | FinishCall(flight: nat, outcome: Authoring)
    | Crash(flight: nat)
    | OpportunityVersion(id: nat, hash: nat, deadlines: seq<Deadline>)
    | FounderVersion(id: nat, version: nat)
    | ProjectVersion(id: nat, version: nat)
    | DecisionVersion(id: nat, version: nat)

  /** The tables, the authoring calls in progress, and the latest instant any step has seen. */
  datatype World = World(db: Db, flights: seq<Flight>, clock: int)

  function Instant(e: Event): Option<int> {
    match e
    case RequestCall(_, _, _, now, _, _) => Some(now)
    case ConfirmCall(_, _, _, now, _, _) => Some(now)
    case ValidateCall(_, _, now, _, _) => Some(now)
    case StartCall(_, _, _, now, _, _, _) => Some(now)
    case RevokeCall(_, _, now) => Some(now)
    case _ => None
  }

  function Raised(m: map<nat, nat>, id: nat, version: nat): map<nat, nat> {
    if id in m && version <= m[id] then m else m[id := version]
  }

  function StepDb(w: World, e: Event): Db {
    match e
    case RequestCall(svc, b, deadline, now, newId, oracle) => Request(w.db, svc, b, deadline, now, newId, oracle).0
    case ConfirmCall(svc, id, raw, now, b, oracle) => Confirm(w.db, svc, id, raw, now, b, oracle).0
    case ValidateCall(svc, id, now, b, oracle) => Validate(w.db, svc, id, b, now, oracle).0
    case StartCall(svc, id, raw, now, oracle, inputs, jobId) => Start(w.db, svc, id, raw, now, oracle, inputs, jobId).0
    case RevokeCall(svc, scope, now) => RevokeInvalid(w.db, svc, scope, now).0
    case FinishCall(k, outcome) => if k < |w.flights| then Finish(w.db, w.flights[k], outcome).0 else w.db
    case Crash(_) => w.db
    case OpportunityVersion(id, hash, deadlines) =>
      var version := if id in w.db.opportunities then w.db.opportunities[id].version + 1 else 1;
      w.db.(opportunities := w.db.opportunities[id := Opportunity(version, hash, deadlines)])
    case FounderVersion(id, version) => w.db.(founders := Raised(w.db.founders, id, version))
    case ProjectVersion(id, version) => w.db.(projects := Raised(w.db.projects, id, version))
    case DecisionVersion(id, version) => w.db.(decisions := Raised(w.db.decisions, id, version))
  }

  function StepFlights(w: World, e: Event): seq<Flight> {
    match e
    case StartCall(svc, id, raw, now, oracle, inputs, jobId) =>
      (match Start(w.db, svc, id, raw, now, oracle, inputs, jobId).1
       case Ok(StartedFlight(f)) => w.flights + [f]
       case _ => w.flights)
    case FinishCall(k, _) => if k < |w.flights| then Without(w.flights, k) else w.flights
    case Crash(k) => if k < |w.flights| then Without(w.flights, k) else w.flights
    case _ => w.flights
  }

  function Step(w: World, e: Event): World {
    World(StepDb(w, e), StepFlights(w, e), match Instant(e) case Some(now) => now case None => w.clock)
  }

  ghost predicate WorldInv(w: World) { TableInv(w.db.approvals) && DraftInv(w.db, w.flights) }

  ghost predicate Timely(w: World, e: Event) { Instant(e).Some? ==> w.clock <= Instant(e).value }

  // ----- single steps

  /** A request under an identifier that is taken writes nothing. */
  lemma RequestUnderTakenId(
    db: Db, svc: Service, b: Binding, deadline: Option<Deadline>, now: int, newId: nat, oracle: Oracle)
    requires TableInv(db.approvals) && History(db.approvals, newId) != []
    ensures Request(db, svc, b, deadline, now, newId, oracle).0 == db
  {
    var h := History(db.approvals, newId);
    HistoryMembers(db.approvals, newId);
    assert h[0] in h;
    LegalAt(h, 0);
    var i :| 0 <= i < |db.approvals| && db.approvals[i] == h[0];
  }

  ghost predicate StartOutcome(
    db: Db, flights: seq<Flight>, id: nat, now: int, jobId: nat, db': Db, r: Result<Started, Error>)
  {
    && (r.Err? ==> db' == db)
    && (r.Err? ==> r.error.Denied? || r.error.DraftDenied? || r.error.UniqueViolation?)
    && (r.Err? && r.error.UniqueViolation? ==>
          exists i :: 0 <= i < |db.jobs| && db.jobs[i].id == jobId && db.jobs[i].version == 1)
    && (r.Ok? && r.value.Replayed? ==> db' == db)
    && (r.Ok? && r.value.StartedFlight? ==> LaunchOutcome(db, flights, id, now, db', r.value.flight))
  }

  ghost predicate LaunchOutcome(db: Db, flights: seq<Flight>, id: nat, now: int, db': Db, f: Flight) {
    && FreshStart(db, flights, f.receipt, f.job) && f.receipt.id == id
    && f == Flight(f.job, f.receipt, f.receipt.key.value.raw, f.receipt.updatedAt)
    && ConsumeStep(LastOf(History(db.approvals, id)).value, f.receipt) && f.receipt.updatedAt == now
    && UpToDate(db, f.receipt.binding.snapshot)
    && db' == AfterStart(db, f.receipt, f.job)
    && TableInv(db'.approvals) && Advances(db.approvals, db'.approvals, now)
    && DraftInv(db', flights + [f])
  }

  lemma LaunchMeaning(
    db: Db, flights: seq<Flight>, id: nat, c: Consumption, raw: string, now: int,
    inputs: Result<Inputs, DraftReason>, jobId: nat)
    requires TableInv(db.approvals) && DraftInv(db, flights) && !c.replayed && c.record.id == id
    requires c.record.key == Some(ConsumeKey(raw)) && c.approvals == db.approvals + [c.record]
    requires History(db.approvals, id) != [] && ConsumeStep(LastOf(History(db.approvals, id)).value, c.record)
    requires c.record.updatedAt == now && UpToDate(db, c.record.binding.snapshot)
    requires TableInv(c.approvals) && Advances(db.approvals, c.approvals, now)
    ensures var (db', r) := Launch(db, c, c.record.mode, raw, now, inputs, jobId);
            StartOutcome(db, flights, id, now, jobId, db', r)
  {
    if inputs.Ok? {
      var a := c.record;
      var j := StartedJob(a, a.mode, raw, now, jobId, inputs.value);
      assert FreshStart(db, flights, a, j);
      StartedJobStored(db, flights, a, j);
      if forall i :: 0 <= i < |db.jobs| ==> (db.jobs[i].id, db.jobs[i].version) != (j.id, 1) {
        StartKeepsInv(db, flights, a, j);
      }
    }
  }

  /** A start replays and writes nothing, is refused and writes nothing, or stores a consumption with its job. */
  lemma StartMeaning(
    db: Db, flights: seq<Flight>, svc: Service, id: nat, raw: string, now: int, oracle: Oracle,
    inputs: Result<Inputs, DraftReason>, jobId: nat)
    requires TableInv(db.approvals) && DraftInv(db, flights)
    ensures var (db', r) := Start(db, svc, id, raw, now, oracle, inputs, jobId);
            StartOutcome(db, flights, id, now, jobId, db', r)
  {
    LatestIsLast(db.approvals, id);
    var latest := Latest(db.approvals, id);
    if latest.Some? {
      var b := latest.value.binding;
      ConsumeMeaning(db, svc, id, raw, now, b, oracle);
      var c := Consume(db, svc, id, raw, now, b, oracle);
      if c.Ok? {
        if c.value.replayed {
          ReplayNeverCollides(db, c.value.record, raw);
        } else {
          LaunchMeaning(db, flights, id, c.value, raw, now, inputs, jobId);
        }
      }
    }
  }

  lemma ReplayNeverCollides(db: Db, receipt: Approval, raw: string)
    ensures var (db', r) := Replay(db, receipt, raw);
            db' == db && (r.Err? ==> r.error.DraftDenied?) && (r.Ok? ==> r.value.Replayed?)
  {
  }

  /** What a step can do to one history. */
  ghost predicate StepEffect(w: World, e: Event, id: nat) {
    var h, h' := History(w.db.approvals, id), History(Step(w, e).db.approvals, id);
    || h' == h
    || (&& Instant(e).Some? && h' != [] && h == h'[..|h'| - 1]
        && LegalAppend(h, h'[|h'| - 1]) && h'[|h'| - 1].updatedAt == Instant(e).value
        && (!h'[|h'| - 1].state.Revoked? ==> UpToDate(w.db, h'[|h'| - 1].binding.snapshot))
        && (h == [] ==> DatedBy(w.db, h'[0])))
  }

  /** The expiry of a new approval is 24 hours away or at the earliest deadline, whichever comes first. */
  ghost predicate DatedBy(db: Db, a: Approval) {
    var s := a.binding.snapshot;
    && UpToDate(db, s)
    && !DeadlineUncertain(db.opportunities[s.opportunityId].deadlines)
    && a.expiresAt == Expiry(a.createdAt, EarliestDeadline(db.opportunities[s.opportunityId].deadlines))
  }

  /** Appending one legal row has a legal effect on each history. */
  lemma AppendEffect(w: World, e: Event, id: nat, a: Approval)
    requires Step(w, e).db.approvals == w.db.approvals + [a]
    requires Instant(e) == Some(a.updatedAt) && LegalAppend(History(w.db.approvals, a.id), a)
    requires !a.state.Revoked? ==> UpToDate(w.db, a.binding.snapshot)
    requires History(w.db.approvals, a.id) == [] ==> DatedBy(w.db, a)
    ensures StepEffect(w, e, id)
  {
    HistoryAppend(w.db.approvals, a, id);
  }

  lemma RequestEffect(w: World, e: Event, id: nat)
    requires WorldInv(w) && e.RequestCall?
    ensures StepEffect(w, e, id) && TableInv(Step(w, e).db.approvals)
    ensures Step(w, e).db == w.db || (History(w.db.approvals, e.newId) == [] &&
              exists a :: Requested(a) && Step(w, e).db == w.db.(approvals := w.db.approvals + [a]))
  {
    if History(w.db.approvals, e.newId) == [] {
      RequestMeaning(w.db, e.svc, e.binding, e.deadline, e.now, e.newId, e.oracle);
      var (db', r) := Request(w.db, e.svc, e.binding, e.deadline, e.now, e.newId, e.oracle);
      if db' != w.db {
        AppendEffect(w, e, id, r.value);
      }
    } else {
      RequestUnderTakenId(w.db, e.svc, e.binding, e.deadline, e.now, e.newId, e.oracle);
    }
  }

  /** The row a confirmation appends. */
  ghost predicate ConfirmRow(w: World, e: Event, a: Approval)
    requires e.ConfirmCall?
  {
    var h := History(w.db.approvals, e.id);
    && h != [] && a.id == e.id && a.updatedAt == e.now
    && (RevokeStep(LastOf(h).value, a) || (ConfirmStep(LastOf(h).value, a) && UpToDate(w.db, a.binding.snapshot)))
    && Step(w, e).db == w.db.(approvals := w.db.approvals + [a])
  }

  lemma ConfirmAppends(w: World, e: Event) returns (a: Approval)
    requires WorldInv(w) && e.ConfirmCall? && Step(w, e).db != w.db
    ensures ConfirmRow(w, e, a) && !ConsumptionRow(a) && TableInv(Step(w, e).db.approvals)
  {
    ConfirmMeaning(w.db, e.svc, e.id, e.raw, e.now, e.binding, e.oracle);
    var (db', r) := Confirm(w.db, e.svc, e.id, e.raw, e.now, e.binding, e.oracle);
    var h := History(w.db.approvals, e.id);
    HistoryMembers(w.db.approvals, e.id);
    assert LastOf(h).value in h;
    if r.Ok? {
      a := r.value;
    } else {
      a :| RevokeStep(LastOf(h).value, a) && a.updatedAt == e.now && db' == w.db.(approvals := w.db.approvals + [a]);
    }
  }

  lemma ConfirmEffect(w: World, e: Event, id: nat)
    requires WorldInv(w) && e.ConfirmCall?
    ensures StepEffect(w, e, id) && TableInv(Step(w, e).db.approvals)
    ensures Step(w, e).db == w.db || exists a :: ConfirmRow(w, e, a) && !ConsumptionRow(a)
  {
    if Step(w, e).db != w.db {
      var a := ConfirmAppends(w, e);
      AppendEffect(w, e, id, a);
    }
  }

  /** Operations that only revoke append no consumption and request nothing. */
  lemma RevokingEffect(w: World, e: Event, id: nat)
    requires WorldInv(w) && (e.ValidateCall? || e.RevokeCall?)
    ensures StepEffect(w, e, id) && TableInv(Step(w, e).db.approvals)
    ensures History(w.db.approvals, id) == [] ==> History(Step(w, e).db.approvals, id) == []
    ensures Step(w, e).db == w.db.(approvals := Step(w, e).db.approvals)
    ensures forall a :: a in Step(w, e).db.approvals && a !in w.db.approvals ==> a.state.Revoked?
    ensures w.db.approvals <= Step(w, e).db.approvals
  {
    var t, t' := w.db.approvals, Step(w, e).db.approvals;
    if e.ValidateCall? {
      ValidateMeaning(w.db, e.svc, e.id, e.binding, e.now, e.oracle);
    } else {
      RevokeMeaning(w.db, e.svc, e.scope, e.now);
    }
    var h, h' := History(t, id), History(t', id);
    assert AdvancesAt(h, h', Instant(e).value);
    if h' != h {
      OnlyRevocations(t, t', id, e.now);
    }
  }

  lemma OnlyRevocations(t: seq<Approval>, t': seq<Approval>, id: nat, now: int)
    requires TableInv(t) && TableInv(t') && Advances(t, t', now)
    requires forall a :: a in t' && a !in t ==> a.state.Revoked?
    requires History(t', id) != History(t, id)
    ensures LastOf(History(t', id)).value.state.Revoked?
  {
    var h, h' := History(t, id), History(t', id);
    assert AdvancesAt(h, h', now);
    var a := LastOf(h').value;
    assert a in t' by { HistoryMembers(t', id); assert a in h'; }
    if a in t {
      assert a in h by { HistoryMembers(t, id); HistoryMembers(t', id); assert a in h'; }
      var k :| 0 <= k < |h| && h[k] == a;
      HistoryFacts(h, k, k);
      HistoryFacts(h', |h'| - 1, |h'| - 1);
    }
  }

  lemma StartEffect(w: World, e: Event, id: nat)
    requires WorldInv(w) && e.StartCall?
    ensures StepEffect(w, e, id) && WorldInv(Step(w, e))
    ensures History(w.db.approvals, id) == [] ==> History(Step(w, e).db.approvals, id) == []
  {
    StartMeaning(w.db, w.flights, e.svc, e.id, e.raw, e.now, e.oracle, e.inputs, e.jobId);
    var (db', r) := Start(w.db, e.svc, e.id, e.raw, e.now, e.oracle, e.inputs, e.jobId);
    if r.Ok? && r.value.StartedFlight? {
      var a := r.value.flight.receipt;
      HistoryAppend(w.db.approvals, a, id);
      AppendEffect(w, e, id, a);
    }
  }

  /** Every step has one legal effect on each history. */
  lemma StepEffects(w: World, e: Event, id: nat)
    requires WorldInv(w)
    ensures StepEffect(w, e, id)
    ensures History(w.db.approvals, id) == [] && History(Step(w, e).db.approvals, id) != [] ==> e.RequestCall?
  {
    match e
    case RequestCall(_, _, _, _, _, _) => RequestEffect(w, e, id);
    case ConfirmCall(_, _, _, _, _, _) =>
      ConfirmEffect(w, e, id);
      if History(w.db.approvals, id) == [] { ConfirmRequestsNothing(w, e, id); }
    case ValidateCall(_, _, _, _, _) => RevokingEffect(w, e, id);
    case RevokeCall(_, _, _) => RevokingEffect(w, e, id);
    case StartCall(_, _, _, _, _, _, _) => StartEffect(w, e, id);
    case FinishCall(k, outcome) =>
      if k < |w.flights| { FinishKeepsInv(w.db, w.flights, k, outcome); }
    case _ =>
  }

  lemma ConfirmRequestsNothing(w: World, e: Event, id: nat)
    requires WorldInv(w) && e.ConfirmCall? && History(w.db.approvals, id) == []
    ensures History(Step(w, e).db.approvals, id) == []
  {
    ConfirmEffect(w, e, id);
    if Step(w, e).db != w.db {
      var a := ConfirmAppends(w, e);
      HistoryAppend(w.db.approvals, a, id);
    }
  }

  /** Every step keeps the table legal and the drafts consistent, whatever the clock does. */
  lemma StepKeepsInv(w: World, e: Event)
    requires WorldInv(w)
    ensures WorldInv(Step(w, e))
  {
    var w' := Step(w, e);
    match e
    case RequestCall(_, _, _, _, _, _) =>
      RequestEffect(w, e, 0);
      if w'.db != w.db {
        var a :| Requested(a) && w'.db == w.db.(approvals := w.db.approvals + [a]);
        OtherRowsKeepDrafts(w.db, w'.db.approvals, w.flights);
      }
    case ConfirmCall(_, _, _, _, _, _) =>
      ConfirmEffect(w, e, 0);
      if w'.db != w.db {
        var a := ConfirmAppends(w, e);
        OtherRowsKeepDrafts(w.db, w'.db.approvals, w.flights);
      }
    case ValidateCall(_, _, _, _, _) => RevocationsKeepInv(w, e);
    case RevokeCall(_, _, _) => RevocationsKeepInv(w, e);
    case StartCall(_, _, _, _, _, _, _) => StartEffect(w, e, 0);
    case FinishCall(k, outcome) =>
      if k < |w.flights| { FinishKeepsInv(w.db, w.flights, k, outcome); }
    case Crash(k) =>
      if k < |w.flights| { CrashKeepsInv(w.db, w.flights, k); }
    case _ => InputsKeepDrafts(w.db, w'.db, w.flights);
  }

  lemma RevocationsKeepInv(w: World, e: Event)
    requires WorldInv(w) && (e.ValidateCall? || e.RevokeCall?)
    ensures WorldInv(Step(w, e))
  {
    var t' := Step(w, e).db.approvals;
    RevokingEffect(w, e, 0);
    forall a | a in t' && a !in w.db.approvals ensures !ConsumptionRow(a) {
      RevokedHasNoKey(t', a);
    }
    OtherRowsKeepDrafts(w.db, t', w.flights);
  }

  lemma RevokedHasNoKey(t: seq<Approval>, a: Approval)
    requires TableInv(t) && a in t && a.state.Revoked?
    ensures a.key.None?
  {
    var h := History(t, a.id);
    HistoryMembers(t, a.id);
    assert a in h;
    var k :| 0 <= k < |h| && h[k] == a;
    LegalAt(h, k);
  }

  /** New versions of the inputs leave approvals and drafts as they are. */
  lemma InputsKeepDrafts(db: Db, db': Db, flights: seq<Flight>)
    requires DraftInv(db, flights)
    requires db'.approvals == db.approvals && db'.jobs == db.jobs && db'.packs == db.packs
    ensures DraftInv(db', flights)
  {
    forall i | 0 <= i < |db.approvals| && ConsumptionRow(db.approvals[i]) ensures Drafted(db', db.approvals[i]) {
      assert Drafted(db, db.approvals[i]);
    }
    forall i | 0 <= i < |db.jobs| ensures Owned(db', db.jobs[i]) { assert Owned(db, db.jobs[i]); }
    forall i | 0 <= i < |db.packs| ensures PackBelongs(db', db.packs[i]) { assert PackBelongs(db, db.packs[i]); }
    forall i | 0 <= i < |flights| ensures Airborne(db', flights[i]) { assert Airborne(db, flights[i]); }
  }

  // ----- the clock

  ghost predicate ClockInv(w: World) { OneLive(w.db.approvals, w.clock) }

  lemma OneLiveLater(t: seq<Approval>, before: int, now: int)
    requires TableInv(t) && OneLive(t, before) && before <= now
    ensures OneLive(t, now)
  {
    AdvanceByNone(t, now);
    OneLiveKept(t, t, before, now);
  }

  lemma StepAdvances(w: World, e: Event)
    requires WorldInv(w) && Instant(e).Some?
    ensures Advances(w.db.approvals, Step(w, e).db.approvals, Instant(e).value)
  {
    var t, t' := w.db.approvals, Step(w, e).db.approvals;
    forall id: nat ensures AdvancesAt(History(t, id), History(t', id), Instant(e).value) {
      StepEffects(w, e, id);
    }
    TableGrows(w, e);
  }

  lemma TableGrows(w: World, e: Event)
    requires WorldInv(w)
    ensures w.db.approvals <= Step(w, e).db.approvals
  {
    match e
    case RequestCall(_, _, _, _, _, _) => RequestEffect(w, e, 0);
    case ConfirmCall(_, _, _, _, _, _) => ConfirmEffect(w, e, 0);
    case ValidateCall(_, _, _, _, _) => RevokingEffect(w, e, 0);
    case RevokeCall(_, _, _) => RevokingEffect(w, e, 0);
    case StartCall(svc, id, raw, now, oracle, inputs, jobId) =>
      StartMeaning(w.db, w.flights, svc, id, raw, now, oracle, inputs, jobId);
    case FinishCall(k, outcome) =>
      if k < |w.flights| { FinishKeepsInv(w.db, w.flights, k, outcome); }
    case _ =>
  }

  /** A new approval is created only where none of its authority is live. */
  lemma RequestKeepsOneLive(w: World, e: Event)
    requires WorldInv(w) && ClockInv(w) && Timely(w, e) && e.RequestCall?
    ensures ClockInv(Step(w, e))
  {
    var t, t' := w.db.approvals, Step(w, e).db.approvals;
    OneLiveLater(t, w.clock, e.now);
    if History(t, e.newId) != [] {
      RequestUnderTakenId(w.db, e.svc, e.binding, e.deadline, e.now, e.newId, e.oracle);
    } else {
      RequestMeaning(w.db, e.svc, e.binding, e.deadline, e.now, e.newId, e.oracle);
      var r := Request(w.db, e.svc, e.binding, e.deadline, e.now, e.newId, e.oracle).1;
      if t' != t {
        forall a: nat, b: nat
          ensures OneLiveOf(History(t', a), History(t', b), a, b, e.now)
        {
          HistoryAppend(t, r.value, a);
          HistoryAppend(t, r.value, b);
          assert OneLiveOf(History(t, a), History(t, b), a, b, e.now);
        }
      }
    }
  }

  lemma StepKeepsClockInv(w: World, e: Event)
    requires WorldInv(w) && ClockInv(w) && Timely(w, e)
    ensures ClockInv(Step(w, e))
  {
    var t, t' := w.db.approvals, Step(w, e).db.approvals;
    if e.RequestCall? {
      RequestKeepsOneLive(w, e);
    } else {
      forall id: nat | History(t, id) == [] ensures History(t', id) == [] {
        StepEffects(w, e, id);
      }
      if Instant(e).Some? {
        StepAdvances(w, e);
        OneLiveKept(t, t', w.clock, Instant(e).value);
      } else {
        UntimedKeepsTable(w, e);
      }
    }
  }

  lemma UntimedKeepsTable(w: World, e: Event)
    requires WorldInv(w) && Instant(e).None?
    ensures Step(w, e).db.approvals == w.db.approvals
  {
    match e
    case FinishCall(k, outcome) =>
      if k < |w.flights| { FinishKeepsInv(w.db, w.flights, k, outcome); }
    case _ =>
  }
}
