/** Each approval operation keeps the table's invariant and does exactly one legal thing. */
module ApprovalSteps {
  import opened Wrappers
  import opened WorkspaceRecords
  import opened ApprovalRules
  import opened ApprovalHistory

  // ----- the list of current rows

  lemma {:induction false} LatestHasId(t: seq<Approval>, id: nat)
    ensures Latest(t, id).Some? ==> Latest(t, id).value.id == id && Latest(t, id).value in t
    ensures Latest(t, id).None? ==> forall a :: a in t ==> a.id != id
  {
    if t != [] {
      LatestHasId(t[..|t| - 1], id);
      assert t == t[..|t| - 1] + [t[|t| - 1]];
    }
  }

  lemma {:induction false} CurrentMembers(t: seq<Approval>, n: nat)
    ensures forall a :: a in CurrentBelow(t, n) <==> a.id < n && Latest(t, a.id) == Some(a)
    ensures forall i, j :: 0 <= i < j < |CurrentBelow(t, n)| ==> CurrentBelow(t, n)[i].id < CurrentBelow(t, n)[j].id
  {
    if n > 0 {
      CurrentMembers(t, n - 1);
      LatestHasId(t, n - 1);
      var rest := CurrentBelow(t, n - 1);
      forall i | 0 <= i < |rest| ensures rest[i].id < n - 1 { assert rest[i] in rest; }
    }
  }

  /** The listing holds the latest row of every approval and nothing else. */
  lemma ListedIffLatest(t: seq<Approval>, a: Approval)
    ensures a in ListCurrent(t) <==> Latest(t, a.id) == Some(a)
  {
    CurrentMembers(t, IdBound(t));
    LatestHasId(t, a.id);
  }

  // ----- live approvals

  /** Consumed, or neither revoked nor expired. */
  predicate Live(a: Approval, now: int) { a.consumedAt.Some? || (!a.state.Revoked? && now < a.expiresAt) }

  predicate SameAuthority(a: Approval, b: Binding, mode: RuntimeMode) { a.binding == b && a.mode == mode }

  /** At most one approval of a binding and mode is live. */
  ghost predicate OneLive(t: seq<Approval>, now: int) {
    forall a: nat, b: nat {:trigger History(t, a), History(t, b)} :: OneLiveOf(History(t, a), History(t, b), a, b, now)
  }

  ghost predicate OneLiveOf(g: seq<Approval>, h: seq<Approval>, a: nat, b: nat, now: int) {
    a != b && g != [] && h != [] && SameAuthority(LastOf(g).value, LastOf(h).value.binding, LastOf(h).value.mode)
    ==> !(Live(LastOf(g).value, now) && Live(LastOf(h).value, now))
  }

  /** Time can only end a life, and so can a legal step; neither starts one. */
  lemma LifeOnlyEnds(p: Approval, a: Approval, before: int, now: int)
    requires a == p || (LegalStep(p, a) && a.updatedAt == now)
    requires before <= now && Live(a, now)
    ensures Live(p, before) && SameAuthority(a, p.binding, p.mode)
  {
  }

  /** A step that requests nothing keeps at most one live approval per authority. */
  lemma OneLiveKept(t: seq<Approval>, t': seq<Approval>, before: int, now: int)
    requires TableInv(t) && OneLive(t, before) && before <= now && Advances(t, t', now)
    requires forall id: nat :: History(t, id) == [] ==> History(t', id) == []
    ensures OneLive(t', now)
  {
    forall a: nat, b: nat
      ensures OneLiveOf(History(t', a), History(t', b), a, b, now)
    {
      var g, h := History(t', a), History(t', b);
      assert OneLiveOf(History(t, a), History(t, b), a, b, before);
      if a != b && g != [] && h != [] && Live(LastOf(g).value, now) && Live(LastOf(h).value, now)
         && SameAuthority(LastOf(g).value, LastOf(h).value.binding, LastOf(h).value.mode) {
        LastStep(t, t', a, before, now);
        LastStep(t, t', b, before, now);
        assert false;
      }
    }
  }

  lemma LastStep(t: seq<Approval>, t': seq<Approval>, id: nat, before: int, now: int)
    requires Advances(t, t', now) && before <= now
    requires History(t, id) != [] && History(t', id) != [] && Live(LastOf(History(t', id)).value, now)
    ensures Live(LastOf(History(t, id)).value, before)
    ensures SameAuthority(LastOf(History(t', id)).value, LastOf(History(t, id)).value.binding,
        LastOf(History(t, id)).value.mode)
  {
    var h, h' := History(t, id), History(t', id);
    assert AdvancesAt(h, h', now);
    LifeOnlyEnds(LastOf(h).value, LastOf(h').value, before, now);
  }

  // ----- request

  lemma ReusableIsLive(t: seq<Approval>, b: Binding, mode: RuntimeMode, now: int, a: Approval)
    requires TableInv(t)
    ensures a in Reusable(ListCurrent(t), b, mode, now) <==>
            LastOf(History(t, a.id)) == Some(a) && SameAuthority(a, b, mode) && Live(a, now)
  {
    ReusableMembers(ListCurrent(t), b, mode, now);
    ListedIffLatest(t, a);
    LatestIsLast(t, a.id);
  }

  /** A granted request for a clock that has not run backwards returns the one live approval, or a new one. */
  lemma RequestMeaning(
    db: Db, svc: Service, b: Binding, deadline: Option<Deadline>, now: int, newId: nat, oracle: Oracle)
    requires TableInv(db.approvals) && History(db.approvals, newId) == []
    ensures var (db', r) := Request(db, svc, b, deadline, now, newId, oracle);
            && (r.Err? ==> db' == db && r.error.Denied?)
            && (r.Ok? ==>
                  && UpToDate(db, b.snapshot) && b.actor == svc.actor
                  && LastOf(History(db'.approvals, r.value.id)) == Some(r.value)
                  && SameAuthority(r.value, b, svc.mode) && Live(r.value, now)
                  && (db' == db ||
                        (&& r.value.id == newId && Requested(r.value) && r.value.createdAt == now
                         && db' == db.(approvals := db.approvals + [r.value])
                         && forall id: nat :: History(db.approvals, id) != [] ==>
                              var a := LastOf(History(db.approvals, id)).value;
                              !(SameAuthority(a, b, svc.mode) && Live(a, now)))))
            && TableInv(db'.approvals) && Advances(db.approvals, db'.approvals, now)
  {
    var (db', r) := Request(db, svc, b, deadline, now, newId, oracle);
    if r.Ok? {
      var t := db.approvals;
      var reusable := Reusable(ListCurrent(t), b, svc.mode, now);
      if reusable != [] {
        EarliestIsFirst(reusable);
        ReusableIsLive(t, b, svc.mode, now, r.value);
      } else {
        NothingReusable(t, b, svc.mode, now);
        NewRequestMeaning(t, r.value, newId, now);
      }
    } else {
      RequestNeverCollides(db, svc, b, deadline, now, newId, oracle);
    }
  }

  lemma NewRequestMeaning(t: seq<Approval>, a: Approval, newId: nat, now: int)
    requires TableInv(t) && History(t, newId) == [] && a.id == newId && Requested(a) && a.createdAt == now
    ensures Put(t, a) == Ok(t + [a]) && TableInv(t + [a]) && Advances(t, t + [a], now)
    ensures LastOf(History(t + [a], newId)) == Some(a)
  {
    HistoryAppend(t, a, newId);
    PutLegal(t, a);
  }

  lemma NothingReusable(t: seq<Approval>, b: Binding, mode: RuntimeMode, now: int)
    requires TableInv(t) && Reusable(ListCurrent(t), b, mode, now) == []
    ensures forall id: nat :: History(t, id) != [] ==>
              var a := LastOf(History(t, id)).value; !(SameAuthority(a, b, mode) && Live(a, now))
  {
    forall id: nat | History(t, id) != []
      ensures var a := LastOf(History(t, id)).value; !(SameAuthority(a, b, mode) && Live(a, now))
    {
      var a := LastOf(History(t, id)).value;
      HistoryMembers(t, id);
      assert a in History(t, id);
      ReusableIsLive(t, b, mode, now, a);
    }
  }

  lemma RequestNeverCollides(
    db: Db, svc: Service, b: Binding, deadline: Option<Deadline>, now: int, newId: nat, oracle: Oracle)
    requires TableInv(db.approvals) && History(db.approvals, newId) == []
    requires Request(db, svc, b, deadline, now, newId, oracle).1.Err?
    ensures Request(db, svc, b, deadline, now, newId, oracle).0 == db
    ensures Request(db, svc, b, deadline, now, newId, oracle).1.error.Denied?
  {
    var reason := GraphReason(db, svc, b.snapshot, now, oracle);
    if b.actor == svc.actor && reason.None? {
      var verified := EarliestDeadline(db.opportunities[b.snapshot.opportunityId].deadlines);
      PutLegal(db.approvals, NewApproval(b, svc.mode, now, verified, newId));
    }
  }

  /** While an approval is live, every granted request for its authority returns it and writes nothing. */
  lemma RequestsConverge(
    db: Db, svc: Service, deadline: Option<Deadline>, now: int, newId: nat, oracle: Oracle, id: nat)
    requires TableInv(db.approvals) && OneLive(db.approvals, now)
    requires History(db.approvals, id) != [] && Live(LastOf(History(db.approvals, id)).value, now)
    requires LastOf(History(db.approvals, id)).value.mode == svc.mode
    ensures var a := LastOf(History(db.approvals, id)).value;
            var (db', r) := Request(db, svc, a.binding, deadline, now, newId, oracle);
            db' == db && (r.Ok? ==> r.value == a) && (r.Err? ==> r.error.Denied?)
  {
    var t := db.approvals;
    var a := LastOf(History(t, id)).value;
    var reusable := Reusable(ListCurrent(t), a.binding, svc.mode, now);
    HistoryMembers(t, id);
    assert a in History(t, id);
    ReusableIsLive(t, a.binding, svc.mode, now, a);
    assert reusable != [];
    var e := EarliestCreated(reusable);
    EarliestIsFirst(reusable);
    ReusableIsLive(t, a.binding, svc.mode, now, e);
    assert OneLiveOf(History(t, id), History(t, e.id), id, e.id, now);
  }

  // ----- confirm, validate, consume

  lemma SettleMeaning(db: Db, svc: Service, id: nat, expected: Binding, now: int, oracle: Oracle, pendingAllowed: bool)
    requires TableInv(db.approvals)
    ensures var f := Inspect(db, svc, id, expected, now, oracle, pendingAllowed);
            var r := Settle(db.approvals, f, now);
            && r.Ok? && TableInv(r.value) && Advances(db.approvals, r.value, now)
            && (r.value == db.approvals
                || (f.record.Some? && f.revoke.Some?
                    && r.value == db.approvals + [RevokedRow(f.record.value, now, f.revoke.value)]
                    && RevokeStep(f.record.value, RevokedRow(f.record.value, now, f.revoke.value))))
  {
    var f := Inspect(db, svc, id, expected, now, oracle, pendingAllowed);
    InspectedRecord(db, svc, id, expected, now, oracle, pendingAllowed);
    if f.revoke.Some? {
      PutAfterLast(db.approvals, id, RevokedRow(f.record.value, now, f.revoke.value));
    } else {
      AdvanceByNone(db.approvals, now);
    }
  }

  lemma AdvanceByNone(t: seq<Approval>, now: int)
    ensures Advances(t, t, now)
  {
  }

  /** Appending a legal successor of the last row. */
  lemma PutAfterLast(t: seq<Approval>, id: nat, a: Approval)
    requires TableInv(t) && History(t, id) != []
    requires a.id == LastOf(History(t, id)).value.id && a.createdAt == LastOf(History(t, id)).value.createdAt
    requires LastOf(History(t, id)).value.updatedAt <= a.updatedAt
    requires a.createdAt <= a.updatedAt ==> LegalStep(LastOf(History(t, id)).value, a)
    requires a.key.Some? ==> forall i :: 0 <= i < |t| ==> t[i].key != a.key
    ensures a.id == id && LegalStep(LastOf(History(t, id)).value, a)
    ensures Put(t, a) == Ok(t + [a])
    ensures TableInv(t + [a]) && Advances(t, t + [a], a.updatedAt)
    ensures History(t + [a], id) == History(t, id) + [a]
  {
    var h := History(t, id);
    HistoryMembers(t, id);
    assert h[|h| - 1] in h;
    UpdatedAfterCreated(h, |h| - 1);
    PutLegal(t, a);
    HistoryAppend(t, a, id);
  }

  lemma ReceiptFree(t: seq<Approval>, key: ReceiptKey)
    requires FindReceipt(t, key).None?
    ensures forall i :: 0 <= i < |t| ==> t[i].key != Some(key)
  {
    forall i | 0 <= i < |t| ensures t[i].key != Some(key) { assert t[i] in t; }
  }

  lemma ReceiptFound(t: seq<Approval>, a: Approval, key: ReceiptKey)
    requires KeysUnique(t) && a in t && a.key == Some(key)
    ensures FindReceipt(t, key) == Some(a)
  {
    var found := FindReceipt(t, key);
    var i :| 0 <= i < |t| && t[i] == a;
    if found.Some? {
      var j :| 0 <= j < |t| && t[j] == found.value;
    }
  }

  /** A granted confirmation: the historical receipt, or the next row of a live pending approval. */
  ghost predicate ConfirmGranted(
    db: Db, svc: Service, id: nat, raw: string, now: int, expected: Binding, db': Db, a: Approval)
  {
    var h := History(db.approvals, id);
    && SameAuthority(a, expected, svc.mode) && a.id == id && a.key == Some(ConfirmKey(raw))
    && if a in db.approvals then db' == db
       else h != [] && ConfirmStep(LastOf(h).value, a) && a.updatedAt == now
            && UpToDate(db, expected.snapshot)
            && db' == db.(approvals := db.approvals + [a])
  }

  /** A refused confirmation writes nothing except a revocation that is due. */
  ghost predicate ConfirmRefused(db: Db, id: nat, now: int, db': Db) {
    var h := History(db.approvals, id);
    || db' == db
    || (h != [] && exists a :: RevokeStep(LastOf(h).value, a) && a.updatedAt == now
                               && db' == db.(approvals := db.approvals + [a]))
  }

  lemma ConfirmAdvances(
    db: Db, svc: Service, id: nat, raw: string, now: int, expected: Binding, a: Approval)
    requires TableInv(db.approvals) && FindReceipt(db.approvals, ConfirmKey(raw)).None?
    requires Actionable(db, svc, id, expected, now, true, a) && a.state.Pending?
    ensures var c := ConfirmedRow(a, now, ConfirmKey(raw));
            var t := db.approvals + [c];
            && Put(db.approvals, c) == Ok(t) && TableInv(t) && Advances(db.approvals, t, now)
            && ConfirmGranted(db, svc, id, raw, now, expected, db.(approvals := t), c)
  {
    var c := ConfirmedRow(a, now, ConfirmKey(raw));
    ReceiptFree(db.approvals, ConfirmKey(raw));
    PutAfterLast(db.approvals, id, c);
    forall a | a in db.approvals ensures a != c {
      var i :| 0 <= i < |db.approvals| && db.approvals[i] == a;
    }
  }

  /** A confirmation replays, or advances a live pending approval of current versions, or only revokes. */
  lemma ConfirmMeaning(db: Db, svc: Service, id: nat, raw: string, now: int, expected: Binding, oracle: Oracle)
    requires TableInv(db.approvals)
    ensures var (db', r) := Confirm(db, svc, id, raw, now, expected, oracle);
            && (r.Ok? ==> ConfirmGranted(db, svc, id, raw, now, expected, db', r.value))
            && (r.Err? ==> r.error.Denied? && ConfirmRefused(db, id, now, db'))
            && TableInv(db'.approvals) && Advances(db.approvals, db'.approvals, now)
  {
    AdvanceByNone(db.approvals, now);
    if FindReceipt(db.approvals, ConfirmKey(raw)).None? {
      var f := Inspect(db, svc, id, expected, now, oracle, true);
      InspectedRecord(db, svc, id, expected, now, oracle, true);
      SettleMeaning(db, svc, id, expected, now, oracle, true);
      if f.actionable && f.record.value.state.Pending? {
        ConfirmAdvances(db, svc, id, raw, now, expected, f.record.value);
      }
    }
  }

  lemma ValidateMeaning(db: Db, svc: Service, id: nat, expected: Binding, now: int, oracle: Oracle)
    requires TableInv(db.approvals)
    ensures var (db', r) := Validate(db, svc, id, expected, now, oracle);
            && (r.Err? ==> r.error.Denied? && db' == db)
            && (r.Ok? && r.value.actionable ==>
                  && db' == db && r.value.record.Some?
                  && Actionable(db, svc, id, expected, now, false, r.value.record.value))
            && db' == db.(approvals := db'.approvals)
            && TableInv(db'.approvals) && Advances(db.approvals, db'.approvals, now)
            && (forall i: nat :: History(db.approvals, i) == [] ==> History(db'.approvals, i) == [])
            && (forall a :: a in db'.approvals && a !in db.approvals ==> a.state.Revoked?)
  {
    AdvanceByNone(db.approvals, now);
    InspectedRecord(db, svc, id, expected, now, oracle, false);
    SettleMeaning(db, svc, id, expected, now, oracle, false);
    var f := Inspect(db, svc, id, expected, now, oracle, false);
    var (db', _) := Validate(db, svc, id, expected, now, oracle);
    if db' != db {
      var a := RevokedRow(f.record.value, now, f.revoke.value);
      HistoryMembers(db.approvals, id);
      assert LastOf(History(db.approvals, id)).value in History(db.approvals, id);
      forall i: nat | History(db.approvals, i) == []
        ensures History(db'.approvals, i) == []
      {
        HistoryAppend(db.approvals, a, i);
      }
    }
  }

  /** A consumption replays, or advances a live confirmed approval of current versions. */
  lemma ConsumeMeaning(db: Db, svc: Service, id: nat, raw: string, now: int, expected: Binding, oracle: Oracle)
    requires TableInv(db.approvals)
    ensures var r := Consume(db, svc, id, raw, now, expected, oracle);
            var h := History(db.approvals, id);
            && (r.Err? ==> r.error.Denied?)
            && (r.Ok? ==>
                  var a := r.value.record;
                  && SameAuthority(a, expected, svc.mode) && a.id == id && a.key == Some(ConsumeKey(raw))
                  && (if r.value.replayed then a in db.approvals && r.value.approvals == db.approvals
                      else h != [] && ConsumeStep(LastOf(h).value, a) && a.updatedAt == now
                           && UpToDate(db, expected.snapshot)
                           && r.value.approvals == db.approvals + [a]
                           && History(r.value.approvals, id) == h + [a])
                  && TableInv(r.value.approvals) && Advances(db.approvals, r.value.approvals, now))
  {
    var t := db.approvals;
    AdvanceByNone(t, now);
    var f := Inspect(db, svc, id, expected, now, oracle, false);
    InspectedRecord(db, svc, id, expected, now, oracle, false);
    var found := FindReceipt(t, ConsumeKey(raw));
    if found.None? {
      ReceiptFree(t, ConsumeKey(raw));
      SettleMeaning(db, svc, id, expected, now, oracle, false);
      if f.actionable {
        PutAfterLast(t, id, ConsumedRow(f.record.value, now, ConsumeKey(raw)));
      }
    }
  }

  // ----- scoped revocation

  /** The history after revoking the listed rows that are in scope. */
  ghost predicate RevokedHistories(
    t: seq<Approval>, t': seq<Approval>, rows: seq<Approval>, svc: Service, scope: Change, now: int)
  {
    forall id: nat {:trigger History(t', id)} ::
      && (History(t', id) == History(t, id)
          || exists k :: 0 <= k < |rows| && rows[k].id == id && InScope(svc, scope, rows[k])
                         && History(t', id) == History(t, id) + [RevokedRow(rows[k], now, ChangeRevoked)])
      && (forall k :: 0 <= k < |rows| && rows[k].id == id && InScope(svc, scope, rows[k]) ==>
            History(t', id) == History(t, id) + [RevokedRow(rows[k], now, ChangeRevoked)])
  }

  ghost predicate LastRows(t: seq<Approval>, rows: seq<Approval>) {
    && (forall k :: 0 <= k < |rows| ==> LastOf(History(t, rows[k].id)) == Some(rows[k]))
    && (forall i, j :: 0 <= i < j < |rows| ==> rows[i].id < rows[j].id)
  }

  lemma {:induction false} RevokeRowsMeaning(
    t: seq<Approval>, rows: seq<Approval>, svc: Service, scope: Change, now: int)
    requires TableInv(t) && LastRows(t, rows)
    ensures var r := RevokeRows(t, rows, svc, scope, now);
            && (r.Err? <==> exists k :: 0 <= k < |rows| && InScope(svc, scope, rows[k]) && now < rows[k].createdAt)
            && (r.Err? ==> r.error.ContractViolation?)
            && (r.Ok? ==> TableInv(r.value) && RevokedHistories(t, r.value, rows, svc, scope, now))
            && (r.Ok? ==> forall a :: a in r.value && a !in t ==> a.state.Revoked?)
    decreases rows
  {
    if rows != [] {
      var first, later := rows[0], rows[1..];
      if !InScope(svc, scope, first) {
        RevokeRowsMeaning(t, later, svc, scope, now);
        SkipRow(t, rows, svc, scope, now);
      } else if first.createdAt <= now {
        var a := RevokedRow(first, now, ChangeRevoked);
        assert LegalStep(first, a);
        PutLegal(t, a);
        var t1 := t + [a];
        forall k | 0 <= k < |later| ensures LastOf(History(t1, later[k].id)) == Some(later[k]) {
          HistoryAppend(t, a, later[k].id);
          assert later[k] == rows[k + 1];
        }
        RevokeRowsMeaning(t1, later, svc, scope, now);
        RevokeRow(t, t1, rows, svc, scope, now);
      }
    }
  }

  lemma SkipRow(t: seq<Approval>, rows: seq<Approval>, svc: Service, scope: Change, now: int)
    requires rows != [] && !InScope(svc, scope, rows[0])
    ensures (exists k :: 0 <= k < |rows| && InScope(svc, scope, rows[k]) && now < rows[k].createdAt) <==>
            (exists k :: 0 <= k < |rows[1..]| && InScope(svc, scope, rows[1..][k]) && now < rows[1..][k].createdAt)
    ensures forall t' :: RevokedHistories(t, t', rows[1..], svc, scope, now) ==>
        RevokedHistories(t, t', rows, svc, scope, now)
  {
    var later := rows[1..];
    assert forall k :: 0 < k < |rows| ==> rows[k] == later[k - 1];
    assert forall k :: 0 <= k < |later| ==> later[k] == rows[k + 1];
  }

  lemma RevokeRow(t: seq<Approval>, t1: seq<Approval>, rows: seq<Approval>, svc: Service, scope: Change, now: int)
    requires rows != [] && LastRows(t, rows) && InScope(svc, scope, rows[0]) && rows[0].createdAt <= now
    requires t1 == t + [RevokedRow(rows[0], now, ChangeRevoked)]
    ensures (exists k :: 0 <= k < |rows| && InScope(svc, scope, rows[k]) && now < rows[k].createdAt) <==>
            (exists k :: 0 <= k < |rows[1..]| && InScope(svc, scope, rows[1..][k]) && now < rows[1..][k].createdAt)
    ensures forall t' :: RevokedHistories(t1, t', rows[1..], svc, scope, now) ==>
        RevokedHistories(t, t', rows, svc, scope, now)
  {
    var later := rows[1..];
    var a := RevokedRow(rows[0], now, ChangeRevoked);
    assert forall k :: 0 < k < |rows| ==> rows[k] == later[k - 1];
    assert forall k :: 0 <= k < |later| ==> later[k] == rows[k + 1];
    forall t' | RevokedHistories(t1, t', later, svc, scope, now)
      ensures RevokedHistories(t, t', rows, svc, scope, now)
    {
      forall id: nat
        ensures && (History(t', id) == History(t, id)
                    || exists k :: 0 <= k < |rows| && rows[k].id == id && InScope(svc, scope, rows[k])
                                   && History(t', id) == History(t, id) + [RevokedRow(rows[k], now, ChangeRevoked)])
                && (forall k :: 0 <= k < |rows| && rows[k].id == id && InScope(svc, scope, rows[k]) ==>
                      History(t', id) == History(t, id) + [RevokedRow(rows[k], now, ChangeRevoked)])
      {
        HistoryAppend(t, a, id);
        assert History(t', id) == History(t', id);
      }
    }
  }

  /**
    A scoped revocation revokes exactly the unrevoked approvals of the actor that the scope names,
    and changes no other history. It fails only for an empty scope or a clock older than a row.
   */
  lemma RevokeMeaning(db: Db, svc: Service, scope: Change, now: int)
    requires TableInv(db.approvals)
    ensures var (db', r) := RevokeInvalid(db, svc, scope, now);
            && (r.Err? ==> db' == db && r.error.ContractViolation?)
            && (r.Err? <==>
                  (EmptyScope(scope) ||
                   exists id: nat :: var h := History(db.approvals, id);
                     h != [] && InScope(svc, scope, LastOf(h).value) && now < LastOf(h).value.createdAt))
            && (r.Ok? ==> forall id: nat :: var h := History(db.approvals, id);
                  History(db'.approvals, id) ==
                    if h != [] && InScope(svc, scope, LastOf(h).value)
                    then h + [RevokedRow(LastOf(h).value, now, ChangeRevoked)] else h)
            && (r.Ok? ==> forall a :: a in db'.approvals && a !in db.approvals ==> a.state.Revoked?)
            && db' == db.(approvals := db'.approvals)
            && TableInv(db'.approvals) && Advances(db.approvals, db'.approvals, now)
  {
    var t := db.approvals;
    var rows := ListCurrent(t);
    AdvanceByNone(t, now);
    CurrentRows(t);
    RevokeRowsMeaning(t, rows, svc, scope, now);
    forall id: nat | History(t, id) != []
      ensures exists k :: 0 <= k < |rows| && rows[k] == LastOf(History(t, id)).value && rows[k].id == id
    {
      RowListed(t, id);
    }
    StaleClock(t, rows, svc, scope, now);
    var (db', r) := RevokeInvalid(db, svc, scope, now);
    if r.Ok? {
      RevokedAdvance(t, db'.approvals, rows, svc, scope, now);
    }
  }

  lemma StaleClock(t: seq<Approval>, rows: seq<Approval>, svc: Service, scope: Change, now: int)
    requires LastRows(t, rows)
    requires forall id: nat :: History(t, id) != [] ==>
               exists k :: 0 <= k < |rows| && rows[k] == LastOf(History(t, id)).value && rows[k].id == id
    ensures (exists k :: 0 <= k < |rows| && InScope(svc, scope, rows[k]) && now < rows[k].createdAt) <==>
            exists id: nat :: var h := History(t, id);
              h != [] && InScope(svc, scope, LastOf(h).value) && now < LastOf(h).value.createdAt
  {
    if k :| 0 <= k < |rows| && InScope(svc, scope, rows[k]) && now < rows[k].createdAt {
      assert LastOf(History(t, rows[k].id)) == Some(rows[k]);
    }
  }

  lemma RowListed(t: seq<Approval>, id: nat)
    requires TableInv(t) && History(t, id) != []
    ensures var rows := ListCurrent(t);
            exists k :: 0 <= k < |rows| && rows[k] == LastOf(History(t, id)).value && rows[k].id == id
  {
    var a := LastOf(History(t, id)).value;
    HistoryMembers(t, id);
    assert a in History(t, id);
    LatestIsLast(t, id);
    ListedIffLatest(t, a);
  }

  lemma CurrentRows(t: seq<Approval>)
    requires TableInv(t)
    ensures LastRows(t, ListCurrent(t))
  {
    var rows := ListCurrent(t);
    CurrentMembers(t, IdBound(t));
    forall k | 0 <= k < |rows|
      ensures LastOf(History(t, rows[k].id)) == Some(rows[k])
    {
      assert rows[k] in rows;
      LatestIsLast(t, rows[k].id);
    }
  }

  lemma RevokedAdvance(t: seq<Approval>, t': seq<Approval>, rows: seq<Approval>, svc: Service, scope: Change, now: int)
    requires TableInv(t) && LastRows(t, rows) && t <= t' && RevokedHistories(t, t', rows, svc, scope, now)
    requires !exists k :: 0 <= k < |rows| && InScope(svc, scope, rows[k]) && now < rows[k].createdAt
    requires forall id: nat :: History(t, id) != [] ==>
               exists k :: 0 <= k < |rows| && rows[k] == LastOf(History(t, id)).value && rows[k].id == id
    ensures Advances(t, t', now)
    ensures forall id: nat :: var h := History(t, id);
              History(t', id) ==
                if h != [] && InScope(svc, scope, LastOf(h).value)
                then h + [RevokedRow(LastOf(h).value, now, ChangeRevoked)] else h
  {
    forall id: nat
      ensures AdvancesAt(History(t, id), History(t', id), now)
      ensures var h := History(t, id);
              History(t', id) ==
                if h != [] && InScope(svc, scope, LastOf(h).value)
                then h + [RevokedRow(LastOf(h).value, now, ChangeRevoked)] else h
    {
      var h, h' := History(t, id), History(t', id);
      if h' != h {
        var k :| 0 <= k < |rows| && rows[k].id == id && InScope(svc, scope, rows[k])
                 && h' == h + [RevokedRow(rows[k], now, ChangeRevoked)];
        assert LastOf(h) == Some(rows[k]);
      } else if h != [] {
        var k :| 0 <= k < |rows| && rows[k] == LastOf(h).value && rows[k].id == id;
      }
    }
  }
}
