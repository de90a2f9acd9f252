/** What one operation can do to the history of an approval. */
module ApprovalHistory {
  import opened Wrappers
  import opened WorkspaceRecords
  import opened ApprovalRules

  /** The rows of one approval in insertion order. */
  function History(t: seq<Approval>, id: nat): seq<Approval> {
    if t == [] then []
    else
      var n := |t| - 1;
      History(t[..n], id) + if t[n].id == id then [t[n]] else []
  }

  lemma {:induction false} HistoryMembers(t: seq<Approval>, id: nat)
    ensures forall a :: a in History(t, id) <==> a in t && a.id == id
  {
    if t != [] {
      var n := |t| - 1;
      HistoryMembers(t[..n], id);
      assert t == t[..n] + [t[n]];
    }
  }

  lemma HistoryAppend(t: seq<Approval>, a: Approval, id: nat)
    ensures History(t + [a], id) == if a.id == id then History(t, id) + [a] else History(t, id)
  {
    assert (t + [a])[..|t|] == t;
  }

  // ----- legal histories

  ghost predicate Requested(a: Approval) {
    && a.version == 1 && a.state.Pending? && a.key.None? && a.consumedAt.None? && a.revocation.None?
    && a.createdAt == a.updatedAt < a.expiresAt <= a.createdAt + DAY
  }

  ghost predicate ConfirmStep(p: Approval, a: Approval) {
    && p.state.Pending? && p.consumedAt.None?
    && a.key.Some? && a.key.value.ConfirmKey?
    && a == ConfirmedRow(p, a.updatedAt, a.key.value)
    && p.updatedAt <= a.updatedAt < p.expiresAt
  }

  ghost predicate ConsumeStep(p: Approval, a: Approval) {
    && p.state.Approved? && p.consumedAt.None?
    && a.key.Some? && a.key.value.ConsumeKey?
    && a == ConsumedRow(p, a.updatedAt, a.key.value)
    && p.updatedAt <= a.updatedAt < p.expiresAt
  }

  ghost predicate RevokeStep(p: Approval, a: Approval) {
    && !p.state.Revoked? && a.revocation.Some? && a.createdAt <= a.updatedAt
    && a == RevokedRow(p, a.updatedAt, a.revocation.value)
  }

  ghost predicate LegalStep(p: Approval, a: Approval) {
    ConfirmStep(p, a) || ConsumeStep(p, a) || RevokeStep(p, a)
  }

  ghost predicate LegalAppend(h: seq<Approval>, a: Approval) {
    if h == [] then Requested(a) else LegalStep(h[|h| - 1], a)
  }

  ghost predicate LegalHistory(h: seq<Approval>) {
    forall k {:trigger LegalAppend(h[..k], h[k])} :: 0 <= k < |h| ==> LegalAppend(h[..k], h[k])
  }

  lemma LegalHistoryAppend(h: seq<Approval>, a: Approval)
    requires LegalHistory(h) && LegalAppend(h, a)
    ensures LegalHistory(h + [a])
  {
    forall k | 0 <= k < |h + [a]|
      ensures LegalAppend((h + [a])[..k], (h + [a])[k])
    {
      assert (h + [a])[..k] == h[..k];
      assert h[..|h|] == h;
    }
  }

  lemma LegalPrefix(h: seq<Approval>, n: nat)
    requires LegalHistory(h) && n <= |h|
    ensures LegalHistory(h[..n])
  {
    forall k | 0 <= k < n
      ensures LegalAppend(h[..n][..k], h[..n][k])
    {
      assert h[..n][..k] == h[..k];
    }
  }

  /** How far an approval has come: requested, confirmed, consumed, revoked. */
  function Stage(a: Approval): nat {
    if a.state.Revoked? then 3 else if a.consumedAt.Some? then 2 else if a.state.Approved? then 1 else 0
  }

  lemma LegalAt(h: seq<Approval>, k: nat)
    requires LegalHistory(h) && k < |h|
    ensures k == 0 ==> Requested(h[0])
    ensures k > 0 ==> LegalStep(h[k - 1], h[k])
  {
    assert LegalAppend(h[..k], h[k]);
    if k > 0 {
      assert h[..k][k - 1] == h[k - 1];
    }
  }

  /**
    In a legal history versions count from one, binding, mode, creation and expiry never change,
    stages only go up, and a consumption instant is kept once set.
   */
  lemma {:induction false} HistoryFacts(h: seq<Approval>, i: nat, j: nat)
    requires LegalHistory(h) && i <= j < |h|
    ensures h[j].version == j + 1
    ensures h[j].id == h[0].id && h[j].binding == h[0].binding && h[j].mode == h[0].mode
    ensures h[j].createdAt == h[0].createdAt && h[j].expiresAt == h[0].expiresAt
    ensures i < j ==> Stage(h[i]) < Stage(h[j])
    ensures h[i].consumedAt.Some? ==> h[j].consumedAt == h[i].consumedAt
    ensures h[j].state in {Pending, Approved, Revoked}
    ensures h[j].consumedAt.Some? && !h[j].state.Revoked? ==> h[j].state.Approved?
  {
    LegalAt(h, j);
    if j > 0 {
      HistoryFacts(h, if i < j then i else j - 1, j - 1);
    }
  }

  /** A revoked row is the last of its history, and there are at most four rows. */
  lemma RevokedIsFinal(h: seq<Approval>, k: nat)
    requires LegalHistory(h) && k < |h|
    ensures h[k].state.Revoked? ==> k == |h| - 1
    ensures |h| <= 4
  {
    if k < |h| - 1 {
      HistoryFacts(h, k, k + 1);
    }
    if |h| > 4 {
      HistoryFacts(h, 0, 1);
      HistoryFacts(h, 1, 2);
      HistoryFacts(h, 2, 3);
      HistoryFacts(h, 3, 4);
      assert false;
    }
  }

  /** An approval is consumed by exactly one row, the third, after a request and a confirmation. */
  lemma ConsumedThird(h: seq<Approval>, k: nat)
    requires LegalHistory(h) && k < |h|
    requires h[k].consumedAt.Some?
    ensures 2 <= k && ConfirmStep(h[0], h[1]) && ConsumeStep(h[1], h[2])
    ensures h[k].consumedAt == Some(h[2].updatedAt)
    ensures forall i :: 0 <= i < |h| ==> (h[i].key.Some? && h[i].key.value.ConsumeKey? <==> i == 2)
  {
    LegalAt(h, 0);
    HistoryFacts(h, 0, k);
    if k >= 1 { LegalAt(h, 1); HistoryFacts(h, 0, 1); }
    if k >= 2 { LegalAt(h, 2); HistoryFacts(h, 1, 2); }
    if k >= 3 { LegalAt(h, 3); HistoryFacts(h, 2, 3); }
    RevokedIsFinal(h, k);
    if |h| > 3 { LegalAt(h, 3); RevokedIsFinal(h, 3); HistoryFacts(h, 2, 3); }
  }

  /** A row that carries a consume key is the third of its history. */
  lemma ConsumeKeyThird(h: seq<Approval>, k: nat)
    requires LegalHistory(h) && k < |h|
    requires h[k].key.Some? && h[k].key.value.ConsumeKey?
    ensures k == 2 && h[2].consumedAt == Some(h[2].updatedAt) && ConsumeStep(h[1], h[2])
  {
    LegalAt(h, k);
    ConsumedThird(h, k);
  }

  // ----- the table

  ghost predicate KeysUnique(t: seq<Approval>) {
    forall i, j :: 0 <= i < j < |t| ==> t[i].key.Some? ==> t[i].key != t[j].key
  }

  ghost predicate TableInv(t: seq<Approval>) {
    KeysUnique(t) && forall id: nat :: LegalHistory(History(t, id))
  }

  /** The latest row is the last of the history. */
  lemma {:induction false} LatestIsLast(t: seq<Approval>, id: nat)
    requires LegalHistory(History(t, id))
    ensures Latest(t, id) == LastOf(History(t, id))
  {
    if t != [] {
      var n := |t| - 1;
      var h := History(t, id);
      var before := History(t[..n], id);
      if t[n].id == id {
        assert h == before + [t[n]];
        assert h[..|h| - 1] == before;
        LegalPrefix(h, |h| - 1);
        LatestIsLast(t[..n], id);
        HistoryFacts(h, 0, |h| - 1);
        if before != [] {
          HistoryFacts(h, 0, |h| - 2);
        }
      } else {
        assert h == before;
        LatestIsLast(t[..n], id);
      }
    }
  }

  function LastOf(h: seq<Approval>): Option<Approval> { if h == [] then None else Some(h[|h| - 1]) }

  /** A legal next row with an unused receipt key meets no uniqueness constraint. */
  lemma LegalRowIsUnique(t: seq<Approval>, a: Approval)
    requires TableInv(t) && LegalAppend(History(t, a.id), a)
    requires a.id == (if History(t, a.id) == [] then a.id else History(t, a.id)[0].id)
    requires a.key.Some? ==> forall i :: 0 <= i < |t| ==> t[i].key != a.key
    ensures KeyFree(t, a)
  {
    var h := History(t, a.id);
    LegalHistoryAppend(h, a);
    forall i | 0 <= i < |t|
      ensures (t[i].id, t[i].version) != (a.id, a.version)
    {
      if t[i].id == a.id {
        HistoryMembers(t, a.id);
        assert t[i] in h;
        var k :| 0 <= k < |h| && h[k] == t[i];
        HistoryFacts(h, k, k);
        HistoryFacts(h + [a], 0, |h|);
      }
    }
  }

  /** One operation lengthens any one history by at most one row, and legally. */
  ghost predicate Advances(t: seq<Approval>, t': seq<Approval>, now: int) {
    && t <= t'
    && forall id: nat {:trigger History(t', id)} :: AdvancesAt(History(t, id), History(t', id), now)
  }

  ghost predicate AdvancesAt(h: seq<Approval>, h': seq<Approval>, now: int) {
    || h' == h
    || (h' != [] && h == h'[..|h'| - 1] && LegalAppend(h, h'[|h'| - 1]) && h'[|h'| - 1].updatedAt == now)
  }

  lemma AdvanceByOne(t: seq<Approval>, a: Approval)
    requires LegalAppend(History(t, a.id), a)
    ensures Advances(t, t + [a], a.updatedAt)
  {
    forall id: nat
      ensures AdvancesAt(History(t, id), History(t + [a], id), a.updatedAt)
    {
      HistoryAppend(t, a, id);
      var h := History(t, id);
      assert (h + [a])[..|h|] == h;
    }
  }

  lemma AdvanceKeepsInv(t: seq<Approval>, t': seq<Approval>, now: int)
    requires TableInv(t) && Advances(t, t', now) && KeysUnique(t')
    ensures TableInv(t')
  {
    forall id: nat
      ensures LegalHistory(History(t', id))
    {
      var h, h' := History(t, id), History(t', id);
      assert AdvancesAt(h, h', now);
      if h' != h {
        LegalHistoryAppend(h, h'[|h'| - 1]);
        assert h' == h + [h'[|h'| - 1]];
      }
    }
  }

  lemma PutKeepsKeys(t: seq<Approval>, a: Approval)
    requires KeysUnique(t) && Put(t, a).Ok?
    ensures KeysUnique(Put(t, a).value)
  {
  }

  // ----- the operations on a table that satisfies the invariant

  /** Appending one legal row with a free key succeeds and keeps the invariant. */
  lemma PutLegal(t: seq<Approval>, a: Approval)
    requires TableInv(t) && LegalAppend(History(t, a.id), a) && a.createdAt <= a.updatedAt
    requires a.key.Some? ==> forall i :: 0 <= i < |t| ==> t[i].key != a.key
    ensures Put(t, a) == Ok(t + [a])
    ensures TableInv(t + [a]) && Advances(t, t + [a], a.updatedAt)
  {
    var h := History(t, a.id);
    if h != [] {
      HistoryFacts(h, 0, |h| - 1);
      HistoryMembers(t, a.id);
      assert h[0] in h;
    }
    LegalHistoryAppend(h, a);
    HistoryFacts(h + [a], 0, |h|);
    LegalRowIsUnique(t, a);
    PutKeepsKeys(t, a);
    AdvanceByOne(t, a);
    AdvanceKeepsInv(t, t + [a], a.updatedAt);
  }

  /** An approval that a service may act on: the last row, live, bound to current versions. */
  ghost predicate Actionable(
    db: Db, svc: Service, id: nat, expected: Binding, now: int, pendingAllowed: bool, a: Approval)
  {
    && LastOf(History(db.approvals, id)) == Some(a)
    && a.binding == expected && a.mode == svc.mode
    && a.updatedAt <= now < a.expiresAt
    && a.consumedAt.None?
    && UpToDate(db, expected.snapshot)
    && (a.state.Approved? || (pendingAllowed && a.state.Pending?))
  }

  lemma BindingAgrees(actual: Binding, expected: Binding)
    ensures BindingReason(actual, expected).None? <==> actual == expected
  {
  }

  /** What a finding is based on. */
  lemma InspectedRecord(
    db: Db, svc: Service, id: nat, expected: Binding, now: int, oracle: Oracle, pendingAllowed: bool)
    requires TableInv(db.approvals)
    ensures var f := Inspect(db, svc, id, expected, now, oracle, pendingAllowed);
            && f.record == LastOf(History(db.approvals, id))
            && (f.actionable ==>
                  f.revoke.None? && f.record.Some?
                  && Actionable(db, svc, id, expected, now, pendingAllowed, f.record.value))
            && (f.revoke.Some? ==>
                  f.record.Some? && f.record.value.updatedAt <= now && !f.record.value.state.Revoked?)
  {
    LatestIsLast(db.approvals, id);
    var last := LastOf(History(db.approvals, id));
    if last.Some? {
      BindingAgrees(last.value.binding, expected);
    }
  }

  /** No row is older than the request. */
  lemma {:induction false} UpdatedAfterCreated(h: seq<Approval>, k: nat)
    requires LegalHistory(h) && k < |h|
    ensures h[k].createdAt <= h[k].updatedAt
  {
    LegalAt(h, k);
    if k > 0 {
      UpdatedAfterCreated(h, k - 1);
    }
  }
}
