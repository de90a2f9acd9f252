/** src/qualor/hosted/capabilities.py: the bounded cache against the full history of issues. */
module CapabilityCache {
  import opened Wrappers

  /** A stored token digest, kept as the token itself, and its expiry. */
  datatype Entry = Entry(token: string, expiry: int)

  datatype Issued = Issued(token: string, at: int)

  predicate Plausible(token: string) { 0 < |token| <= 1024 }

  /** Every entry that has not expired, in order. */
  function Prune(entries: seq<Entry>, now: int): seq<Entry> {
    if entries == [] then []
    else
      var n := |entries| - 1;
      Prune(entries[..n], now) + if entries[n].expiry <= now then [] else [entries[n]]
  }

  predicate Stored(entries: seq<Entry>, token: string) {
    exists i :: 0 <= i < |entries| && entries[i].token == token
  }

  // ----- refinement

  function Stamp(i: Issued, ttl: int): Entry { Entry(i.token, i.at + ttl) }

  /** The entries are the issues from position `d` on. */
  ghost predicate IssuesFrom(entries: seq<Entry>, history: seq<Issued>, d: nat, ttl: int) {
    && d + |entries| == |history|
    && forall i :: 0 <= i < |entries| ==> entries[i] == Stamp(history[d + i], ttl)
  }

  ghost predicate Ordered(history: seq<Issued>, clock: int) {
    && (forall i, j :: 0 <= i < j < |history| ==> history[i].at <= history[j].at)
    && (forall i :: 0 <= i < |history| ==> history[i].at <= clock)
  }

  /** The stored entries are the last issues: at most `maximum`, and every older one is expired or crowded out. */
  ghost predicate Refines(entries: seq<Entry>, history: seq<Issued>, ttl: int, maximum: nat, clock: int) {
    && |entries| <= maximum && |entries| <= |history|
    && IssuesFrom(entries, history, |history| - |entries|, ttl)
    && Ordered(history, clock)
    && (|entries| < |history| ==>
          |entries| == maximum || history[|history| - |entries| - 1].at + ttl <= clock)
  }

  /** An issue of the token is younger than the time to live and fewer than `maximum` came after it. */
  ghost predicate Current(history: seq<Issued>, token: string, ttl: int, maximum: nat, now: int) {
    exists i :: 0 <= i < |history| && history[i].token == token && now < history[i].at + ttl
                && |history| - 1 - i < maximum
  }

  /** Expiries never decrease along the entries. */
  ghost predicate Ascending(entries: seq<Entry>) {
    forall i, j :: 0 <= i < j < |entries| ==> entries[i].expiry <= entries[j].expiry
  }

  /** Pruning drops a prefix of ascending entries. */
  lemma {:induction false} PruneDropsPrefix(entries: seq<Entry>, now: int) returns (k: nat)
    requires Ascending(entries)
    ensures k <= |entries| && Prune(entries, now) == entries[k..]
    ensures forall i :: 0 <= i < k ==> entries[i].expiry <= now
    ensures forall i :: k <= i < |entries| ==> entries[i].expiry > now
  {
    if entries == [] || entries[|entries| - 1].expiry <= now {
      k := |entries|;
      NoneKept(entries, now);
    } else {
      var front, last := entries[..|entries| - 1], entries[|entries| - 1];
      k := PruneDropsPrefix(front, now);
      assert entries[k..] == front[k..] + [last];
      assert forall i :: 0 <= i < |front| ==> entries[i] == front[i];
    }
  }

  lemma {:induction false} NoneKept(entries: seq<Entry>, now: int)
    requires forall i :: 0 <= i < |entries| ==> entries[i].expiry <= now
    ensures Prune(entries, now) == []
  {
    if entries != [] {
      NoneKept(entries[..|entries| - 1], now);
    }
  }

  lemma IssuesAscend(entries: seq<Entry>, history: seq<Issued>, d: nat, ttl: int, clock: int)
    requires IssuesFrom(entries, history, d, ttl) && Ordered(history, clock)
    ensures Ascending(entries)
  {
    forall i, j | 0 <= i < j < |entries| ensures entries[i].expiry <= entries[j].expiry {
      assert history[d + i].at <= history[d + j].at;
    }
  }

  lemma PruneRefines(entries: seq<Entry>, history: seq<Issued>, ttl: int, maximum: nat, clock: int, now: int)
    requires Refines(entries, history, ttl, maximum, clock) && clock <= now
    ensures Refines(Prune(entries, now), history, ttl, maximum, now)
    ensures forall i :: 0 <= i < |Prune(entries, now)| ==> Prune(entries, now)[i].expiry > now
  {
    IssuesAscend(entries, history, |history| - |entries|, ttl, clock);
    var k := PruneDropsPrefix(entries, now);
    DropRefines(entries, history, ttl, maximum, clock, now, k);
  }

  /** Dropping a prefix of expired entries keeps the refinement. */
  lemma DropRefines(
    entries: seq<Entry>, history: seq<Issued>, ttl: int, maximum: nat, clock: int, now: int, k: nat)
    requires Refines(entries, history, ttl, maximum, clock) && clock <= now && k <= |entries|
    requires k > 0 ==> entries[k - 1].expiry <= now
    ensures Refines(entries[k..], history, ttl, maximum, now)
  {
    var kept := entries[k..];
    var d := |history| - |entries|;
    assert |history| - |kept| == d + k;
    forall i | 0 <= i < |kept| ensures kept[i] == Stamp(history[d + k + i], ttl) {
      assert kept[i] == entries[k + i];
    }
    if k > 0 {
      assert entries[k - 1] == Stamp(history[d + (k - 1)], ttl);
    }
  }

  /** After pruning, a token is stored exactly when its history makes it current. */
  lemma StoredIffCurrent(
    entries: seq<Entry>, history: seq<Issued>, token: string, ttl: int, maximum: nat, clock: int, now: int)
    requires Refines(entries, history, ttl, maximum, clock) && clock <= now
    ensures Stored(Prune(entries, now), token) <==> Current(history, token, ttl, maximum, now)
  {
    PruneRefines(entries, history, ttl, maximum, clock, now);
    StoredIffListed(Prune(entries, now), history, token, ttl, maximum, now);
  }

  lemma StoredIffListed(kept: seq<Entry>, history: seq<Issued>, token: string, ttl: int, maximum: nat, now: int)
    requires Refines(kept, history, ttl, maximum, now)
    requires forall i :: 0 <= i < |kept| ==> kept[i].expiry > now
    ensures Stored(kept, token) <==> Current(history, token, ttl, maximum, now)
  {
    var d := |history| - |kept|;
    if Stored(kept, token) {
      var k :| 0 <= k < |kept| && kept[k].token == token;
      assert kept[k] == Stamp(history[d + k], ttl);
      assert |history| - 1 - (d + k) < maximum;
    }
    forall i | 0 <= i < d ensures history[i].at + ttl <= now || |history| - 1 - i >= maximum {
      assert i == d - 1 || history[i].at <= history[d - 1].at;
    }
    if Current(history, token, ttl, maximum, now) {
      var i :| 0 <= i < |history| && history[i].token == token && now < history[i].at + ttl
               && |history| - 1 - i < maximum;
      assert kept[i - d] == Stamp(history[d + (i - d)], ttl);
    }
  }

  /** The entries after an issue, before eviction. */
  function WithIssue(entries: seq<Entry>, token: string, now: int, ttl: int): seq<Entry> {
    Prune(entries, now) + [Entry(token, now + ttl)]
  }

  /** The last `maximum` entries. */
  function Newest(entries: seq<Entry>, maximum: nat): seq<Entry> {
    entries[if |entries| > maximum then |entries| - maximum else 0..]
  }

  lemma DropOne(entries: seq<Entry>, d: nat)
    requires d < |entries|
    ensures entries[d..][1..] == entries[d + 1..]
  {
  }

  /** Evicting the oldest entries over the maximum restores the refinement. */
  lemma IssueRefines(
    entries: seq<Entry>, history: seq<Issued>, token: string, ttl: int, maximum: nat, clock: int, now: int)
    requires Refines(entries, history, ttl, maximum, clock) && clock <= now && maximum >= 1
    ensures Refines(Newest(WithIssue(entries, token, now, ttl), maximum), history + [Issued(token, now)], ttl,
        maximum, now)
  {
    PruneRefines(entries, history, ttl, maximum, clock, now);
    AppendRefines(Prune(entries, now), history, token, ttl, maximum, now);
  }

  lemma AppendRefines(kept: seq<Entry>, history: seq<Issued>, token: string, ttl: int, maximum: nat, now: int)
    requires Refines(kept, history, ttl, maximum, now) && maximum >= 1
    ensures Refines(Newest(kept + [Entry(token, now + ttl)], maximum), history + [Issued(token, now)], ttl, maximum,
        now)
  {
    var added := kept + [Entry(token, now + ttl)];
    var longer := history + [Issued(token, now)];
    var over := if |added| > maximum then |added| - maximum else 0;
    var left := added[over..];
    var d := |history| - |kept|;
    assert |longer| - |left| == d + over;
    forall i | 0 <= i < |left| ensures left[i] == Stamp(longer[d + over + i], ttl) {
      assert left[i] == added[over + i];
      if over + i < |kept| {
        assert kept[over + i] == Stamp(history[d + (over + i)], ttl);
      }
    }
  }

  class HostedActionCapabilities {
    const ttl: int
    const maximum: nat
    var entries: seq<Entry>
    ghost var history: seq<Issued>
    ghost var clock: int

    ghost predicate Valid()
      reads this
    {
      ttl > 0 && maximum >= 1 && Refines(entries, history, ttl, maximum, clock)
    }

    constructor (ttl: int, maximum: nat, ghost start: int)
      requires ttl > 0 && maximum >= 1
      ensures Valid() && this.ttl == ttl && this.maximum == maximum && history == [] && clock == start
    {
      this.ttl, this.maximum := ttl, maximum;
      entries, history, clock := [], [], start;
    }

    method PruneEntries(now: int)
      modifies this`entries
      ensures entries == Prune(old(entries), now)
    {
      var kept: seq<Entry> := [];
      for k := 0 to |entries|
        invariant entries == old(entries)
        invariant kept == Prune(entries[..k], now)
      {
        assert entries[..k + 1][..k] == entries[..k];
        if entries[k].expiry > now {
          kept := kept + [entries[k]];
        }
      }
      assert entries[..|entries|] == entries;
      entries := kept;
    }

    method Contains(token: string) returns (matched: bool)
      ensures matched <==> Stored(entries, token)
    {
      matched := false;
      for k := 0 to |entries|
        invariant matched <==> exists i :: 0 <= i < k && entries[i].token == token
      {
        matched := entries[k].token == token || matched;
      }
    }

    /** The first draw that is not stored. */
    method DrawUnused(draws: seq<string>) returns (token: string)
      requires exists i :: 0 <= i < |draws| && !Stored(entries, draws[i])
      ensures exists k :: 0 <= k < |draws| && draws[k] == token && !Stored(entries, token)
                          && forall j :: 0 <= j < k ==> Stored(entries, draws[j])
    {
      ghost var free :| 0 <= free < |draws| && !Stored(entries, draws[free]);
      var k := 0;
      var taken := Contains(draws[0]);
      while taken
        invariant k <= free < |draws|
        invariant taken <==> Stored(entries, draws[k])
        invariant forall j :: 0 <= j < k ==> Stored(entries, draws[j])
        decreases |draws| - k
      {
        k := k + 1;
        taken := Contains(draws[k]);
      }
      token := draws[k];
    }

    /** Adds the entry at the end and evicts from the front down to the maximum. */
    method Admit(entry: Entry)
      modifies this`entries
      ensures entries == Newest(old(entries) + [entry], maximum)
    {
      entries := entries + [entry];
      ghost var added, d := entries, 0;
      while |entries| > maximum
        invariant d <= |added| && entries == added[d..]
        invariant d == 0 || |entries| >= maximum
      {
        DropOne(added, d);
        entries := entries[1..];
        d := d + 1;
      }
    }

    /** `draws` is what the random source would return; some draw is not stored. */
    method Issue(now: int, draws: seq<string>) returns (token: string)
      requires Valid() && clock <= now
      requires exists i :: 0 <= i < |draws| && !Stored(Prune(entries, now), draws[i])
      requires forall i :: 0 <= i < |draws| ==> Plausible(draws[i])
      modifies this
      ensures Valid() && clock == now && token in draws
      ensures history == old(history) + [Issued(token, now)]
      ensures !old(Current(history, token, ttl, maximum, now))
    {
      ghost var stale := entries;
      PruneEntries(now);
      token := DrawUnused(draws);
      StoredIffCurrent(stale, history, token, ttl, maximum, clock, now);
      IssueRefines(stale, history, token, ttl, maximum, clock, now);
      Admit(Entry(token, now + ttl));
      history, clock := history + [Issued(token, now)], now;
    }

    /** True exactly when some issue of the token is young enough and recent enough. */
    method Validate(token: string, now: int) returns (matched: bool)
      requires Valid() && clock <= now
      modifies this
      ensures Valid() && history == old(history) && clock == now
      ensures matched <==> Plausible(token) && Current(history, token, ttl, maximum, now)
    {
      StoredIffCurrent(entries, history, token, ttl, maximum, clock, now);
      PruneRefines(entries, history, ttl, maximum, clock, now);
      if !Plausible(token) {
        clock := now;
        LaterClock(entries, history, ttl, maximum, old(clock), now);
        return false;
      }
      PruneEntries(now);
      clock := now;
      matched := Contains(token);
    }

    method Size(now: int) returns (n: nat)
      requires Valid() && clock <= now
      modifies this
      ensures Valid() && history == old(history) && clock == now
      ensures n == |entries| && n <= maximum
      ensures forall i :: 0 <= i < n ==> entries[i].expiry > now
    {
      PruneRefines(entries, history, ttl, maximum, clock, now);
      PruneEntries(now);
      clock := now;
      n := |entries|;
    }
  }

  lemma LaterClock(entries: seq<Entry>, history: seq<Issued>, ttl: int, maximum: nat, clock: int, now: int)
    requires Refines(entries, history, ttl, maximum, clock) && clock <= now
    ensures Refines(entries, history, ttl, maximum, now)
  {
  }
}
