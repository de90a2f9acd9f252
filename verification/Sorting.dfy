/** Stable sorting by a key that is compared position by position, as tuples are. */
module Sorting {

  predicate LexLess(a: seq<int>, b: seq<int>) {
    if b == [] then false
    else if a == [] then true
    else if a[0] != b[0] then a[0] < b[0]
    else LexLess(a[1..], b[1..])
  }

  lemma {:induction false} LexOrder(a: seq<int>, b: seq<int>, c: seq<int>)
    ensures LexLess(a, b) ==> !LexLess(b, a)
    ensures !LexLess(a, b) && !LexLess(b, c) ==> !LexLess(a, c)
  {
    if a != [] && b != [] && c != [] {
      LexOrder(a[1..], b[1..], c[1..]);
    } else if a != [] && b != [] {
      LexOrder(a[1..], b[1..], c);
    }
  }

  function Insert<T>(key: T -> seq<int>, sorted: seq<T>, x: T): seq<T> {
    if sorted == [] || !LexLess(key(x), key(sorted[|sorted| - 1])) then sorted + [x]
    else Insert(key, sorted[..|sorted| - 1], x) + [sorted[|sorted| - 1]]
  }

  function Sort<T>(key: T -> seq<int>, items: seq<T>): seq<T> {
    if items == [] then [] else Insert(key, Sort(key, items[..|items| - 1]), items[|items| - 1])
  }

  ghost predicate Sorted<T>(key: T -> seq<int>, items: seq<T>) {
    forall i, j :: 0 <= i < j < |items| ==> !LexLess(key(items[j]), key(items[i]))
  }

  lemma SortedAppend<T>(key: T -> seq<int>, items: seq<T>, x: T)
    requires Sorted(key, items)
    requires forall i :: 0 <= i < |items| ==> !LexLess(key(x), key(items[i]))
    ensures Sorted(key, items + [x])
  {
  }

  lemma {:induction false} InsertMeaning<T>(key: T -> seq<int>, sorted: seq<T>, x: T)
    requires Sorted(key, sorted)
    ensures multiset(Insert(key, sorted, x)) == multiset(sorted) + multiset{x}
    ensures Sorted(key, Insert(key, sorted, x))
  {
    if sorted != [] {
      var n := |sorted| - 1;
      assert sorted == sorted[..n] + [sorted[n]];
      if LexLess(key(x), key(sorted[n])) {
        InsertMeaning(key, sorted[..n], x);
        var front := Insert(key, sorted[..n], x);
        LexOrder(key(x), key(sorted[n]), []);
        forall i | 0 <= i < |front| ensures !LexLess(key(sorted[n]), key(front[i])) {
          assert front[i] in multiset(front);
          assert front[i] == x || front[i] in multiset(sorted[..n]);
        }
        SortedAppend(key, front, sorted[n]);
      } else {
        forall i | 0 <= i < |sorted| ensures !LexLess(key(x), key(sorted[i])) {
          if i < n { LexOrder(key(x), key(sorted[n]), key(sorted[i])); }
        }
        SortedAppend(key, sorted, x);
      }
    }
  }

  /** Sorting keeps every element as often as it was there, and puts none before a smaller one. */
  lemma {:induction false} SortMeaning<T>(key: T -> seq<int>, items: seq<T>)
    ensures multiset(Sort(key, items)) == multiset(items)
    ensures Sorted(key, Sort(key, items))
  {
    if items != [] {
      var n := |items| - 1;
      SortMeaning(key, items[..n]);
      InsertMeaning(key, Sort(key, items[..n]), items[n]);
      assert items == items[..n] + [items[n]];
    }
  }

  // ----- counting

  function Count<T>(p: T -> bool, items: seq<T>): nat {
    if items == [] then 0 else Count(p, items[..|items| - 1]) + if p(items[|items| - 1]) then 1 else 0
  }

  lemma {:induction false} CountAppend<T>(p: T -> bool, a: seq<T>, b: seq<T>)
    ensures Count(p, a + b) == Count(p, a) + Count(p, b)
  {
    if b == [] {
      assert a + b == a;
    } else {
      assert (a + b)[..|a + b| - 1] == a + b[..|b| - 1];
      CountAppend(p, a, b[..|b| - 1]);
    }
  }

  lemma WithoutOne<T>(items: seq<T>, j: nat)
    requires j < |items|
    ensures multiset(items[..j] + items[j + 1..]) == multiset(items) - multiset{items[j]}
  {
    assert items == items[..j] + [items[j]] + items[j + 1..];
  }

  lemma CountWithoutOne<T>(p: T -> bool, items: seq<T>, j: nat)
    requires j < |items|
    ensures Count(p, items) == Count(p, items[..j] + items[j + 1..]) + if p(items[j]) then 1 else 0
  {
    assert items == items[..j] + ([items[j]] + items[j + 1..]);
    CountAppend(p, items[..j], [items[j]] + items[j + 1..]);
    CountAppend(p, [items[j]], items[j + 1..]);
    CountAppend(p, items[..j], items[j + 1..]);
    assert [items[j]][..0] == [];
  }

  /** A permutation has as many. */
  lemma {:induction false} CountPermutation<T>(p: T -> bool, a: seq<T>, b: seq<T>)
    requires multiset(a) == multiset(b)
    ensures Count(p, a) == Count(p, b)
  {
    if a == [] {
      assert |multiset(a)| == |a| && |multiset(b)| == |b|;
    } else {
      var n := |a| - 1;
      assert a[n] in multiset(b);
      var j :| 0 <= j < |b| && b[j] == a[n];
      WithoutOne(a, n);
      WithoutOne(b, j);
      assert a[..n] + a[n + 1..] == a[..n];
      CountPermutation(p, a[..n], b[..j] + b[j + 1..]);
      CountWithoutOne(p, b, j);
    }
  }

  /** Where at most one is counted, two positions that count are the same. */
  lemma {:induction false} CountedOnce<T>(p: T -> bool, items: seq<T>, i: nat, j: nat)
    requires i < j < |items| && p(items[i]) && p(items[j])
    ensures Count(p, items) >= 2
  {
    var n := |items| - 1;
    if j < n {
      CountedOnce(p, items[..n], i, j);
    } else {
      CountedSome(p, items[..n], i);
    }
  }

  lemma {:induction false} CountedSome<T>(p: T -> bool, items: seq<T>, i: nat)
    requires i < |items| && p(items[i])
    ensures Count(p, items) >= 1
  {
    var n := |items| - 1;
    if i < n {
      CountedSome(p, items[..n], i);
    }
  }

  lemma {:induction false} CountedWitness<T>(p: T -> bool, items: seq<T>) returns (i: nat)
    requires Count(p, items) >= 1
    ensures i < |items| && p(items[i])
  {
    var n := |items| - 1;
    if p(items[n]) {
      i := n;
    } else {
      i := CountedWitness(p, items[..n]);
    }
  }

  lemma {:induction false} CountedTwice<T>(p: T -> bool, items: seq<T>) returns (i: nat, j: nat)
    requires Count(p, items) >= 2
    ensures i < j < |items| && p(items[i]) && p(items[j])
  {
    var n := |items| - 1;
    if p(items[n]) {
      i := CountedWitness(p, items[..n]);
      j := n;
    } else {
      i, j := CountedTwice(p, items[..n]);
    }
  }

  lemma {:induction false} CountedNone<T>(p: T -> bool, items: seq<T>)
    requires forall i :: 0 <= i < |items| ==> !p(items[i])
    ensures Count(p, items) == 0
  {
    if items != [] {
      var front := items[..|items| - 1];
      forall i | 0 <= i < |front| ensures !p(front[i]) {
        assert front[i] == items[i];
      }
      CountedNone(p, front);
    }
  }
}
