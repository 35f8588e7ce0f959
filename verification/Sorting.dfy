/** Python's stable `sorted(xs, key=...)`, for a key order given as a relation. */
module Sorting {
  import opened Basics

  ghost predicate Order<T(!new)>(leq: (T, T) -> bool) {
    && (forall x, y :: leq(x, y) || leq(y, x))
    && (forall x, y, z :: leq(x, y) && leq(y, z) ==> leq(x, z))
  }

  ghost predicate Ascending<T>(xs: seq<T>, leq: (T, T) -> bool) {
    forall i, j :: 0 <= i < j < |xs| ==> leq(xs[i], xs[j])
  }

  function Insert<T>(x: T, xs: seq<T>, leq: (T, T) -> bool): (r: seq<T>) {
    if xs == [] || leq(x, xs[0]) then [x] + xs else [xs[0]] + Insert(x, xs[1..], leq)
  }

  function Sort<T>(xs: seq<T>, leq: (T, T) -> bool): (r: seq<T>) {
    if xs == [] then [] else Insert(xs[0], Sort(xs[1..], leq), leq)
  }

  lemma {:induction false} InsertKeeps<T>(x: T, xs: seq<T>, leq: (T, T) -> bool)
    ensures multiset(Insert(x, xs, leq)) == multiset{x} + multiset(xs)
  {
    if xs != [] && !leq(x, xs[0]) {
      InsertKeeps(x, xs[1..], leq);
      assert xs == [xs[0]] + xs[1..];
    }
  }

  lemma {:induction false} InsertAscends<T(!new)>(x: T, xs: seq<T>, leq: (T, T) -> bool)
    requires Order(leq) && Ascending(xs, leq)
    ensures Ascending(Insert(x, xs, leq), leq)
  {
    if xs != [] && !leq(x, xs[0]) {
      var r := Insert(x, xs[1..], leq);
      InsertAscends(x, xs[1..], leq);
      InsertKeeps(x, xs[1..], leq);
      forall k | 0 <= k < |r| ensures leq(xs[0], r[k]) {
        assert r[k] in multiset(r);
        assert r[k] == x || r[k] in xs[1..];
      }
    } else if xs != [] {
      assert forall k :: 1 <= k < |xs| ==> leq(xs[0], xs[k]);
    }
  }

  lemma {:induction false} SortPermutes<T>(xs: seq<T>, leq: (T, T) -> bool)
    ensures multiset(Sort(xs, leq)) == multiset(xs)
  {
    if xs != [] {
      hide Insert;
      SortPermutes(xs[1..], leq);
      InsertKeeps(xs[0], Sort(xs[1..], leq), leq);
      assert xs == [xs[0]] + xs[1..];
    }
  }

  lemma SameBag<T>(a: seq<T>, b: seq<T>)
    requires multiset(a) == multiset(b)
    ensures |a| == |b| && forall x :: x in a <==> x in b
  {
    assert |multiset(a)| == |a| && |multiset(b)| == |b|;
    forall x ensures x in a <==> x in b { assert x in a <==> x in multiset(a); }
  }

  lemma SortKeeps<T>(xs: seq<T>, leq: (T, T) -> bool)
    ensures multiset(Sort(xs, leq)) == multiset(xs)
    ensures |Sort(xs, leq)| == |xs|
    ensures forall x :: x in Sort(xs, leq) <==> x in xs
  {
    hide Sort;
    SortPermutes(xs, leq);
    SameBag(Sort(xs, leq), xs);
  }

  lemma {:induction false} SortAscends<T(!new)>(xs: seq<T>, leq: (T, T) -> bool)
    requires Order(leq)
    ensures Ascending(Sort(xs, leq), leq)
  {
    if xs != [] {
      SortAscends(xs[1..], leq);
      InsertAscends(xs[0], Sort(xs[1..], leq), leq);
    }
  }

  lemma TwiceInSequence<T>(b: seq<T>, i: nat, j: nat)
    requires i < j < |b| && b[i] == b[j]
    ensures multiset(b)[b[i]] >= 2
  {
    assert b == b[..j] + [b[j]] + b[j + 1..];
    assert b[..j][i] == b[i];
  }

  lemma OnceInSequence<T>(a: seq<T>, k: nat)
    requires Distinct(a) && k < |a|
    ensures multiset(a)[a[k]] == 1
  {
    assert a == a[..k] + [a[k]] + a[k + 1..];
    assert a[k] !in a[..k] && a[k] !in a[k + 1..];
  }

  lemma SortDistinct<T>(xs: seq<T>, leq: (T, T) -> bool)
    requires Distinct(xs)
    ensures Distinct(Sort(xs, leq))
  {
    SortKeeps(xs, leq);
    var r := Sort(xs, leq);
    forall i, j | 0 <= i < j < |r| ensures r[i] != r[j] {
      assert r[i] in multiset(r);
      var k :| 0 <= k < |xs| && xs[k] == r[i];
      OnceInSequence(xs, k);
      if r[i] == r[j] { TwiceInSequence(r, i, j); }
    }
  }

  lemma SortedPair<T>(a: T, b: T, leq: (T, T) -> bool)
    requires leq(a, b)
    ensures Sort([a, b], leq) == [a, b]
  {
    assert [a, b][1..] == [b] && [b][1..] == [];
    assert Sort([b], leq) == [b];
  }
}
