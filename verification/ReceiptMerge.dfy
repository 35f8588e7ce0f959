/** Merging receipts by identifier and putting them in order, as a projection of external execution does. */
module ReceiptMerge {
  import opened Basics
  import opened Operations
  import Sorting
  import Text

  // ---- merging receipts by identifier ----

  /** `d[r.id] = r` on a dictionary's values in insertion order. */
  function Put(values: seq<Receipt>, r: Receipt): seq<Receipt> {
    if values == [] then [r]
    else if values[0].id == r.id then [r] + values[1..] else [values[0]] + Put(values[1..], r)
  }

  function Values(rs: seq<Receipt>): seq<Receipt> {
    if rs == [] then [] else Put(Values(rs[..|rs| - 1]), rs[|rs| - 1])
  }

  /** The last receipt with this identifier. */
  function LastOf(rs: seq<Receipt>, id: string): Option<Receipt> {
    if rs == [] then None
    else if rs[|rs| - 1].id == id then Some(rs[|rs| - 1]) else LastOf(rs[..|rs| - 1], id)
  }

  ghost predicate DistinctIds(rs: seq<Receipt>) { forall i, j :: 0 <= i < j < |rs| ==> rs[i].id != rs[j].id }

  lemma {:induction false} PutMembers(values: seq<Receipt>, r: Receipt)
    requires DistinctIds(values)
    ensures DistinctIds(Put(values, r))
    ensures forall x :: x in Put(values, r) <==> x == r || (x in values && x.id != r.id)
  {
    if values != [] {
      var first, rest := values[0], values[1..];
      assert values == [first] + rest;
      RestDiffers(values);
      if first.id == r.id {
        ConsDistinct(r, rest);
      } else {
        PutMembers(rest, r);
        ConsDistinct(first, Put(rest, r));
      }
    }
  }

  lemma RestDiffers(values: seq<Receipt>)
    requires DistinctIds(values) && values != []
    ensures DistinctIds(values[1..]) && forall x :: x in values[1..] ==> x.id != values[0].id
  {
  }

  lemma ConsDistinct(x: Receipt, rest: seq<Receipt>)
    requires DistinctIds(rest) && forall y :: y in rest ==> y.id != x.id
    ensures DistinctIds([x] + rest)
  {
    assert forall k :: 0 <= k < |rest| ==> rest[k] in rest;
  }

  lemma {:induction false} ValuesAreLast(rs: seq<Receipt>)
    ensures DistinctIds(Values(rs))
    ensures forall x :: x in Values(rs) <==> LastOf(rs, x.id) == Some(x)
  {
    if rs != [] {
      var n := |rs| - 1;
      ValuesAreLast(rs[..n]);
      PutMembers(Values(rs[..n]), rs[n]);
    }
  }

  lemma {:induction false} LastOfConcat(a: seq<Receipt>, b: seq<Receipt>, id: string)
    ensures LastOf(a + b, id) == if LastOf(b, id).Some? then LastOf(b, id) else LastOf(a, id)
  {
    if b == [] {
      assert a + b == a;
    } else {
      assert (a + b)[..|a + b| - 1] == a + b[..|b| - 1];
      LastOfConcat(a, b[..|b| - 1], id);
    }
  }

  lemma {:induction false} LastOfIsMember(rs: seq<Receipt>, id: string)
    ensures LastOf(rs, id).Some? ==> LastOf(rs, id).value in rs && LastOf(rs, id).value.id == id
    ensures LastOf(rs, id).None? ==> forall x :: x in rs ==> x.id != id
  {
    if rs != [] {
      LastOfIsMember(rs[..|rs| - 1], id);
      assert rs == rs[..|rs| - 1] + [rs[|rs| - 1]];
    }
  }

  lemma LastOfDistinct(rs: seq<Receipt>, id: string)
    requires DistinctIds(rs)
    ensures forall x :: x in rs && x.id == id ==> LastOf(rs, id) == Some(x)
  {
    LastOfIsMember(rs, id);
    hide LastOf;
  }

  // ---- the merged receipts, by time and identifier ----

  function ByStart(): (Receipt, Receipt) -> bool {
    (a: Receipt, b: Receipt) => a.startedAt < b.startedAt || (a.startedAt == b.startedAt && Text.Leq(a.id, b.id))
  }

  lemma ByStartIsOrder()
    ensures Sorting.Order(ByStart())
  {
    var leq := ByStart();
    forall x, y ensures leq(x, y) || leq(y, x) { Text.LeqTotal(x.id, y.id); }
    forall x, y, z | leq(x, y) && leq(y, z) ensures leq(x, z) {
      if x.startedAt == y.startedAt == z.startedAt { Text.LeqTransitive(x.id, y.id, z.id); }
    }
  }

  function Merged(rs: seq<Receipt>): seq<Receipt> { Sorting.Sort(Values(rs), ByStart()) }

  lemma MergedIsLast(rs: seq<Receipt>)
    ensures DistinctIds(Merged(rs)) && Sorting.Ascending(Merged(rs), ByStart())
    ensures forall x :: x in Merged(rs) <==> LastOf(rs, x.id) == Some(x)
  {
    ValuesAreLast(rs);
    ByStartIsOrder();
    Sorting.SortKeeps(Values(rs), ByStart());
    Sorting.SortAscends(Values(rs), ByStart());
    SortDistinctIds(Values(rs));
  }

  lemma SortDistinctIds(a: seq<Receipt>)
    requires DistinctIds(a)
    ensures DistinctIds(Sorting.Sort(a, ByStart()))
  {
    var b := Sorting.Sort(a, ByStart());
    Sorting.SortKeeps(a, ByStart());
    Sorting.SortDistinct(a, ByStart());
    hide Sorting.Sort;
    forall i, j | 0 <= i < j < |b| ensures b[i].id != b[j].id {
      assert b[i] in b && b[j] in b;
      var k :| 0 <= k < |a| && a[k] == b[i];
      var l :| 0 <= l < |a| && a[l] == b[j];
    }
  }

  /** There is only one way to list given receipts in order. */
  lemma {:induction false} OrderedOnce(a: seq<Receipt>, b: seq<Receipt>)
    requires DistinctIds(a) && DistinctIds(b) && Sorting.Ascending(a, ByStart()) && Sorting.Ascending(b, ByStart())
    requires forall x :: x in a <==> x in b
    ensures a == b
  {
    if a == [] {
      assert forall k :: 0 <= k < |b| ==> b[k] in b;
    } else {
      assert a[0] in b;
      var j :| 0 <= j < |b| && b[j] == a[0];
      assert b[0] in a;
      var i :| 0 <= i < |a| && a[i] == b[0];
      SameFirst(a, b, i, j);
      SameRest(a, b);
      OrderedOnce(a[1..], b[1..]);
    }
  }

  lemma SameRest(a: seq<Receipt>, b: seq<Receipt>)
    requires a != [] && b != [] && a[0] == b[0] && DistinctIds(a) && DistinctIds(b)
    requires forall x :: x in a <==> x in b
    ensures forall x :: x in a[1..] <==> x in b[1..]
    ensures a == [a[0]] + a[1..] && b == [b[0]] + b[1..]
  {
    forall x ensures x in a[1..] <==> x in b[1..] {
      assert x in a[1..] <==> x in a && x != a[0];
      assert x in b[1..] <==> x in b && x != b[0];
    }
  }

  lemma SameFirst(a: seq<Receipt>, b: seq<Receipt>, i: nat, j: nat)
    requires Sorting.Ascending(a, ByStart()) && Sorting.Ascending(b, ByStart()) && DistinctIds(a)
    requires i < |a| && j < |b| && b[j] == a[0] && a[i] == b[0]
    ensures a[0] == b[0]
  {
    if i > 0 && j > 0 {
      assert ByStart()(a[0], a[i]) && ByStart()(b[0], b[j]);
      Text.LeqAntisymmetric(a[0].id, b[0].id);
    }
  }

  /** Merging in two steps is merging at once. */
  lemma MergeAgain(a: seq<Receipt>, b: seq<Receipt>)
    ensures Merged(Merged(a) + b) == Merged(a + b)
  {
    hide Merged, DistinctIds, Sorting.Ascending, LastOf;
    MergedIsLast(a);
    MergedIsLast(a + b);
    MergedIsLast(Merged(a) + b);
    forall x ensures x in Merged(Merged(a) + b) <==> x in Merged(a + b) {
      LastOfConcat(a, b, x.id);
      LastOfConcat(Merged(a), b, x.id);
      LastOfMerged(a, x.id);
    }
    OrderedOnce(Merged(Merged(a) + b), Merged(a + b));
  }

  lemma LastOfMerged(a: seq<Receipt>, id: string)
    ensures LastOf(Merged(a), id) == LastOf(a, id)
  {
    hide Merged, DistinctIds, Sorting.Ascending, LastOf;
    MergedIsLast(a);
    LastOfIsMember(a, id);
    LastOfIsMember(Merged(a), id);
    LastOfDistinct(Merged(a), id);
  }

  /** Receipts never change once made: one identifier, one receipt. */
  ghost predicate Immutable(rs: seq<Receipt>) { forall x, y :: x in rs && y in rs && x.id == y.id ==> x == y }

  /** Then the order, the grouping and the repetition of receipts do not matter. */
  lemma OrderDoesNotMatter(a: seq<Receipt>, b: seq<Receipt>)
    requires Immutable(a) && forall x :: x in a <==> x in b
    ensures Merged(a) == Merged(b)
  {
    hide Merged, DistinctIds, Sorting.Ascending, LastOf;
    MergedIsLast(a);
    MergedIsLast(b);
    forall x ensures x in Merged(a) <==> x in Merged(b) {
      LastOfIsMember(a, x.id);
      LastOfIsMember(b, x.id);
    }
    OrderedOnce(Merged(a), Merged(b));
  }
}
