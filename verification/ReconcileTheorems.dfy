/** Reconciling receipts is a projection: the batches' order, grouping and repetition leave no trace. */
module ReconcileTheorems {
  import opened Basics
  import opened Operations
  import opened ReceiptMerge
  import opened Reconcile
  import Text

  lemma StatusesPointwise(actions: seq<Action>, merged: seq<Receipt>, current: set<Id>)
    ensures var r := Statuses(actions, merged, current);
      |r| == |actions| && forall i :: 0 <= i < |actions| ==>
        r[i] == actions[i].(
          status := NextStatus(actions[i].status, LastFor(merged, actions[i].id), actions[i].id in current))
  {
  }

  lemma StatusesSettle(actions: seq<Action>, merged: seq<Receipt>, current: set<Id>)
    ensures Statuses(Statuses(actions, merged, current), merged, current) == Statuses(actions, merged, current)
  {
    hide LastFor;
  }

  /** Projecting the same receipts again, or none, changes nothing. */
  lemma ProjectionSettles(op: Operation, batch: seq<Receipt>, again: seq<Receipt>, current: set<Id>)
    requires again == batch || again == []
    ensures Project(Project(op, batch, current), again, current) == Project(op, batch, current)
  {
    var all := op.receipts + batch;
    MergeAgain(all, again);
    MergedTwice(op.receipts, batch, again);
    StatusesSettle(op.actions, Merged(all), current);
    hide Merged, Statuses, Overall, FailureOf;
  }

  lemma MergedTwice(a: seq<Receipt>, b: seq<Receipt>, again: seq<Receipt>)
    requires again == b || again == []
    ensures Merged(a + b + again) == Merged(a + b)
  {
    hide Merged, DistinctIds, LastOf;
    MergedIsLast(a + b);
    MergedIsLast(a + b + again);
    forall x ensures x in Merged(a + b + again) <==> x in Merged(a + b) {
      LastOfConcat(a + b, again, x.id);
      LastOfConcat(a, b, x.id);
      LastOfIsMember(again, x.id);
    }
    OrderedOnce(Merged(a + b + again), Merged(a + b));
  }

  /** Repeating a reconciliation changes nothing and saves nothing, whatever the operation was before. */
  lemma ReconcilingTwiceIsOnce(s: Synced, batch: seq<Receipt>, current: set<Id>, h: Summary -> string)
    ensures Reconciled(Reconciled(s, batch, current, h), batch, current, h) == Reconciled(s, batch, current, h)
  {
    ProjectionSettles(s.op, batch, batch, current);
    hide Project;
  }

  // ---- two projections in a row ----

  /** The operation with the approval gates of these actions forgotten. */
  function Ungated(op: Operation, touched: set<Id>): Operation {
    op.(actions := seq(|op.actions|, i requires 0 <= i < |op.actions| =>
      op.actions[i].(status :=
        if op.actions[i].id in touched && Gated(op.actions[i].status) then Permitted else op.actions[i].status)))
  }

  lemma StatusTwice(s: ActionStatus, l1: Option<Receipt>, r1: bool, l2: Option<Receipt>, r2: bool)
    requires l1.Some? ==> l2.Some?
    ensures NextStatus(NextStatus(s, l1, r1), l2, r2) == NextStatus(if r1 && Gated(s) then Permitted else s, l2, r2)
  {
  }

  lemma {:induction false} LastForIsMember(merged: seq<Receipt>, action: Id)
    ensures LastFor(merged, action).Some? <==> exists x :: x in merged && x.action == action
  {
    if merged != [] {
      var n := |merged| - 1;
      LastForIsMember(merged[..n], action);
      assert merged == merged[..n] + [merged[n]];
      assert merged[n] in merged && forall x :: x in merged <==> x in merged[..n] || x == merged[n];
    }
  }

  lemma MergedOfImmutable(rs: seq<Receipt>)
    requires Immutable(rs)
    ensures forall x :: x in Merged(rs) <==> x in rs
  {
    hide Merged, DistinctIds, LastOf;
    MergedIsLast(rs);
    forall x ensures x in Merged(rs) <==> x in rs { LastOfIsMember(rs, x.id); }
  }

  lemma ReceiptsStay(a: seq<Receipt>, b: seq<Receipt>, action: Id)
    requires Immutable(a + b)
    ensures LastFor(Merged(a), action).Some? ==> LastFor(Merged(a + b), action).Some?
  {
    hide Merged, LastFor;
    MergedOfImmutable(a);
    MergedOfImmutable(a + b);
    LastForIsMember(Merged(a), action);
    LastForIsMember(Merged(a + b), action);
  }

  lemma StatusesTwice(op: Operation, a: seq<Receipt>, b: seq<Receipt>, c1: set<Id>, c2: set<Id>)
    requires Immutable(a + b)
    ensures Statuses(Statuses(op.actions, Merged(a), c1), Merged(a + b), c2)
      == Statuses(Ungated(op, c1).actions, Merged(a + b), c2)
  {
    var l1, l2 := Merged(a), Merged(a + b);
    var once := Statuses(op.actions, l1, c1);
    StatusesPointwise(op.actions, l1, c1);
    StatusesPointwise(once, l2, c2);
    StatusesPointwise(Ungated(op, c1).actions, l2, c2);
    hide Merged, LastFor, NextStatus, Statuses, Gated;
    forall i | 0 <= i < |op.actions|
      ensures Statuses(once, l2, c2)[i] == Statuses(Ungated(op, c1).actions, l2, c2)[i]
    {
      var x := op.actions[i];
      ReceiptsStay(a, b, x.id);
      StatusTwice(x.status, LastFor(l1, x.id), x.id in c1, LastFor(l2, x.id), x.id in c2);
    }
  }

  /** Two projections in a row are one of the union, but for the gates of the actions that ran in between. */
  lemma ProjectTwice(op: Operation, b1: seq<Receipt>, c1: set<Id>, b2: seq<Receipt>, c2: set<Id>)
    requires Immutable(op.receipts + b1 + b2)
    ensures Project(Project(op, b1, c1), b2, c2) == Project(Ungated(op, c1), b1 + b2, c2)
  {
    MergeAgain(op.receipts + b1, b2);
    assert op.receipts + b1 + b2 == op.receipts + (b1 + b2);
    StatusesTwice(op, op.receipts + b1, b2, c1, c2);
    hide Merged, Statuses, Overall, FailureOf;
  }

  lemma UngatedTwice(op: Operation, a: set<Id>, b: set<Id>)
    ensures Ungated(Ungated(op, a), b) == Ungated(op, a + b)
    ensures Ungated(op, {}) == op
  {
    assert Ungated(op, {}).actions == op.actions;
    assert Ungated(Ungated(op, a), b).actions == Ungated(op, a + b).actions;
  }

  // ---- the digest only skips what would change nothing ----

  ghost predicate Injective(h: Summary -> string) { forall p, q :: h(p) == h(q) ==> p == q }

  /** The operation is as its latest projection left it, if there was one. */
  ghost predicate InSync(s: Synced, h: Summary -> string) {
    s.digest.Some? ==>
      s.digest == Some(h(SummaryOf(s.op))) && exists c: set<Id> :: s.op == Project(s.op, [], c)
  }

  lemma SortedIsInjective(a: set<Id>, b: set<Id>)
    requires Text.Sorted(a) == Text.Sorted(b)
    ensures a == b
  {
    forall x ensures x in a <==> x in b { assert x in Text.Sorted(a) <==> x in Text.Sorted(b); }
  }

  lemma SameIdsSameReceipts(a: seq<Receipt>, b: seq<Receipt>, all: seq<Receipt>)
    requires Immutable(all) && IdsOf(a) == IdsOf(b)
    requires (forall x :: x in a ==> x in all) && (forall x :: x in b ==> x in all)
    ensures a == b
  {
    assert |IdsOf(a)| == |IdsOf(b)|;
    forall i | 0 <= i < |a| ensures a[i] == b[i] {
      assert IdsOf(a)[i] == IdsOf(b)[i];
      assert a[i] in all && b[i] in all;
    }
  }

  lemma NothingNew(op: Operation, batch: seq<Receipt>, current: set<Id>, c: set<Id>)
    requires Immutable(op.receipts + batch) && op == Project(op, [], c)
    requires SummaryOf(Project(op, batch, current)) == SummaryOf(op)
    ensures Project(op, batch, current) == op
  {
    var p, all := Project(op, batch, current), op.receipts + batch;
    MergedOfImmutable(all);
    assert op.receipts + [] == op.receipts;
    assert op.receipts == Merged(op.receipts);
    assert p.receipts == Merged(all) && op.current == Text.Sorted(c) && p.current == Text.Sorted(current);
    hide Merged, Statuses, Overall, FailureOf, Immutable, Text.Sorted;
    assert forall x :: x in op.receipts ==> x in all;
    assert IdsOf(p.receipts) == IdsOf(op.receipts) && p.current == op.current;
    SameIdsSameReceipts(p.receipts, op.receipts, all);
    SortedIsInjective(current, c);
    assert Merged(all) == Merged(op.receipts);
  }

  lemma ReconciledProjects(s: Synced, batch: seq<Receipt>, current: set<Id>, h: Summary -> string)
    requires Injective(h) && InSync(s, h) && Immutable(s.op.receipts + batch)
    ensures Reconciled(s, batch, current, h).op == Project(s.op, batch, current)
    ensures InSync(Reconciled(s, batch, current, h), h)
  {
    hide Project, Immutable, SummaryOf;
    var p := Project(s.op, batch, current);
    ProjectionSettles(s.op, batch, [], current);
    if s.digest == Some(h(SummaryOf(p))) {
      var c: set<Id> :| s.op == Project(s.op, [], c);
      NothingNew(s.op, batch, current, c);
    }
  }

  // ---- any number of reconciliations ----

  /** One call: a batch of receipts, and the actions running at that time. */
  datatype Sync = Sync(batch: seq<Receipt>, current: set<Id>)

  function After(s: Synced, calls: seq<Sync>, h: Summary -> string): Synced {
    if calls == [] then s
    else
      var n := |calls| - 1;
      Reconciled(After(s, calls[..n], h), calls[n].batch, calls[n].current, h)
  }

  function AllReceipts(calls: seq<Sync>): seq<Receipt> {
    if calls == [] then [] else AllReceipts(calls[..|calls| - 1]) + calls[|calls| - 1].batch
  }

  /** The actions that some call saw running. */
  function Touched(calls: seq<Sync>): set<Id> {
    if calls == [] then {} else Touched(calls[..|calls| - 1]) + calls[|calls| - 1].current
  }

  /** The actions that some call before the last one saw running. */
  function TouchedBefore(calls: seq<Sync>): set<Id>
    requires calls != []
  {
    Touched(calls[..|calls| - 1])
  }

  /** The single projection that a run of calls amounts to. */
  function Summed(op: Operation, calls: seq<Sync>): Operation
    requires calls != []
  {
    Project(Ungated(op, TouchedBefore(calls)), AllReceipts(calls), calls[|calls| - 1].current)
  }

  lemma ImmutablePart(a: seq<Receipt>, b: seq<Receipt>)
    requires Immutable(a + b)
    ensures Immutable(a)
  {
    assert forall x :: x in a ==> x in a + b;
  }

  lemma ImmutableMerged(a: seq<Receipt>, b: seq<Receipt>)
    requires Immutable(a + b)
    ensures Immutable(Merged(a) + b)
  {
    ImmutablePart(a, b);
    MergedOfImmutable(a);
    hide Merged;
    assert forall x :: x in Merged(a) + b ==> x in a + b;
  }

  lemma ProjectedReceipts(op: Operation, batch: seq<Receipt>, current: set<Id>)
    ensures Project(op, batch, current).receipts == Merged(op.receipts + batch)
  {
  }

  lemma UngatedReceipts(op: Operation, touched: set<Id>)
    ensures Ungated(op, touched).receipts == op.receipts
  {
  }

  lemma SummedReceipts(op: Operation, calls: seq<Sync>)
    requires calls != []
    ensures Summed(op, calls).receipts == Merged(op.receipts + AllReceipts(calls))
  {
    hide Project, Merged, Ungated;
    ProjectedReceipts(Ungated(op, TouchedBefore(calls)), AllReceipts(calls), calls[|calls| - 1].current);
    UngatedReceipts(op, TouchedBefore(calls));
  }

  /** Any run of calls amounts to one projection of all its receipts with the last call's running actions. */
  lemma {:induction false} CallsAreOneProjection(s: Synced, calls: seq<Sync>, h: Summary -> string)
    requires Injective(h) && InSync(s, h) && calls != [] && Immutable(s.op.receipts + AllReceipts(calls))
    ensures After(s, calls, h).op == Summed(s.op, calls)
    ensures InSync(After(s, calls, h), h)
  {
    hide Project, Merged, Immutable, InSync, Injective, Reconciled, Ungated;
    var n := |calls| - 1;
    var before, last := calls[..n], calls[n];
    if before == [] {
      UngatedTwice(s.op, {}, {});
      assert AllReceipts(calls) == last.batch;
      ReconciledProjects(s, last.batch, last.current, h);
    } else {
      var earlier := AllReceipts(before);
      assert s.op.receipts + AllReceipts(calls) == s.op.receipts + earlier + last.batch;
      ImmutablePart(s.op.receipts + earlier, last.batch);
      CallsAreOneProjection(s, before, h);
      SummedReceipts(s.op, before);
      ImmutableMerged(s.op.receipts + earlier, last.batch);
      var t := After(s, before, h);
      ReconciledProjects(t, last.batch, last.current, h);
      var op, c := Ungated(s.op, TouchedBefore(before)), before[n - 1].current;
      UngatedReceipts(s.op, TouchedBefore(before));
      ProjectTwice(op, earlier, c, last.batch, last.current);
      UngatedTwice(s.op, TouchedBefore(before), c);
    }
  }

  /** An approval gate that `calls` has cleared for good, with no receipt to show for it. */
  ghost predicate GateLost(op: Operation, calls: seq<Sync>, a: Action)
    requires calls != []
  {
    && Gated(a.status) && a.id in TouchedBefore(calls) && a.id !in calls[|calls| - 1].current
    && LastFor(Merged(op.receipts + AllReceipts(calls)), a.id).None?
  }

  lemma GatesDecide(s: ActionStatus, last: Option<Receipt>, running: bool, inA: bool, inB: bool)
    ensures
      NextStatus(if inA && Gated(s) then Permitted else s, last, running)
      == NextStatus(if inB && Gated(s) then Permitted else s, last, running)
      <==> ((Gated(s) && inA && !running && last.None?) <==> (Gated(s) && inB && !running && last.None?))
  {
  }

  lemma SummedActions(op: Operation, calls: seq<Sync>, i: nat)
    requires calls != [] && i < |op.actions|
    ensures var a, merged := op.actions[i], Merged(op.receipts + AllReceipts(calls));
      && |Summed(op, calls).actions| == |op.actions|
      && Summed(op, calls).actions[i] == a.(status := NextStatus(
           if a.id in TouchedBefore(calls) && Gated(a.status) then Permitted else a.status,
           LastFor(merged, a.id), a.id in calls[|calls| - 1].current))
  {
    hide NextStatus, Merged, LastFor, Gated, Touched;
  }

  lemma SummedRest(op: Operation, calls: seq<Sync>)
    requires calls != []
    ensures var r := Summed(op, calls);
      && |r.actions| == |op.actions|
      && r == op.(
           status := Overall(r.actions), actions := r.actions, receipts := Merged(op.receipts + AllReceipts(calls)),
           current := Text.Sorted(calls[|calls| - 1].current), failure := FailureOf(r.actions))
  {
    hide Merged, Overall, FailureOf, NextStatus, Text.Sorted;
  }

  lemma SameReceiptsMerge(op: Operation, a: seq<Receipt>, b: seq<Receipt>)
    requires Immutable(op.receipts + a) && forall x :: x in a <==> x in b
    ensures Merged(op.receipts + a) == Merged(op.receipts + b)
  {
    hide Merged, Immutable;
    OrderDoesNotMatter(op.receipts + a, op.receipts + b);
  }

  lemma ActionDecides(op: Operation, a: seq<Sync>, b: seq<Sync>, i: nat)
    requires a != [] && b != [] && i < |op.actions| && a[|a| - 1].current == b[|b| - 1].current
    requires Merged(op.receipts + AllReceipts(a)) == Merged(op.receipts + AllReceipts(b))
    ensures |Summed(op, a).actions| == |Summed(op, b).actions| == |op.actions|
    ensures Summed(op, a).actions[i] == Summed(op, b).actions[i] <==>
      (GateLost(op, a, op.actions[i]) <==> GateLost(op, b, op.actions[i]))
  {
    SummedActions(op, a, i);
    SummedActions(op, b, i);
    var x := op.actions[i];
    GatesDecide(x.status, LastFor(Merged(op.receipts + AllReceipts(a)), x.id), x.id in a[|a| - 1].current,
      x.id in TouchedBefore(a), x.id in TouchedBefore(b));
    hide Merged, Summed, NextStatus, LastFor, TouchedBefore, AllReceipts, Gated;
  }

  lemma ImmutableAlike(rs: seq<Receipt>, a: seq<Receipt>, b: seq<Receipt>)
    requires Immutable(rs + a) && forall x :: x in a <==> x in b
    ensures Immutable(rs + b)
  {
    assert forall x :: x in rs + b ==> x in rs + a;
  }

  lemma GatesDecideAll(op: Operation, a: seq<Sync>, b: seq<Sync>)
    requires a != [] && b != [] && a[|a| - 1].current == b[|b| - 1].current
    requires Immutable(op.receipts + AllReceipts(a)) && forall x :: x in AllReceipts(a) <==> x in AllReceipts(b)
    ensures Summed(op, a) == Summed(op, b) <==>
      forall x :: x in op.actions ==> (GateLost(op, a, x) <==> GateLost(op, b, x))
  {
    hide *;
    SameReceiptsMerge(op, AllReceipts(a), AllReceipts(b));
    SummedRest(op, a);
    SummedRest(op, b);
    forall i | 0 <= i < |op.actions|
      ensures Summed(op, a).actions[i] == Summed(op, b).actions[i] <==>
        (GateLost(op, a, op.actions[i]) <==> GateLost(op, b, op.actions[i]))
    {
      ActionDecides(op, a, b, i);
    }
    if forall x :: x in op.actions ==> (GateLost(op, a, x) <==> GateLost(op, b, x)) {
      assert Summed(op, a).actions == Summed(op, b).actions;
    }
    if Summed(op, a) == Summed(op, b) {
      forall x | x in op.actions ensures GateLost(op, a, x) <==> GateLost(op, b, x) {
        var i :| 0 <= i < |op.actions| && op.actions[i] == x;
      }
    }
  }

  /**
   Two ways to deliver the same immutable receipts, in whatever batches, order and repetition and ending with the same
   running actions, leave the same operation if and only if they lost the same approval gates on the way.
   */
  lemma DeliveryDoesNotMatter(s: Synced, a: seq<Sync>, b: seq<Sync>, h: Summary -> string)
    requires Injective(h) && InSync(s, h) && a != [] && b != [] && a[|a| - 1].current == b[|b| - 1].current
    requires Immutable(s.op.receipts + AllReceipts(a)) && forall x :: x in AllReceipts(a) <==> x in AllReceipts(b)
    ensures After(s, a, h).op == After(s, b, h).op <==>
      forall x :: x in s.op.actions ==> (GateLost(s.op, a, x) <==> GateLost(s.op, b, x))
  {
    hide *;
    CallsAreOneProjection(s, a, h);
    ImmutableAlike(s.op.receipts, AllReceipts(a), AllReceipts(b));
    CallsAreOneProjection(s, b, h);
    GatesDecideAll(s.op, a, b);
  }

  /** In particular, an operation whose actions are all authorized ends up the same, as by one call with everything. */
  lemma AuthorizedOperationsConverge(s: Synced, a: seq<Sync>, b: seq<Sync>, h: Summary -> string)
    requires Injective(h) && InSync(s, h) && a != [] && b != [] && a[|a| - 1].current == b[|b| - 1].current
    requires Immutable(s.op.receipts + AllReceipts(a)) && forall x :: x in AllReceipts(a) <==> x in AllReceipts(b)
    requires forall x :: x in s.op.actions ==> !Gated(x.status)
    ensures After(s, a, h).op == After(s, b, h).op
  {
    DeliveryDoesNotMatter(s, a, b, h);
    hide After, Merged, AllReceipts, LastFor, TouchedBefore, Injective, InSync, Immutable;
  }

  /** A gate does get lost: an action that was seen running and then not any more becomes authorized without approval. */
  lemma RunningClearsTheGate(op: Operation, a: Action)
    requires op.receipts == [] && op.actions == [a] && a.status == NeedsApproval
    ensures Project(Project(op, [], {a.id}), [], {}).actions == [a.(status := Permitted)]
    ensures Project(op, [], {}).actions == [a]
  {
    assert op.receipts + [] == [];
    assert Merged([]) == [] && Project(op, [], {a.id}).receipts == [];
    assert Project(op, [], {a.id}).receipts + [] == [];
    hide Overall, FailureOf, Text.Sorted;
    var once := Statuses([a], [], {a.id});
    assert once == [a.(status := InProgress)];
    assert Statuses(once, [], {}) == [a.(status := Permitted)];
    assert Statuses([a], [], {}) == [a];
  }
}
