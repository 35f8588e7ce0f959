/** What a rollback undoes, and in which order. */
module RollbackOrder {
  import opened Basics
  import opened Operations
  import opened RunOrder

  datatype Definition = Definition(maxAttempts: nat, modes: set<string>, executorId: Id, rollback: Option<Id>)

  type Catalog = map<Id, Definition>

  /** The first action of the plan with this identifier. */
  function Find(plan: seq<Action>, id: Id): (r: Option<Action>)
    ensures r.Some? ==> r.value in plan && r.value.id == id
    ensures r.None? ==> forall a :: a in plan ==> a.id != id
  {
    if plan == [] then None else if plan[0].id == id then Some(plan[0]) else Find(plan[1..], id)
  }

  /** A completed action whose type names a type that takes it back. */
  predicate Undoable(plan: seq<Action>, catalog: Catalog, r: Receipt) {
    && r.status == Succeeded
    && var original := Find(plan, r.action);
       original.Some? && original.value.typeId in catalog && catalog[original.value.typeId].rollback.Some?
  }

  lemma {:induction false} SamePlanFind(a: seq<Action>, b: seq<Action>, id: Id)
    requires SamePlan(a, b)
    ensures match Find(a, id)
      case Some(x) => Find(b, id).Some? && x.(status := Find(b, id).value.status) == Find(b, id).value
      case None => Find(b, id).None?
  {
    SamePlanPointwise(a, b);
    if a != [] {
      SamePlanPointwise(a[1..], b[1..]);
      assert a[0].(status := b[0].status) == b[0];
      SamePlanFind(a[1..], b[1..], id);
    }
  }

  function UndoId(id: Id): Id { "rollback:" + id }

  /** The undo actions for these receipts, the latest first. */
  function UndoIds(plan: seq<Action>, catalog: Catalog, rs: seq<Receipt>): seq<Id> {
    if rs == [] then []
    else UndoIds(plan, catalog, rs[1..]) + if Undoable(plan, catalog, rs[0]) then [UndoId(rs[0].action)] else []
  }

  lemma {:induction false} UndoConcat(plan: seq<Action>, catalog: Catalog, a: seq<Receipt>, b: seq<Receipt>)
    ensures UndoIds(plan, catalog, a + b) == UndoIds(plan, catalog, b) + UndoIds(plan, catalog, a)
  {
    if a == [] {
      assert a + b == b;
    } else {
      assert (a + b)[1..] == a[1..] + b;
      UndoConcat(plan, catalog, a[1..], b);
    }
  }

  lemma {:induction false} UndoIsListed(plan: seq<Action>, catalog: Catalog, rs: seq<Receipt>, i: nat)
    requires i < |rs| && Undoable(plan, catalog, rs[i])
    ensures UndoId(rs[i].action) in UndoIds(plan, catalog, rs)
  {
    if i > 0 { UndoIsListed(plan, catalog, rs[1..], i - 1); }
  }

  lemma {:induction false} OnlyCompletedMatter(plan: seq<Action>, catalog: Catalog, rs: seq<Receipt>)
    ensures UndoIds(plan, catalog, Filter(rs, IsCompleted())) == UndoIds(plan, catalog, rs)
  {
    if rs != [] {
      var n := |rs| - 1;
      var kept := Filter(rs[..n], IsCompleted());
      OnlyCompletedMatter(plan, catalog, rs[..n]);
      UndoConcat(plan, catalog, rs[..n], [rs[n]]);
      UndoConcat(plan, catalog, kept, [rs[n]]);
      assert rs == rs[..n] + [rs[n]];
      assert [rs[n]][1..] == [];
      assert kept + [] == kept;
    }
  }

  ghost predicate Before(xs: seq<Id>, x: Id, y: Id) { exists p, q :: 0 <= p < q < |xs| && xs[p] == x && xs[q] == y }

  lemma UndoReverses(plan: seq<Action>, catalog: Catalog, rs: seq<Receipt>, i: nat, j: nat)
    requires i < j < |rs| && Undoable(plan, catalog, rs[i]) && Undoable(plan, catalog, rs[j])
    ensures Before(UndoIds(plan, catalog, rs), UndoId(rs[j].action), UndoId(rs[i].action))
  {
    hide Undoable, UndoIds, UndoId;
    var early, late := rs[..j], rs[j..];
    assert rs == early + late && early[i] == rs[i] && late[0] == rs[j];
    UndoConcat(plan, catalog, early, late);
    UndoIsListed(plan, catalog, early, i);
    UndoIsListed(plan, catalog, late, 0);
    var a, b := UndoIds(plan, catalog, late), UndoIds(plan, catalog, early);
    var p :| 0 <= p < |a| && a[p] == UndoId(rs[j].action);
    var q :| 0 <= q < |b| && b[q] == UndoId(rs[i].action);
    assert (a + b)[p] == a[p] && (a + b)[|a| + q] == b[q];
  }

  /** The receipts that a run recorded for the actions it took. */
  ghost predicate Records(picked: seq<Action>, fwd: seq<Receipt>) {
    |fwd| == |picked| && forall k :: 0 <= k < |fwd| ==> fwd[k].action == picked[k].id && fwd[k].key == picked[k].key
  }

  lemma DependencyIsEarlier(
    plan: seq<Action>, earlier: seq<Receipt>, picked: seq<Action>, fwd: seq<Receipt>, k: nat, l: nat)
    requires Greedy(plan, SuccessIds(earlier), picked) && Records(picked, fwd) && k < |fwd|
    requires l < |earlier + fwd| && Success((earlier + fwd)[l]) && (earlier + fwd)[l].action in picked[k].deps
    ensures l < |earlier| + k
  {
    hide Greedy;
    var done, d := SuccessIds(earlier), (earlier + fwd)[l].action;
    LinearExtension(plan, done, picked, k);
    if l >= |earlier| {
      LinearExtension(plan, done, picked, l - |earlier|);
      var j :| 0 <= j < k && picked[j].id == d;
    }
  }

  /**
   The rollback after a run takes a dependent back before anything it depends on, whether the dependency was completed
   in the same run or recorded by an earlier one.
   */
  lemma DependentsAreUndoneFirst(
    plan: seq<Action>, catalog: Catalog, earlier: seq<Receipt>, picked: seq<Action>, fwd: seq<Receipt>, k: nat, l: nat)
    requires Greedy(plan, SuccessIds(earlier), picked) && Records(picked, fwd) && k < |fwd| && l < |earlier + fwd|
    requires (earlier + fwd)[l].action in picked[k].deps
    requires Undoable(plan, catalog, (earlier + fwd)[l]) && Undoable(plan, catalog, fwd[k])
    ensures Before(
      UndoIds(plan, catalog, earlier + fwd), UndoId(picked[k].id), UndoId((earlier + fwd)[l].action))
  {
    hide Greedy, UndoIds, UndoId;
    DependencyIsEarlier(plan, earlier, picked, fwd, k, l);
    assert (earlier + fwd)[|earlier| + k] == fwd[k];
    UndoReverses(plan, catalog, earlier + fwd, l, |earlier| + k);
  }

  function ActionsOf(rs: seq<Receipt>): seq<Id> { seq(|rs|, i requires 0 <= i < |rs| => rs[i].action) }

  function IsCompleted(): Receipt -> bool { (r: Receipt) => r.status == Succeeded }

  lemma {:induction false} UndoOne(plan: seq<Action>, catalog: Catalog, rs: seq<Receipt>, i: nat)
    requires i < |rs|
    ensures UndoIds(plan, catalog, rs[i..]) ==
      UndoIds(plan, catalog, rs[i + 1..]) + if Undoable(plan, catalog, rs[i]) then [UndoId(rs[i].action)] else []
  {
    assert rs[i..][1..] == rs[i + 1..];
  }

  /** The undo actions for the latest completed receipts are the first ones of the whole rollback. */
  lemma UndoSuffix(plan: seq<Action>, catalog: Catalog, rs: seq<Receipt>, completed: seq<Receipt>, i: nat)
    requires completed == Filter(rs, IsCompleted()) && i <= |completed|
    ensures UndoIds(plan, catalog, completed[i..]) <= UndoIds(plan, catalog, rs)
    ensures i == 0 ==> UndoIds(plan, catalog, completed[i..]) == UndoIds(plan, catalog, rs)
  {
    OnlyCompletedMatter(plan, catalog, rs);
    assert completed == completed[..i] + completed[i..];
    UndoConcat(plan, catalog, completed[..i], completed[i..]);
    if i == 0 { assert completed[i..] == completed; }
  }
}
