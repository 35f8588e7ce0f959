/** The order in which a run takes the actions of its plan: always the first ready one by identifier. */
module RunOrder {
  import opened Basics
  import opened Operations
  import PlanGraph
  import Text

  predicate IsReady(a: Action, done: set<Id>) { a.id !in done && a.deps <= done }

  ghost predicate FirstReady(plan: seq<Action>, done: set<Id>, a: Action) {
    a in plan && IsReady(a, done) && forall b :: b in plan && IsReady(b, done) ==> Text.Leq(a.id, b.id)
  }

  function DoneAfter(done: set<Id>, picked: seq<Action>): set<Id> {
    if picked == [] then done else DoneAfter(done, picked[..|picked| - 1]) + {picked[|picked| - 1].id}
  }

  ghost predicate Greedy(plan: seq<Action>, done: set<Id>, picked: seq<Action>) {
    picked == []
    || (Greedy(plan, done, picked[..|picked| - 1])
        && FirstReady(plan, DoneAfter(done, picked[..|picked| - 1]), picked[|picked| - 1]))
  }

  ghost predicate NothingReady(plan: seq<Action>, done: set<Id>) { forall a :: a in plan ==> !IsReady(a, done) }

  lemma {:induction false} GreedyStep(plan: seq<Action>, done: set<Id>, picked: seq<Action>, a: Action)
    ensures DoneAfter(done, picked + [a]) == DoneAfter(done, picked) + {a.id}
    ensures Greedy(plan, done, picked + [a]) <==> Greedy(plan, done, picked) && FirstReady(plan, DoneAfter(done, picked), a)
  {
    assert (picked + [a])[..|picked|] == picked;
  }

  lemma {:induction false} GreedyPrefix(plan: seq<Action>, done: set<Id>, picked: seq<Action>, k: nat)
    requires Greedy(plan, done, picked) && k <= |picked|
    ensures Greedy(plan, done, picked[..k])
    ensures k < |picked| ==> FirstReady(plan, DoneAfter(done, picked[..k]), picked[k])
  {
    var n := |picked| - 1;
    if k == |picked| {
      assert picked[..k] == picked;
    } else if k < n {
      GreedyPrefix(plan, done, picked[..n], k);
      assert picked[..n][..k] == picked[..k];
    }
  }

  lemma {:induction false} DoneAfterHolds(done: set<Id>, picked: seq<Action>, id: Id)
    ensures id in DoneAfter(done, picked) <==> id in done || exists j :: 0 <= j < |picked| && picked[j].id == id
  {
    if picked != [] {
      var n := |picked| - 1;
      DoneAfterHolds(done, picked[..n], id);
      if id in DoneAfter(done, picked[..n]) && id !in done {
        var j :| 0 <= j < n && picked[..n][j].id == id;
        assert picked[j].id == id;
      }
      forall j | 0 <= j < |picked| && picked[j].id == id ensures id in DoneAfter(done, picked) {
        if j < n { assert picked[..n][j].id == id; }
      }
    }
  }

  /**
   A run takes the actions in a linear extension of the dependencies: what an action depends on was recorded before
   the run or taken strictly earlier in it. No action is taken twice, and none whose success was recorded before.
   */
  lemma LinearExtension(plan: seq<Action>, done: set<Id>, picked: seq<Action>, k: nat)
    requires Greedy(plan, done, picked) && k < |picked|
    ensures picked[k] in plan && picked[k].id !in done
    ensures forall j :: 0 <= j < k ==> picked[j].id != picked[k].id
    ensures forall d :: d in picked[k].deps ==> d in done || exists j :: 0 <= j < k && picked[j].id == d
  {
    GreedyPrefix(plan, done, picked, k);
    var before := picked[..k];
    DoneAfterHolds(done, before, picked[k].id);
    forall j | 0 <= j < k ensures picked[j].id != picked[k].id { assert before[j].id == picked[j].id; }
    forall d | d in picked[k].deps ensures d in done || exists j :: 0 <= j < k && picked[j].id == d {
      DoneAfterHolds(done, before, d);
      if d !in done {
        var j :| 0 <= j < |before| && before[j].id == d;
        assert picked[j].id == d;
      }
    }
  }

  lemma FirstReadyIsUnique(plan: seq<Action>, done: set<Id>, a: Action, b: Action)
    requires UniqueIds(plan) && FirstReady(plan, done, a) && FirstReady(plan, done, b)
    ensures a == b
  {
    Text.LeqAntisymmetric(a.id, b.id);
    var i, j :| 0 <= i < |plan| && 0 <= j < |plan| && plan[i] == a && plan[j] == b;
  }

  /**
   The plan and the journal alone determine the order. Whatever the executors answer, two runs that start from the
   same journal take the same actions in the same order for as long as both go on.
   */
  lemma {:induction false} OrderIsDetermined(plan: seq<Action>, done: set<Id>, p: seq<Action>, q: seq<Action>)
    requires UniqueIds(plan) && Greedy(plan, done, p) && Greedy(plan, done, q) && |p| <= |q|
    ensures p == q[..|p|]
  {
    hide FirstReady, UniqueIds;
    if p != [] {
      var n := |p| - 1;
      OrderIsDetermined(plan, done, p[..n], q);
      GreedyPrefix(plan, done, q, n);
      FirstReadyIsUnique(plan, DoneAfter(done, p[..n]), p[n], q[n]);
      assert p == p[..n] + [p[n]] && q[..|p|] == q[..n] + [q[n]];
    }
  }

  // ---- blocked runs ----

  ghost function Left(plan: seq<Action>, done: set<Id>): set<Id> { PlanIds(plan) - done }

  lemma WellFormedIsUnique(plan: seq<Action>)
    requires WellFormed(plan)
    ensures UniqueIds(plan)
  {
    hide PlanIds;
  }

  /** With nothing ready and something left, what is left is a knot: each action of it waits for another one of it. */
  lemma BlockedIsKnot(plan: seq<Action>, done: set<Id>)
    requires WellFormed(plan) && NothingReady(plan, done) && Left(plan, done) != {}
    ensures PlanGraph.Knot(Graph(plan), Left(plan, done))
  {
    hide PlanIds, Graph, WellFormed;
    WellFormedIsUnique(plan);
    var g, left := Graph(plan), Left(plan, done);
    GraphKeys(plan);
    forall id | id in left ensures exists d :: d in g[id] && d in left {
      var a := PlanIdOf(plan, id);
      GraphAt(plan, a);
      assert !IsReady(a, done);
      DepsAreKnown(plan, a);
      var d :| d in a.deps && d !in done;
      assert d in g[id] && d in left;
    }
  }

  /** "dependency graph is blocked" cannot happen to a plan that passed its validation. */
  lemma ValidPlansAreNeverBlocked(plan: seq<Action>, done: set<Id>)
    requires ValidPlan(plan) && NothingReady(plan, done)
    ensures PlanIds(plan) <= done
  {
    hide PlanIds, Graph, WellFormed, NothingReady, PlanGraph.Knot, PlanGraph.Acyclic;
    WellFormedIsUnique(plan);
    if Left(plan, done) != {} {
      BlockedIsKnot(plan, done);
      PlanGraph.AcyclicHasNoKnot(Graph(plan), Left(plan, done));
    } else {
      assert forall id :: id in PlanIds(plan) ==> id in done || id in Left(plan, done);
    }
  }

  lemma KnotWaits(g: PlanGraph.Graph, k: set<Id>, id: Id)
    requires PlanGraph.Knot(g, k) && id in k
    ensures id in g && !(g[id] !! k)
  {
  }

  lemma ReadyIsOutside(plan: seq<Action>, done: set<Id>, k: set<Id>, a: Action)
    requires UniqueIds(plan) && PlanGraph.Knot(Graph(plan), k) && k !! done && a in plan && IsReady(a, done)
    ensures a.id !in k
  {
    hide PlanIds, Graph, PlanGraph.Knot;
    GraphAt(plan, a);
    if a.id in k { KnotWaits(Graph(plan), k, a.id); }
  }

  /** An unrecorded knot, such as a cycle, stays untouched for the whole run. */
  lemma {:induction false} KnotsAreNeverEntered(plan: seq<Action>, done: set<Id>, picked: seq<Action>, k: set<Id>)
    requires UniqueIds(plan) && PlanGraph.Knot(Graph(plan), k) && k !! done && Greedy(plan, done, picked)
    ensures k !! DoneAfter(done, picked)
  {
    hide UniqueIds, PlanGraph.Knot, Graph;
    if picked != [] {
      var n := |picked| - 1;
      KnotsAreNeverEntered(plan, done, picked[..n], k);
      ReadyIsOutside(plan, DoneAfter(done, picked[..n]), k, picked[n]);
    }
  }

  /** A run that takes everything has no cycle among the actions it still had to do: a cycle never reaches sealing. */
  lemma CyclesAreNeverFinished(plan: seq<Action>, done: set<Id>, picked: seq<Action>, w: seq<Id>)
    requires UniqueIds(plan) && Greedy(plan, done, picked)
    requires PlanGraph.Cycle(Graph(plan), w) && Elements(w) !! done
    ensures !(PlanIds(plan) <= DoneAfter(done, picked))
  {
    hide PlanIds, Graph, PlanGraph.Knot, UniqueIds, Greedy, DoneAfter;
    GraphKeys(plan);
    PlanGraph.CycleIsKnot(Graph(plan), w);
    KnotsAreNeverEntered(plan, done, picked, Elements(w));
    assert w[0] in Elements(w) && w[0] in PlanIds(plan);
  }
}
