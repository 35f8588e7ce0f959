/** Dependency graphs of plans, and the acyclicity check that a recovery plan has to pass. */
module PlanGraph {
  import opened Basics

  /** For each action, the actions it depends on. */
  type Graph = map<Id, set<Id>>

  ghost predicate Closed(g: Graph) { forall a, d :: a in g && d in g[a] ==> d in g }

  /** Every dependency ranks below its dependent. */
  ghost predicate Ranks(g: Graph, rank: map<Id, nat>) {
    g.Keys <= rank.Keys && forall a, d :: a in g && d in g[a] && d in g ==> rank[d] < rank[a]
  }

  ghost predicate Acyclic(g: Graph) { exists rank :: Ranks(g, rank) }

  /** A nonempty set of actions each of which waits for another one of the set; the actions of a cycle are one. */
  ghost predicate Knot(g: Graph, k: set<Id>) {
    k != {} && k <= g.Keys && forall a :: a in k ==> exists d :: d in g[a] && d in k
  }

  lemma {:induction false} LowestRank(s: set<Id>, rank: map<Id, nat>) returns (a: Id)
    requires s != {} && s <= rank.Keys
    ensures a in s && forall b :: b in s ==> rank[a] <= rank[b]
    decreases |s|
  {
    var x :| x in s;
    if s == {x} {
      a := x;
    } else {
      var y := LowestRank(s - {x}, rank);
      a := if rank[x] <= rank[y] then x else y;
    }
  }

  lemma LowestIsFree(g: Graph, rank: map<Id, nat>, k: set<Id>, a: Id)
    requires Ranks(g, rank) && k <= g.Keys && a in k && forall b :: b in k ==> rank[a] <= rank[b]
    ensures forall d :: d in g[a] ==> d !in k
  {
  }

  lemma AcyclicHasNoKnot(g: Graph, k: set<Id>)
    ensures Acyclic(g) ==> !Knot(g, k)
  {
    if Acyclic(g) && k != {} && k <= g.Keys {
      var rank :| Ranks(g, rank);
      var a := LowestRank(k, rank);
      LowestIsFree(g, rank, k, a);
      hide Ranks;
    }
  }

  /** A chain of dependencies `w[0]` on `w[1]` on ... that comes back to where it started. */
  ghost predicate Cycle(g: Graph, w: seq<Id>) {
    |w| >= 2 && w[0] == w[|w| - 1] && (forall i :: 0 <= i < |w| ==> w[i] in g)
    && forall i :: 0 <= i < |w| - 1 ==> w[i + 1] in g[w[i]]
  }

  lemma CycleIsKnot(g: Graph, w: seq<Id>)
    requires Cycle(g, w)
    ensures Knot(g, Elements(w))
  {
    assert w[0] in Elements(w);
    forall a | a in Elements(w) ensures exists d :: d in g[a] && d in Elements(w) {
      var i :| 0 <= i < |w| && w[i] == a;
      if i < |w| - 1 {
        assert w[i + 1] in g[a] && w[i + 1] in Elements(w);
      } else {
        assert w[1] in g[a] && w[1] in Elements(w);
      }
    }
  }

  function Waiting(g: Graph, visited: set<Id>): map<Id, set<Id>> { map a | a in g :: g[a] - visited }

  ghost predicate Ordered(g: Graph, order: seq<Id>) {
    forall i, d :: 0 <= i < |order| && order[i] in g && d in g[order[i]] ==> d in order[..i]
  }

  lemma {:induction false} OrderRanks(g: Graph, order: seq<Id>) returns (rank: map<Id, nat>)
    requires Distinct(order) && Ordered(g, order) && forall a :: a in g ==> a in order
    ensures Ranks(g, rank)
  {
    rank := map a | a in g :: IndexOf(order, a);
    forall a, d | a in g && d in g[a] && d in g ensures rank[d] < rank[a] {
      var i := IndexOf(order, a);
      assert d in order[..i];
      var j :| 0 <= j < i && order[j] == d;
      assert IndexOf(order, d) == j;
    }
  }

  function IndexOf(xs: seq<Id>, x: Id): (i: nat)
    requires x in xs
    ensures i < |xs| && xs[i] == x
  {
    if xs[0] == x then 0 else 1 + IndexOf(xs[1..], x)
  }

  /**
   `_assert_acyclic`: repeatedly visit an action with nothing left to wait for. The check passes exactly for the
   acyclic graphs, and when it fails the unvisited actions are a knot.
   */
  method AssertAcyclic(g: Graph) returns (ok: bool, visited: set<Id>)
    requires Closed(g)
    ensures ok <==> Acyclic(g)
    ensures !ok ==> Knot(g, g.Keys - visited)
  {
    hide *;
    var waiting := g;
    var ready: set<Id> := set a | a in g && g[a] == {};
    visited := {};
    ghost var order: seq<Id> := [];
    NothingVisited(g);
    while ready != {}
      invariant visited == Elements(order) && Distinct(order) && Ordered(g, order)
      invariant waiting == Waiting(g, visited) && Frontier(g, visited, ready)
      decreases |g.Keys - visited|, |ready|
    {
      var a :| a in ready;
      if a !in visited {
        VisitOne(g, order, visited, ready, a);
        FewerLeft(g, visited, ready, a);
        visited := visited + {a};
        order := order + [a];
        waiting := map b | b in waiting :: waiting[b] - {a};
        ready := (ready - {a}) + set b | b in waiting && waiting[b] == {} && b !in visited;
      } else {
        DropOne(g, visited, ready, a);
        ready := ready - {a};
      }
    }
    ok := visited == g.Keys;
    Conclude(g, order, visited);
  }

  /** The visitable actions are queued, and only visitable ones are. */
  ghost predicate Frontier(g: Graph, visited: set<Id>, ready: set<Id>) {
    && visited <= g.Keys && ready <= g.Keys
    && (forall a :: a in ready ==> g[a] <= visited)
    && (forall a :: a in g && g[a] <= visited ==> a in ready || a in visited)
  }

  lemma NothingVisited(g: Graph)
    ensures Waiting(g, {}) == g && Elements<Id>([]) == {} && Distinct<Id>([]) && Ordered(g, [])
    ensures Frontier(g, {}, set a | a in g && g[a] == {})
  {
    assert forall a :: a in g ==> g[a] - {} == g[a];
  }

  lemma DropOne(g: Graph, visited: set<Id>, ready: set<Id>, a: Id)
    requires Frontier(g, visited, ready) && a in visited
    ensures Frontier(g, visited, ready - {a})
  {
  }

  lemma VisitOne(g: Graph, order: seq<Id>, visited: set<Id>, ready: set<Id>, a: Id)
    requires visited == Elements(order) && Distinct(order) && Ordered(g, order) && Frontier(g, visited, ready)
    requires a in ready && a !in visited
    ensures var now, left := visited + {a}, map b | b in Waiting(g, visited) :: Waiting(g, visited)[b] - {a};
      && now == Elements(order + [a]) && Distinct(order + [a]) && Ordered(g, order + [a])
      && left == Waiting(g, now)
      && Frontier(g, now, (ready - {a}) + set b | b in left && left[b] == {} && b !in now)
  {
    OneMoreVisited(g, order, a);
    assert forall b :: b in g ==> (g[b] - visited) - {a} == g[b] - (visited + {a});
    assert forall b :: b in g ==> (g[b] - (visited + {a}) == {} <==> g[b] <= visited + {a});
  }

  lemma Conclude(g: Graph, order: seq<Id>, visited: set<Id>)
    requires visited == Elements(order) && Distinct(order) && Ordered(g, order) && Frontier(g, visited, {}) && Closed(g)
    ensures visited == g.Keys <==> Acyclic(g)
    ensures visited != g.Keys ==> Knot(g, g.Keys - visited)
  {
    if visited == g.Keys {
      var rank := OrderRanks(g, order);
    } else {
      var left := g.Keys - visited;
      forall a | a in left ensures exists d :: d in g[a] && d in left {
        assert !(g[a] <= visited);
        var d :| d in g[a] && d !in visited;
      }
      assert left != {} by {
        if left == {} { forall a | a in g ensures a in visited { assert a !in left; } }
      }
      AcyclicHasNoKnot(g, left);
    }
  }

  lemma OneMoreVisited(g: Graph, order: seq<Id>, a: Id)
    requires Distinct(order) && Ordered(g, order) && a !in order && a in g && g[a] <= Elements(order)
    ensures Distinct(order + [a]) && Ordered(g, order + [a]) && Elements(order + [a]) == Elements(order) + {a}
  {
    var more := order + [a];
    forall i, d | 0 <= i < |more| && more[i] in g && d in g[more[i]] ensures d in more[..i] {
      if i < |order| { assert more[..i] == order[..i]; } else { assert more[..i] == order && d in Elements(order); }
    }
  }

  lemma FewerLeft(g: Graph, visited: set<Id>, ready: set<Id>, a: Id)
    requires Frontier(g, visited, ready) && a in ready && a !in visited
    ensures |g.Keys - (visited + {a})| < |g.Keys - visited|
  {
    assert g.Keys - visited == (g.Keys - (visited + {a})) + {a};
  }
}
