/** Dependency-ordered operation waves over a fleet: Kahn's algorithm with batches of bounded size. */
module FleetPlan {
  import opened Basics
  import Text

  datatype OperationType = Startup | Shutdown | Maintenance | Recovery | Verification

  /** `source` depends on `target`. */
  datatype Dependency = Dependency(source: Id, target: Id)

  datatype Fleet = Fleet(members: seq<Id>, dependencies: seq<Dependency>, maxParallel: int)

  datatype Wave = Wave(index: nat, environments: seq<Id>, manual: bool)

  datatype Plan = Plan(waves: seq<Wave>, cycleWarning: Option<seq<Id>>)

  /** What the fleet's data model validates. */
  ghost predicate ValidFleet(f: Fleet) {
    && Distinct(f.members) && f.maxParallel >= 1
    && forall d :: d in f.dependencies ==> d.source in f.members && d.target in f.members && d.source != d.target
  }

  /** The end of a dependency that has to be operated on first, and the other one. */
  function First(op: OperationType, d: Dependency): Id { if op == Shutdown then d.source else d.target }

  function Then(op: OperationType, d: Dependency): Id { if op == Shutdown then d.target else d.source }

  /** Some dependency among `ds` makes `u` come before `v`. */
  ghost predicate Edge(ds: seq<Dependency>, op: OperationType, u: Id, v: Id) {
    exists d :: d in ds && First(op, d) == u && Then(op, d) == v
  }

  ghost function Members(f: Fleet): set<Id> { Elements(f.members) }

  ghost function Prerequisites(f: Fleet, ds: seq<Dependency>, op: OperationType, v: Id): set<Id> {
    set u | u in Members(f) && Edge(ds, op, u, v)
  }

  ghost function Needs(f: Fleet, op: OperationType, v: Id): set<Id> { Prerequisites(f, f.dependencies, op, v) }

  /** What can be operated on once `done` has been. */
  ghost predicate IsReady(f: Fleet, op: OperationType, done: set<Id>, v: Id) {
    v in Members(f) && v !in done && Needs(f, op, v) <= done
  }

  ghost function Done(batches: seq<seq<Id>>): set<Id> {
    if batches == [] then {} else Done(batches[..|batches| - 1]) + Elements(batches[|batches| - 1])
  }

  /** A batch of ready members, within the limit, that leaves a ready member out only if the limit is reached. */
  ghost predicate GreedyBatch(f: Fleet, op: OperationType, done: set<Id>, batch: seq<Id>) {
    && batch != [] && Distinct(batch) && |batch| <= f.maxParallel
    && (forall x :: x in batch ==> IsReady(f, op, done, x))
    && (|batch| < f.maxParallel ==> forall x :: IsReady(f, op, done, x) ==> x in batch)
  }

  ghost predicate GreedyBatches(f: Fleet, op: OperationType, batches: seq<seq<Id>>) {
    forall k :: 0 <= k < |batches| ==> GreedyBatch(f, op, Done(batches[..k]), batches[k])
  }

  /** First ready, first served: nobody still waiting was ready at a stage at which a placed member was not. */
  ghost predicate NoOvertaking(f: Fleet, op: OperationType, batches: seq<seq<Id>>) {
    forall j, k, u, v :: 0 <= j <= k < |batches| && u in batches[k] && Waits(f, op, batches, j, k, v) ==>
      Needs(f, op, u) <= Done(batches[..j])
  }

  /** `v` is ready before batch `j` and not placed by the end of batch `k`. */
  ghost predicate Waits(f: Fleet, op: OperationType, batches: seq<seq<Id>>, j: nat, k: nat, v: Id)
    requires j <= k < |batches|
  {
    IsReady(f, op, Done(batches[..j]), v) && v !in Done(batches[..k + 1])
  }

  ghost predicate Exhausted(f: Fleet, op: OperationType, batches: seq<seq<Id>>) {
    forall x :: !IsReady(f, op, Done(batches), x)
  }

  /** The plan whose automatic waves are `batches`: whatever they leave is put in a last, manual wave. */
  ghost predicate PlanOf(f: Fleet, batches: seq<seq<Id>>, p: Plan) {
    var left := Members(f) - Done(batches);
    && |p.waves| == |batches| + (if left == {} then 0 else 1)
    && (forall k :: 0 <= k < |batches| ==> p.waves[k] == Wave(k, batches[k], false))
    && (left != {} ==>
          && p.waves[|batches|].index == |batches| && p.waves[|batches|].manual
          && Distinct(p.waves[|batches|].environments) && Elements(p.waves[|batches|].environments) == left
          && p.cycleWarning == Some(p.waves[|batches|].environments))
    && (left == {} ==> p.cycleWarning == None)
  }

  ghost predicate Planned(f: Fleet, op: OperationType, batches: seq<seq<Id>>, p: Plan) {
    && GreedyBatches(f, op, batches) && NoOvertaking(f, op, batches) && Exhausted(f, op, batches)
    && PlanOf(f, batches, p)
  }

  // ---- the planner ----

  ghost predicate TargetsAre(f: Fleet, op: OperationType, ds: seq<Dependency>, outgoing: map<Id, set<Id>>) {
    outgoing.Keys == Members(f) && forall u, v :: u in outgoing ==> (v in outgoing[u] <==> Edge(ds, op, u, v))
  }

  ghost predicate DegreesAre(f: Fleet, op: OperationType, ds: seq<Dependency>, indegree: map<Id, int>) {
    indegree.Keys == Members(f) && forall v :: v in indegree ==> indegree[v] == |Prerequisites(f, ds, op, v)|
  }

  lemma OneMoreDependency(ds: seq<Dependency>, i: nat, op: OperationType, u: Id, v: Id)
    requires i < |ds|
    ensures Edge(ds[..i + 1], op, u, v) <==>
      Edge(ds[..i], op, u, v) || (u == First(op, ds[i]) && v == Then(op, ds[i]))
  {
    assert ds[..i + 1] == ds[..i] + [ds[i]];
    if Edge(ds[..i], op, u, v) {
      var d :| d in ds[..i] && First(op, d) == u && Then(op, d) == v;
      assert d in ds[..i + 1];
    }
    assert ds[i] in ds[..i + 1];
  }

  lemma PrerequisitesGrow(f: Fleet, op: OperationType, i: nat, v: Id)
    requires ValidFleet(f) && i < |f.dependencies|
    ensures var d, old_ := f.dependencies[i], Prerequisites(f, f.dependencies[..i], op, v);
      Prerequisites(f, f.dependencies[..i + 1], op, v) == old_ + if Then(op, d) == v then {First(op, d)} else {}
  {
    forall u ensures u in Prerequisites(f, f.dependencies[..i + 1], op, v) <==>
      u in Prerequisites(f, f.dependencies[..i], op, v) ||
      (u == First(op, f.dependencies[i]) && v == Then(op, f.dependencies[i]))
    {
      OneMoreDependency(f.dependencies, i, op, u, v);
      assert f.dependencies[i] in f.dependencies;
    }
  }

  /** One round of counting: a dependency already recorded changes nothing, any other adds one edge. */
  lemma TargetsOne(f: Fleet, op: OperationType, i: nat, outgoing: map<Id, set<Id>>)
    requires ValidFleet(f) && i < |f.dependencies| && TargetsAre(f, op, f.dependencies[..i], outgoing)
    ensures var source, target := First(op, f.dependencies[i]), Then(op, f.dependencies[i]);
      && source in outgoing
      && TargetsAre(f, op, f.dependencies[..i + 1], outgoing[source := outgoing[source] + {target}])
      && (target in outgoing[source] ==> outgoing[source := outgoing[source] + {target}] == outgoing)
      && (target in outgoing[source] <==> Edge(f.dependencies[..i], op, source, target))
  {
    var ds := f.dependencies;
    assert ds[i] in ds;
    var source, target := First(op, ds[i]), Then(op, ds[i]);
    forall u, v ensures Edge(ds[..i + 1], op, u, v) <==> Edge(ds[..i], op, u, v) || (u == source && v == target) {
      OneMoreDependency(ds, i, op, u, v);
    }
    hide Edge, ValidFleet;
    if target in outgoing[source] {
      assert outgoing[source] + {target} == outgoing[source];
    }
  }

  lemma DegreeUp(f: Fleet, op: OperationType, ds: seq<Dependency>, more: seq<Dependency>, indegree: map<Id, int>, u: Id, v: Id)
    requires DegreesAre(f, op, ds, indegree) && v in indegree && u !in Prerequisites(f, ds, op, v)
    requires Prerequisites(f, more, op, v) == Prerequisites(f, ds, op, v) + {u}
    requires forall w | w != v :: Prerequisites(f, more, op, w) == Prerequisites(f, ds, op, w)
    ensures DegreesAre(f, op, more, indegree[v := indegree[v] + 1])
  {
    hide Prerequisites, Members;
  }

  lemma EndsAreMembers(f: Fleet, op: OperationType, i: nat, indegree: map<Id, int>)
    requires ValidFleet(f) && i < |f.dependencies| && DegreesAre(f, op, f.dependencies[..i], indegree)
    ensures First(op, f.dependencies[i]) in Members(f) && Then(op, f.dependencies[i]) in indegree
  {
    hide Prerequisites;
    assert f.dependencies[i] in f.dependencies;
  }

  lemma DegreesOne(f: Fleet, op: OperationType, i: nat, indegree: map<Id, int>)
    requires ValidFleet(f) && i < |f.dependencies| && DegreesAre(f, op, f.dependencies[..i], indegree)
    ensures var source, target := First(op, f.dependencies[i]), Then(op, f.dependencies[i]);
      && target in indegree
      && DegreesAre(f, op, f.dependencies[..i + 1], if Edge(f.dependencies[..i], op, source, target) then indegree
           else indegree[target := indegree[target] + 1])
  {
    hide Edge, ValidFleet, Members, Prerequisites, DegreesAre, First, Then;
    var ds := f.dependencies;
    var source, target := First(op, ds[i]), Then(op, ds[i]);
    EndsAreMembers(f, op, i, indegree);
    SourceAmong(f, op, ds[..i], source, target);
    PrerequisitesGrow(f, op, i, target);
    forall v | v != target ensures Prerequisites(f, ds[..i + 1], op, v) == Prerequisites(f, ds[..i], op, v) {
      PrerequisitesGrow(f, op, i, v);
    }
    if Edge(ds[..i], op, source, target) {
      SameDegrees(f, op, ds[..i], ds[..i + 1], indegree, target);
    } else {
      DegreeUp(f, op, ds[..i], ds[..i + 1], indegree, source, target);
    }
  }

  lemma SameDegrees(f: Fleet, op: OperationType, ds: seq<Dependency>, more: seq<Dependency>, indegree: map<Id, int>, v: Id)
    requires DegreesAre(f, op, ds, indegree)
    requires Prerequisites(f, more, op, v) == Prerequisites(f, ds, op, v)
    requires forall w | w != v :: Prerequisites(f, more, op, w) == Prerequisites(f, ds, op, w)
    ensures DegreesAre(f, op, more, indegree)
  {
    hide Prerequisites, Members;
  }

  lemma SourceAmong(f: Fleet, op: OperationType, ds: seq<Dependency>, u: Id, v: Id)
    requires u in Members(f)
    ensures u in Prerequisites(f, ds, op, v) <==> Edge(ds, op, u, v)
  {
  }

  lemma NothingCounted(f: Fleet, op: OperationType)
    ensures TargetsAre(f, op, [], map x | x in f.members :: {})
    ensures DegreesAre(f, op, [], map x | x in f.members :: 0)
  {
    assert forall v :: Prerequisites(f, [], op, v) == {};
  }

  method BuildGraph(f: Fleet, op: OperationType) returns (outgoing: map<Id, set<Id>>, indegree: map<Id, int>)
    requires ValidFleet(f)
    ensures TargetsAre(f, op, f.dependencies, outgoing) && DegreesAre(f, op, f.dependencies, indegree)
  {
    hide *;
    outgoing := map x | x in f.members :: {};
    indegree := map x | x in f.members :: 0;
    NothingCounted(f, op);
    assert f.dependencies[..0] == [];
    for i := 0 to |f.dependencies|
      invariant TargetsAre(f, op, f.dependencies[..i], outgoing) && DegreesAre(f, op, f.dependencies[..i], indegree)
    {
      var source, target := First(op, f.dependencies[i]), Then(op, f.dependencies[i]);
      TargetsOne(f, op, i, outgoing);
      DegreesOne(f, op, i, indegree);
      if target !in outgoing[source] {
        outgoing := outgoing[source := outgoing[source] + {target}];
        indegree := indegree[target := indegree[target] + 1];
      }
    }
    assert f.dependencies[..|f.dependencies|] == f.dependencies;
  }

  /**
   The planner's loop: `processed` have been placed, `freed` of them discounted from the degrees, and
   another one discounted for the members in `hit` only. The queue holds the unplaced members of degree zero.
   */
  ghost predicate Releasing(
    f: Fleet, op: OperationType, processed: set<Id>, freed: set<Id>, hit: set<Id>, indegree: map<Id, int>, ready: seq<Id>)
  {
    && freed <= processed <= Members(f) == indegree.Keys
    && DegreesLeft(f, op, freed, hit, indegree)
    && (forall v :: v in processed ==> Needs(f, op, v) <= freed)
    && Distinct(ready) && (forall v :: v in ready <==> v in indegree && v !in processed && indegree[v] == 0)
  }

  ghost predicate DegreesLeft(f: Fleet, op: OperationType, freed: set<Id>, hit: set<Id>, indegree: map<Id, int>) {
    forall v :: v in indegree ==> indegree[v] == Open(f, op, freed, v) - (if v in hit then 1 else 0)
  }

  /** How many prerequisites of `v` are not in `freed`. */
  ghost function Open(f: Fleet, op: OperationType, freed: set<Id>, v: Id): nat { |Needs(f, op, v) - freed| }

  lemma NoneOpen(f: Fleet, op: OperationType, freed: set<Id>, v: Id)
    ensures Open(f, op, freed, v) == 0 <==> Needs(f, op, v) <= freed
  {
    if Open(f, op, freed, v) == 0 {
      forall u | u in Needs(f, op, v) ensures u in freed { assert u !in Needs(f, op, v) - freed; }
    } else {
      var u :| u in Needs(f, op, v) - freed;
    }
  }

  lemma OneFewerOpen(f: Fleet, op: OperationType, freed: set<Id>, item: Id, v: Id)
    requires item !in freed
    ensures Open(f, op, freed + {item}, v) == Open(f, op, freed, v) - (if item in Needs(f, op, v) then 1 else 0)
  {
    assert Needs(f, op, v) - (freed + {item}) == (Needs(f, op, v) - freed) - {item};
  }

  ghost predicate Front(f: Fleet, op: OperationType, processed: set<Id>, indegree: map<Id, int>, ready: seq<Id>) {
    Releasing(f, op, processed, processed, {}, indegree, ready)
  }

  lemma QueueIsReady(f: Fleet, op: OperationType, processed: set<Id>, indegree: map<Id, int>, ready: seq<Id>)
    requires Front(f, op, processed, indegree, ready)
    ensures forall v :: v in ready <==> IsReady(f, op, processed, v)
  {
    hide Needs, Members, Open;
    forall v | v in indegree ensures indegree[v] == 0 <==> Needs(f, op, v) <= processed {
      NoneOpen(f, op, processed, v);
    }
  }

  lemma InitialFront(f: Fleet, op: OperationType, indegree: map<Id, int>, ready: seq<Id>)
    requires DegreesAre(f, op, f.dependencies, indegree)
    requires Distinct(ready) && forall v :: v in ready <==> v in indegree && indegree[v] == 0
    ensures Front(f, op, {}, indegree, ready)
  {
    forall v | v in indegree ensures Open(f, op, {}, v) == indegree[v] {
      assert Needs(f, op, v) - {} == Prerequisites(f, f.dependencies, op, v);
    }
    hide Needs, Prerequisites, Members, Open, DegreesAre;
  }

  /** Placing a batch of ready members keeps their prerequisites among those already discounted. */
  lemma PlaceBatch(f: Fleet, op: OperationType, processed: set<Id>, indegree: map<Id, int>, batch: seq<Id>, rest: seq<Id>)
    requires Front(f, op, processed, indegree, batch + rest)
    ensures Releasing(f, op, processed + Elements(batch), processed, {}, indegree, rest)
    ensures Distinct(batch) && forall x :: x in batch ==> IsReady(f, op, processed, x)
  {
    QueueIsReady(f, op, processed, indegree, batch + rest);
    hide Needs, Members, DegreesLeft, Distinct;
    SplitQueue(batch, rest);
  }

  lemma SplitQueue(a: seq<Id>, b: seq<Id>)
    requires Distinct(a + b)
    ensures Distinct(a) && Distinct(b)
    ensures forall x :: x in a ==> x !in b
    ensures forall x :: x in a + b <==> x in a || x in b
  {
    var c := a + b;
    assert forall i :: 0 <= i < |a| ==> c[i] == a[i];
    assert forall j :: 0 <= j < |b| ==> c[|a| + j] == b[j];
  }

  /** Discounting the placed member `item` for one more of its targets. */
  lemma HitOne(
    f: Fleet, op: OperationType, processed: set<Id>, freed: set<Id>, item: Id, hit: set<Id>,
    indegree: map<Id, int>, ready: seq<Id>, t: Id)
    requires Releasing(f, op, processed, freed, hit, indegree, ready)
    requires item in processed && item !in freed && t !in hit && t in Members(f) && item in Needs(f, op, t)
    ensures t in indegree && t !in processed
    ensures var less := indegree[t := indegree[t] - 1];
      Releasing(f, op, processed, freed, hit + {t}, less, if less[t] == 0 then ready + [t] else ready)
  {
    hide Needs, Members, Open;
    NoneOpen(f, op, freed, t);
    assert indegree[t] >= 1;
    assert t !in ready;
  }

  lemma AllHit(
    f: Fleet, op: OperationType, processed: set<Id>, freed: set<Id>, item: Id, hit: set<Id>,
    indegree: map<Id, int>, ready: seq<Id>)
    requires Releasing(f, op, processed, freed, hit, indegree, ready)
    requires item in processed && item !in freed
    requires forall t :: t in Members(f) ==> (t in hit <==> item in Needs(f, op, t))
    ensures Releasing(f, op, processed, freed + {item}, {}, indegree, ready)
  {
    hide Needs, Members, Open;
    forall v | v in indegree
      ensures Open(f, op, freed + {item}, v) == Open(f, op, freed, v) - (if v in hit then 1 else 0)
    {
      OneFewerOpen(f, op, freed, item, v);
    }
  }

  lemma TargetsNeed(f: Fleet, op: OperationType, outgoing: map<Id, set<Id>>, item: Id)
    requires ValidFleet(f) && TargetsAre(f, op, f.dependencies, outgoing) && item in Members(f)
    ensures item in outgoing && forall t :: t in outgoing[item] <==> t in Members(f) && item in Needs(f, op, t)
  {
  }

  method ReleaseTargets(
    f: Fleet, ghost op: OperationType, outgoing: map<Id, set<Id>>, item: Id, degrees: map<Id, int>, queue: seq<Id>,
    ghost processed: set<Id>, ghost freed: set<Id>)
    returns (indegree: map<Id, int>, ready: seq<Id>)
    requires ValidFleet(f) && TargetsAre(f, op, f.dependencies, outgoing)
    requires Releasing(f, op, processed, freed, {}, degrees, queue)
    requires item in processed && item in Members(f) && item !in freed
    ensures Releasing(f, op, processed, freed + {item}, {}, indegree, ready)
    ensures queue <= ready && forall t :: t in ready[|queue|..] ==> item in Needs(f, op, t)
  {
    hide *;
    indegree, ready := degrees, queue;
    Whole([]);
    TargetsNeed(f, op, outgoing, item);
    var targets := Text.Sorted(outgoing[item]);
    ghost var hit: set<Id> := Elements(targets[..0]);
    assert targets[..0] == [] && hit == {};
    for k := 0 to |targets|
      invariant hit == Elements(targets[..k])
      invariant Releasing(f, op, processed, freed, hit, indegree, ready)
      invariant queue <= ready && forall t :: t in ready[|queue|..] ==> item in Needs(f, op, t)
    {
      var target := targets[k];
      Prefix(targets, k);
      HitOne(f, op, processed, freed, item, hit, indegree, ready, target);
      indegree := indegree[target := indegree[target] - 1];
      if indegree[target] == 0 {
        ready := ready + [target];
      }
      hit := hit + {target};
    }
    assert targets[..|targets|] == targets;
    Whole(targets);
    AllHit(f, op, processed, freed, item, hit, indegree, ready);
  }

  lemma Prefix(xs: seq<Id>, k: nat)
    requires k < |xs|
    ensures Elements(xs[..k + 1]) == Elements(xs[..k]) + {xs[k]}
    ensures Distinct(xs) || (forall i, j :: 0 <= i < j < |xs| ==> xs[i] != xs[j]) ==> xs[k] !in Elements(xs[..k])
  {
    assert xs[..k + 1] == xs[..k] + [xs[k]];
  }

  lemma Whole(xs: seq<Id>)
    ensures forall x :: x in Elements(xs) <==> x in xs
  {
  }

  method TakeBatch(queue: seq<Id>, limit: int) returns (batch: seq<Id>, ready: seq<Id>)
    requires limit >= 1
    ensures batch + ready == queue && |batch| <= limit && (|batch| < limit ==> ready == [])
  {
    batch, ready := [], queue;
    while ready != [] && |batch| < limit
      invariant batch + ready == queue && |batch| <= limit
      decreases |ready|
    {
      var item := ready[0];
      ready := ready[1..];
      batch := batch + [item];
    }
  }

  lemma BatchIsGreedy(f: Fleet, op: OperationType, processed: set<Id>, indegree: map<Id, int>, batch: seq<Id>, rest: seq<Id>)
    requires ValidFleet(f) && Front(f, op, processed, indegree, batch + rest)
    requires batch + rest != [] && |batch| <= f.maxParallel && (|batch| < f.maxParallel ==> rest == [])
    ensures GreedyBatch(f, op, processed, batch)
  {
    PlaceBatch(f, op, processed, indegree, batch, rest);
    QueueIsReady(f, op, processed, indegree, batch + rest);
    hide Front, IsReady;
  }

  lemma BatchesGrow(f: Fleet, op: OperationType, batches: seq<seq<Id>>, batch: seq<Id>)
    requires GreedyBatches(f, op, batches) && GreedyBatch(f, op, Done(batches), batch)
    ensures GreedyBatches(f, op, batches + [batch]) && Done(batches + [batch]) == Done(batches) + Elements(batch)
  {
    var more := batches + [batch];
    assert more[..|batches|] == batches;
    forall k | 0 <= k < |more| ensures GreedyBatch(f, op, Done(more[..k]), more[k]) {
      if k < |batches| { assert more[..k] == batches[..k]; }
    }
  }

  lemma ProgressMade(f: Fleet, processed: set<Id>, batch: seq<Id>, op: OperationType)
    requires GreedyBatch(f, op, processed, batch)
    ensures |Members(f) - (processed + Elements(batch))| < |Members(f) - processed|
  {
    var x := batch[0];
    assert x in batch;
    assert IsReady(f, op, processed, x);
    SubsetSmaller(Members(f) - (processed + Elements(batch)), Members(f) - processed, x);
  }

  lemma SubsetSmaller(a: set<Id>, b: set<Id>, x: Id)
    requires a <= b && x in b && x !in a
    ensures |a| < |b|
  {
    assert a + (b - a) == b && x in b - a;
  }

  method ReleaseBatch(
    f: Fleet, ghost op: OperationType, outgoing: map<Id, set<Id>>, batch: seq<Id>, degrees: map<Id, int>, rest: seq<Id>,
    before: set<Id>)
    returns (indegree: map<Id, int>, ready: seq<Id>, processed: set<Id>)
    requires ValidFleet(f) && TargetsAre(f, op, f.dependencies, outgoing)
    requires Front(f, op, before, degrees, batch + rest)
    ensures processed == before + Elements(batch) && Front(f, op, processed, indegree, ready)
    ensures rest <= ready && forall t :: t in ready[|rest|..] ==> !(Needs(f, op, t) <= before)
  {
    hide *;
    PlaceBatch(f, op, before, degrees, batch, rest);
    indegree, ready := degrees, rest;
    Whole(batch);
    processed := before + set x | x in batch;
    SetOf(batch);
    assert batch[..0] == [];
    Whole([]);
    assert before + Elements(batch[..0]) == before;
    for j := 0 to |batch|
      invariant Releasing(f, op, processed, before + Elements(batch[..j]), {}, indegree, ready)
      invariant rest <= ready && forall t :: t in ready[|rest|..] ==> !(Needs(f, op, t) <= before)
    {
      Prefix(batch, j);
      NotBefore(f, op, before, batch[j]);
      assert before + Elements(batch[..j + 1]) == (before + Elements(batch[..j])) + {batch[j]};
      ghost var queue := ready;
      indegree, ready := ReleaseTargets(f, op, outgoing, batch[j], indegree, ready, processed, before + Elements(batch[..j]));
      forall t | t in ready[|rest|..] ensures !(Needs(f, op, t) <= before) {
        assert ready[|rest|..] == queue[|rest|..] + ready[|queue|..];
      }
    }
    assert batch[..|batch|] == batch;
    FrontIs(f, op, processed, indegree, ready);
  }

  lemma SetOf(xs: seq<Id>)
    ensures (set x | x in xs) == Elements(xs)
  {
  }

  lemma NotBefore(f: Fleet, op: OperationType, done: set<Id>, v: Id)
    requires IsReady(f, op, done, v)
    ensures v !in done && v in Members(f)
  {
  }

  lemma FrontIs(f: Fleet, op: OperationType, processed: set<Id>, indegree: map<Id, int>, ready: seq<Id>)
    requires Releasing(f, op, processed, processed, {}, indegree, ready)
    ensures Front(f, op, processed, indegree, ready)
  {
  }

  lemma {:induction false} DoneGrows(batches: seq<seq<Id>>, j: nat, k: nat)
    requires j <= k <= |batches|
    ensures Done(batches[..j]) <= Done(batches[..k])
    decreases k
  {
    if j < k {
      DoneGrows(batches, j, k - 1);
      assert batches[..k][..k - 1] == batches[..k - 1];
    }
  }

  /** Whatever was ready at a stage stands in the queue behind nothing that was not. */
  ghost predicate QueueOrdered(f: Fleet, op: OperationType, batches: seq<seq<Id>>, queue: seq<Id>) {
    forall a, b, j :: 0 <= a < b < |queue| && 0 <= j <= |batches| && Needs(f, op, queue[b]) <= Done(batches[..j]) ==>
      Needs(f, op, queue[a]) <= Done(batches[..j])
  }

  lemma StillOrdered(
    f: Fleet, op: OperationType, batches: seq<seq<Id>>, batch: seq<Id>, rest: seq<Id>, indegree: map<Id, int>, ready: seq<Id>)
    requires QueueOrdered(f, op, batches, batch + rest)
    requires Front(f, op, Done(batches + [batch]), indegree, ready)
    requires rest <= ready && forall t :: t in ready[|rest|..] ==> !(Needs(f, op, t) <= Done(batches))
    ensures QueueOrdered(f, op, batches + [batch], ready)
  {
    QueueIsReady(f, op, Done(batches + [batch]), indegree, ready);
    hide Needs, Members, Front, Done;
    var more := batches + [batch];
    forall i | |rest| <= i < |ready| ensures !(Needs(f, op, ready[i]) <= Done(batches)) {
      assert ready[|rest|..][i - |rest|] == ready[i];
    }
    forall a, b, j | 0 <= a < b < |ready| && 0 <= j <= |more| && Needs(f, op, ready[b]) <= Done(more[..j])
      ensures Needs(f, op, ready[a]) <= Done(more[..j])
    {
      if j == |more| {
        assert more[..j] == more;
        assert ready[a] in ready;
        assert IsReady(f, op, Done(more), ready[a]);
      } else {
        assert more[..j] == batches[..j] && batches[..|batches|] == batches;
        DoneGrows(batches, j, |batches|);
        assert (batch + rest)[|batch| + a] == ready[a] && (batch + rest)[|batch| + b] == ready[b];
      }
    }
  }

  lemma StillFair(f: Fleet, op: OperationType, batches: seq<seq<Id>>, batch: seq<Id>, rest: seq<Id>, indegree: map<Id, int>)
    requires QueueOrdered(f, op, batches, batch + rest) && Front(f, op, Done(batches), indegree, batch + rest)
    requires NoOvertaking(f, op, batches)
    ensures NoOvertaking(f, op, batches + [batch])
  {
    DoneOneMore(batches, batch);
    hide Needs, Members, Front, Done, IsReady, QueueOrdered;
    var more := batches + [batch];
    forall j, k, u, v | 0 <= j <= k < |more| && u in more[k] && Waits(f, op, more, j, k, v)
      ensures Needs(f, op, u) <= Done(more[..j])
    {
      assert more[..j] == batches[..j];
      if k < |batches| {
        assert more[..k + 1] == batches[..k + 1];
        assert Waits(f, op, batches, j, k, v);
      } else {
        assert more[..k + 1] == more;
        NewBatchIsFair(f, op, batches, batch, rest, indegree, j, u, v);
      }
    }
  }

  lemma NewBatchIsFair(
    f: Fleet, op: OperationType, batches: seq<seq<Id>>, batch: seq<Id>, rest: seq<Id>, indegree: map<Id, int>,
    j: nat, u: Id, v: Id)
    requires QueueOrdered(f, op, batches, batch + rest) && Front(f, op, Done(batches), indegree, batch + rest)
    requires j <= |batches| && u in batch && IsReady(f, op, Done(batches[..j]), v)
    requires v !in Done(batches) + Elements(batch)
    ensures Needs(f, op, u) <= Done(batches[..j])
  {
    hide Front, Done, Members, IsReady, Needs;
    QueueIsReady(f, op, Done(batches), indegree, batch + rest);
    assert batches[..|batches|] == batches;
    DoneGrows(batches, j, |batches|);
    StillReady(f, op, Done(batches[..j]), Done(batches), v);
    var queue := batch + rest;
    assert v in queue && v !in batch;
    var a, b :| 0 <= a < |batch| && 0 <= b < |rest| && batch[a] == u && rest[b] == v;
    assert queue[a] == u && queue[|batch| + b] == v;
    ReadyNeeds(f, op, Done(batches[..j]), v);
  }

  lemma ReadyNeeds(f: Fleet, op: OperationType, done: set<Id>, v: Id)
    requires IsReady(f, op, done, v)
    ensures Needs(f, op, v) <= done
  {
  }

  lemma StillReady(f: Fleet, op: OperationType, done: set<Id>, more: set<Id>, v: Id)
    requires IsReady(f, op, done, v) && done <= more && v !in more
    ensures IsReady(f, op, more, v)
  {
  }

  lemma DoneOneMore(batches: seq<seq<Id>>, batch: seq<Id>)
    ensures Done(batches + [batch]) == Done(batches) + Elements(batch)
    ensures forall x :: x in Elements(batch) <==> x in batch
  {
    assert (batches + [batch])[..|batches|] == batches;
  }

  ghost predicate AreBatches(waves: seq<Wave>, batches: seq<seq<Id>>) {
    |waves| == |batches| && forall k :: 0 <= k < |waves| ==> waves[k] == Wave(k, batches[k], false)
  }

  lemma WavesGrow(waves: seq<Wave>, batches: seq<seq<Id>>, batch: seq<Id>)
    requires AreBatches(waves, batches)
    ensures AreBatches(waves + [Wave(|waves|, batch, false)], batches + [batch])
  {
  }

  lemma NothingPlaced(f: Fleet, op: OperationType)
    ensures GreedyBatches(f, op, []) && NoOvertaking(f, op, []) && Done([]) == {} && AreBatches([], [])
  {
  }

  lemma FreshQueue(f: Fleet, op: OperationType, indegree: map<Id, int>, ready: seq<Id>)
    requires Front(f, op, {}, indegree, ready)
    ensures QueueOrdered(f, op, [], ready)
  {
    hide Needs, Members, Front, IsReady;
    QueueIsReady(f, op, {}, indegree, ready);
    var none: seq<seq<Id>> := [];
    assert none[..0] == none && Done(none) == {};
    hide Done;
    forall a | 0 <= a < |ready| ensures Needs(f, op, ready[a]) <= {} {
      assert ready[a] in ready;
      ReadyNeeds(f, op, {}, ready[a]);
    }
  }

  lemma EmptyQueueMeansExhausted(f: Fleet, op: OperationType, batches: seq<seq<Id>>, indegree: map<Id, int>)
    requires Front(f, op, Done(batches), indegree, [])
    ensures Exhausted(f, op, batches) && Done(batches) <= Members(f)
  {
    QueueIsReady(f, op, Done(batches), indegree, []);
  }

  lemma Finish(f: Fleet, batches: seq<seq<Id>>, waves: seq<Wave>, left: seq<Id>)
    requires AreBatches(waves, batches)
    requires Done(batches) <= Members(f)
    requires Distinct(left) && forall x :: x in left <==> x in Members(f) - Done(batches)
    ensures Done(batches) == Members(f) ==> PlanOf(f, batches, Plan(waves, None))
    ensures Done(batches) != Members(f) ==>
      PlanOf(f, batches, Plan(waves + [Wave(|waves|, left, true)], Some(left)))
  {
    hide Members, Done;
    var unplaced := Members(f) - Done(batches);
    assert Elements(left) == unplaced;
    if Done(batches) != Members(f) {
      if unplaced == {} {
        forall x | x in Members(f) ensures x in Done(batches) { assert x !in unplaced; }
      }
    }
  }

  lemma NoRepeats(xs: seq<Id>)
    requires forall i, j :: 0 <= i < j < |xs| ==> xs[i] != xs[j]
    ensures Distinct(xs)
  {
  }

  lemma MemberSet(f: Fleet)
    ensures (set x | x in f.members) == Members(f)
  {
  }

  method StartQueue(f: Fleet, ghost op: OperationType, indegree: map<Id, int>) returns (ready: seq<Id>)
    requires DegreesAre(f, op, f.dependencies, indegree)
    ensures Front(f, op, {}, indegree, ready)
  {
    hide *;
    ready := Text.Sorted(set x | x in indegree && indegree[x] == 0);
    NoRepeats(ready);
    InitialFront(f, op, indegree, ready);
  }

  method ClosePlan(f: Fleet, ghost batches: seq<seq<Id>>, automatic: seq<Wave>, processed: set<Id>) returns (plan: Plan)
    requires AreBatches(automatic, batches) && processed == Done(batches) && Done(batches) <= Members(f)
    ensures PlanOf(f, batches, plan)
  {
    hide *;
    var members := set x | x in f.members;
    var waves, warning := automatic, None;
    MemberSet(f);
    var cycleMembers := Text.Sorted(members - processed);
    NoRepeats(cycleMembers);
    Finish(f, batches, waves, cycleMembers);
    if processed != members {
      warning := Some(cycleMembers);
      waves := waves + [Wave(|waves|, cycleMembers, true)];
    }
    plan := Plan(waves, warning);
  }

  /** `plan_operation`. */
  method PlanOperation(f: Fleet, op: OperationType) returns (plan: Plan)
    requires ValidFleet(f)
    ensures exists batches :: Planned(f, op, batches, plan)
  {
    assert f.maxParallel >= 1;
    hide *;
    ghost var batches: seq<seq<Id>>;
    var outgoing, indegree := BuildGraph(f, op);
    var ready := StartQueue(f, op, indegree);
    var waves: seq<Wave> := [];
    var processed: set<Id> := {};
    batches := [];
    NothingPlaced(f, op);
    FreshQueue(f, op, indegree, ready);
    while ready != []
      invariant Front(f, op, processed, indegree, ready)
      invariant GreedyBatches(f, op, batches) && Done(batches) == processed && AreBatches(waves, batches)
      invariant NoOvertaking(f, op, batches) && QueueOrdered(f, op, batches, ready)
      decreases |Members(f) - processed|
    {
      var batch, rest := TakeBatch(ready, f.maxParallel);
      BatchIsGreedy(f, op, processed, indegree, batch, rest);
      BatchesGrow(f, op, batches, batch);
      WavesGrow(waves, batches, batch);
      ProgressMade(f, processed, batch, op);
      StillFair(f, op, batches, batch, rest, indegree);
      indegree, ready, processed := ReleaseBatch(f, op, outgoing, batch, indegree, rest, processed);
      StillOrdered(f, op, batches, batch, rest, indegree, ready);
      waves := waves + [Wave(|waves|, batch, false)];
      batches := batches + [batch];
    }
    EmptyQueueMeansExhausted(f, op, batches, indegree);
    plan := ClosePlan(f, batches, waves, processed);
    PlannedIs(f, op, batches, plan);
  }

  lemma PlannedIs(f: Fleet, op: OperationType, batches: seq<seq<Id>>, p: Plan)
    requires GreedyBatches(f, op, batches) && NoOvertaking(f, op, batches) && Exhausted(f, op, batches)
    requires PlanOf(f, batches, p)
    ensures Planned(f, op, batches, p)
  {
  }
}
