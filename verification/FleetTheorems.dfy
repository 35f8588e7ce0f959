/** What a wave plan guarantees: placement, order, cycles, and how many waves it takes. */
module FleetTheorems {
  import opened Basics
  import opened FleetPlan

  // ---- paths ----

  /** `u` has to be operated on before `v`. */
  ghost predicate Precedes(f: Fleet, op: OperationType, u: Id, v: Id) { Edge(f.dependencies, op, u, v) }

  /** A nonempty path along the precedences. */
  ghost predicate Chain(f: Fleet, op: OperationType, w: seq<Id>) {
    && w != [] && (forall i :: 0 <= i < |w| ==> w[i] in Members(f))
    && (forall i :: 0 <= i < |w| - 1 ==> Precedes(f, op, w[i], w[i + 1]))
  }

  /** A path that starts on a cycle, goes round it, and leads to `v`. */
  ghost predicate FromCycle(f: Fleet, op: OperationType, w: seq<Id>, j: nat, v: Id) {
    Chain(f, op, w) && 0 < j < |w| && w[0] == w[j] && w[|w| - 1] == v
  }

  /** `v` is on a cycle or reachable from one. */
  ghost predicate Entangled(f: Fleet, op: OperationType, v: Id) { exists w, j :: FromCycle(f, op, w, j, v) }

  ghost predicate Cyclic(f: Fleet, op: OperationType) {
    exists w :: Chain(f, op, w) && |w| >= 2 && w[0] == w[|w| - 1]
  }

  lemma CyclicMeansEntangled(f: Fleet, op: OperationType)
    ensures Cyclic(f, op) <==> exists v :: Entangled(f, op, v)
  {
    hide Members;
    if Cyclic(f, op) {
      var w :| Chain(f, op, w) && |w| >= 2 && w[0] == w[|w| - 1];
      assert FromCycle(f, op, w, |w| - 1, w[0]);
      assert Entangled(f, op, w[0]);
    }
    if v :| Entangled(f, op, v) {
      var w, j :| FromCycle(f, op, w, j, v);
      var loop := w[..j + 1];
      forall i | 0 <= i < |loop| - 1 ensures Precedes(f, op, loop[i], loop[i + 1]) {
        assert Precedes(f, op, w[i], w[i + 1]);
      }
      assert Chain(f, op, loop) && loop[0] == loop[|loop| - 1];
    }
  }

  // ---- order inside the automatic waves ----

  lemma {:induction false} DoneIs(batches: seq<seq<Id>>, x: Id)
    ensures x in Done(batches) <==> exists k :: 0 <= k < |batches| && x in batches[k]
    decreases |batches|
  {
    if batches != [] {
      var n := |batches| - 1;
      DoneIs(batches[..n], x);
      if x in Done(batches[..n]) {
        var k :| 0 <= k < n && x in batches[..n][k];
        assert x in batches[k];
      }
      forall k | 0 <= k < |batches| && x in batches[k] ensures x in Done(batches) {
        if k < n { assert x in batches[..n][k]; }
      }
      if x in Elements(batches[n]) { assert x in batches[n]; }
    }
  }

  /** A member's prerequisites are in strictly earlier waves than the member. */
  lemma PrerequisiteIsEarlier(f: Fleet, op: OperationType, batches: seq<seq<Id>>, u: Id, v: Id, k: nat)
    requires GreedyBatches(f, op, batches) && u in Members(f) && Precedes(f, op, u, v)
    requires k < |batches| && v in batches[k]
    ensures exists j :: 0 <= j < k && u in batches[j]
  {
    assert GreedyBatch(f, op, Done(batches[..k]), batches[k]);
    assert IsReady(f, op, Done(batches[..k]), v);
    assert u in Needs(f, op, v);
    DoneIs(batches[..k], u);
    var j :| 0 <= j < k && u in batches[..k][j];
    assert u in batches[j];
  }

  lemma NeverAgain(f: Fleet, op: OperationType, batches: seq<seq<Id>>, x: Id, j: nat, k: nat)
    requires GreedyBatches(f, op, batches) && j < k < |batches| && x in batches[j]
    ensures x !in batches[k]
  {
    DoneIs(batches[..k], x);
    assert x in batches[..k][j];
    assert GreedyBatch(f, op, Done(batches[..k]), batches[k]);
    assert !IsReady(f, op, Done(batches[..k]), x);
  }

  lemma PlacedOnce(f: Fleet, op: OperationType, batches: seq<seq<Id>>, x: Id, j: nat, k: nat)
    requires GreedyBatches(f, op, batches) && j < |batches| && k < |batches| && x in batches[j] && x in batches[k]
    ensures j == k
  {
    if j < k { NeverAgain(f, op, batches, x, j, k); }
    if k < j { NeverAgain(f, op, batches, x, k, j); }
  }

  /** The waves that `x` is in. */
  ghost predicate InWave(p: Plan, k: nat, x: Id) { k < |p.waves| && x in p.waves[k].environments }

  /** Every member is in exactly one wave, once; no wave holds anything else; automatic waves hold 1 to `maxParallel`. */
  lemma EveryMemberOnce(f: Fleet, op: OperationType, batches: seq<seq<Id>>, p: Plan)
    requires ValidFleet(f) && Planned(f, op, batches, p)
    ensures forall x :: x in Members(f) <==> exists k :: InWave(p, k, x)
    ensures forall x, j, k :: InWave(p, j, x) && InWave(p, k, x) ==> j == k
    ensures forall k :: 0 <= k < |p.waves| ==> p.waves[k].index == k && Distinct(p.waves[k].environments)
    ensures forall k :: 0 <= k < |p.waves| && !p.waves[k].manual ==> 1 <= |p.waves[k].environments| <= f.maxParallel
  {
    forall k | 0 <= k < |batches| ensures GreedyBatch(f, op, Done(batches[..k]), batches[k]) {
    }
    forall x ensures x in Members(f) <==> exists k :: InWave(p, k, x) { SomeWave(f, op, batches, p, x); }
    forall x, j, k | InWave(p, j, x) && InWave(p, k, x) ensures j == k {
      OneWave(f, op, batches, p, x, j, k);
    }
  }

  lemma SomeWave(f: Fleet, op: OperationType, batches: seq<seq<Id>>, p: Plan, x: Id)
    requires Planned(f, op, batches, p)
    ensures x in Members(f) <==> exists k :: InWave(p, k, x)
  {
    DoneIs(batches, x);
    var n := |batches|;
    if x in Members(f) {
      if x in Done(batches) {
        var k :| 0 <= k < n && x in batches[k];
        assert InWave(p, k, x);
      } else {
        assert x in Members(f) - Done(batches);
        assert InWave(p, n, x);
      }
    }
    if k: nat :| InWave(p, k, x) {
      if k < n {
        assert GreedyBatch(f, op, Done(batches[..k]), batches[k]);
        assert IsReady(f, op, Done(batches[..k]), x);
      } else {
        assert x in Elements(p.waves[n].environments);
      }
    }
  }

  lemma OneWave(f: Fleet, op: OperationType, batches: seq<seq<Id>>, p: Plan, x: Id, j: nat, k: nat)
    requires Planned(f, op, batches, p) && InWave(p, j, x) && InWave(p, k, x)
    ensures j == k
  {
    var n := |batches|;
    DoneIs(batches, x);
    if j < n && k < n {
      PlacedOnce(f, op, batches, x, j, k);
    } else {
      LeftoverIsUnplaced(f, batches, p, x);
    }
  }

  lemma LeftoverIsUnplaced(f: Fleet, batches: seq<seq<Id>>, p: Plan, x: Id)
    requires PlanOf(f, batches, p) && InWave(p, |batches|, x)
    ensures x !in Done(batches)
  {
    assert x in Elements(p.waves[|batches|].environments);
  }

  /** In the finished plan, a prerequisite is never in a later wave than its dependent, and is in an earlier one
      unless both were left for manual ordering. */
  lemma PrerequisitesComeFirst(f: Fleet, op: OperationType, batches: seq<seq<Id>>, p: Plan, u: Id, v: Id, j: nat, k: nat)
    requires ValidFleet(f) && Planned(f, op, batches, p) && Precedes(f, op, u, v)
    requires InWave(p, j, u) && InWave(p, k, v)
    ensures j < k || (j == k && p.waves[k].manual)
    ensures !p.waves[k].manual ==> j < k
  {
    var n := |batches|;
    SomeWave(f, op, batches, p, u);
    if k < n {
      PrerequisiteIsEarlier(f, op, batches, u, v, k);
      var i :| 0 <= i < k && u in batches[i];
      assert InWave(p, i, u);
      OneWave(f, op, batches, p, u, i, j);
    }
  }

  // ---- cycles ----

  /** Along a chain that ends in an automatic wave, waves strictly increase. */
  lemma {:induction false} ChainClimbs(f: Fleet, op: OperationType, batches: seq<seq<Id>>, w: seq<Id>, i: nat, k: nat)
    requires GreedyBatches(f, op, batches) && Chain(f, op, w) && i < |w| && k < |batches| && w[|w| - 1] in batches[k]
    ensures exists j :: 0 <= j <= k - (|w| - 1 - i) && w[i] in batches[j]
    decreases |w| - i
  {
    if i == |w| - 1 {
      assert w[i] in batches[k];
    } else {
      ChainClimbs(f, op, batches, w, i + 1, k);
      var j :| 0 <= j <= k - (|w| - 2 - i) && w[i + 1] in batches[j];
      assert Precedes(f, op, w[i], w[i + 1]);
      PrerequisiteIsEarlier(f, op, batches, w[i], w[i + 1], j);
    }
  }

  /** Nothing on or behind a cycle is ever placed automatically. */
  lemma EntangledIsNeverPlaced(f: Fleet, op: OperationType, batches: seq<seq<Id>>, w: seq<Id>, j: nat, v: Id)
    requires GreedyBatches(f, op, batches) && FromCycle(f, op, w, j, v)
    ensures v !in Done(batches)
  {
    DoneIs(batches, v);
    if k :| 0 <= k < |batches| && v in batches[k] {
      ChainClimbs(f, op, batches, w, j, k);
      var b :| 0 <= b <= k - (|w| - 1 - j) && w[j] in batches[b];
      var front := w[..j + 1];
      assert Chain(f, op, front) && front[|front| - 1] in batches[b];
      ChainClimbs(f, op, batches, front, 0, b);
      var a :| 0 <= a <= b - j && front[0] in batches[a];
      PlacedOnce(f, op, batches, w[0], a, b);
      assert false;
    }
  }

  /** From an unplaced member one can walk back through unplaced prerequisites for ever. */
  lemma {:induction false} WalkBack(f: Fleet, op: OperationType, batches: seq<seq<Id>>, v: Id, n: nat) returns (w: seq<Id>)
    requires Exhausted(f, op, batches) && v in Members(f) && v !in Done(batches)
    ensures |w| == n + 1 && Chain(f, op, w) && w[n] == v
    ensures forall i :: 0 <= i < |w| ==> w[i] !in Done(batches)
  {
    if n == 0 {
      w := [v];
    } else {
      var rest := WalkBack(f, op, batches, v, n - 1);
      assert !IsReady(f, op, Done(batches), rest[0]);
      var u :| u in Needs(f, op, rest[0]) && u !in Done(batches);
      w := [u] + rest;
      forall i | 0 <= i < |w| - 1 ensures Precedes(f, op, w[i], w[i + 1]) {
        if i > 0 { assert Precedes(f, op, rest[i - 1], rest[i]); }
      }
    }
  }

  lemma {:induction false} Pigeonhole(w: seq<Id>, s: set<Id>) returns (i: nat, j: nat)
    requires |w| > |s| && forall k :: 0 <= k < |w| ==> w[k] in s
    ensures i < j < |w| && w[i] == w[j]
    decreases |w|
  {
    var n := |w| - 1;
    if k :| 0 <= k < n && w[k] == w[n] {
      i, j := k, n;
    } else {
      i, j := Pigeonhole(w[..n], s - {w[n]});
    }
  }

  /** Whatever is left unplaced is on a cycle or reachable from one. */
  lemma UnplacedIsEntangled(f: Fleet, op: OperationType, batches: seq<seq<Id>>, v: Id)
    requires Exhausted(f, op, batches) && v in Members(f) && v !in Done(batches)
    ensures Entangled(f, op, v)
  {
    var w := WalkBack(f, op, batches, v, |Members(f)|);
    var i, j := Pigeonhole(w, Members(f));
    var tail := w[i..];
    forall k | 0 <= k < |tail| - 1 ensures Precedes(f, op, tail[k], tail[k + 1]) {
      assert Precedes(f, op, w[i + k], w[i + k + 1]);
    }
    assert Chain(f, op, tail);
    assert FromCycle(f, op, tail, j - i, v);
  }

  /** The warning is issued exactly for cyclic fleets, and names exactly the members on or reachable from a cycle. */
  lemma WarningIsExact(f: Fleet, op: OperationType, batches: seq<seq<Id>>, p: Plan)
    requires ValidFleet(f) && Planned(f, op, batches, p)
    ensures p.cycleWarning.Some? <==> Cyclic(f, op)
    ensures p.cycleWarning.Some? ==>
      forall v :: v in p.cycleWarning.value <==> v in Members(f) && Entangled(f, op, v)
    ensures p.cycleWarning.Some? <==> exists k :: 0 <= k < |p.waves| && p.waves[k].manual
  {
    forall v ensures v in Members(f) - Done(batches) <==> v in Members(f) && Entangled(f, op, v) {
      if v in Members(f) && v !in Done(batches) { UnplacedIsEntangled(f, op, batches, v); }
      if w, j :| FromCycle(f, op, w, j, v) { EntangledIsNeverPlaced(f, op, batches, w, j, v); }
    }
    CyclicMeansEntangled(f, op);
    forall v | Entangled(f, op, v) ensures v in Members(f) {
      var w, j :| FromCycle(f, op, w, j, v);
    }
    hide Entangled, Cyclic, Done, Members;
    var left := Members(f) - Done(batches);
    if left != {} {
      assert p.waves[|batches|].manual;
      var v :| v in left;
      assert Entangled(f, op, v);
      forall v ensures v in p.cycleWarning.value <==> v in left {
        assert v in p.cycleWarning.value <==> v in Elements(p.cycleWarning.value);
      }
    }
  }

  // ---- shutting down ----

  function Backwards(w: seq<Id>): (r: seq<Id>)
    ensures |r| == |w|
  {
    seq(|w|, i requires 0 <= i < |w| => w[|w| - 1 - i])
  }

  lemma BackwardsChain(f: Fleet, op: OperationType, other: OperationType, w: seq<Id>)
    requires Chain(f, op, w) && (op == Shutdown <==> other != Shutdown)
    ensures Chain(f, other, Backwards(w))
    ensures w != [] && Backwards(w)[0] == w[|w| - 1] && Backwards(w)[|w| - 1] == w[0]
  {
    hide Members;
    var r, n := Backwards(w), |w|;
    forall i | 0 <= i < n - 1 ensures Precedes(f, other, r[i], r[i + 1]) {
      assert Precedes(f, op, w[n - 2 - i], w[n - 1 - i]);
    }
  }

  lemma CyclesTurnRound(f: Fleet, op: OperationType, other: OperationType)
    requires Cyclic(f, op) && (op == Shutdown <==> other != Shutdown)
    ensures Cyclic(f, other)
  {
    hide Chain;
    var w :| Chain(f, op, w) && |w| >= 2 && w[0] == w[|w| - 1];
    BackwardsChain(f, op, other, w);
  }

  /** The first member of a chain is as many waves ahead of the last as the chain has steps. */
  lemma ChainsSpread(f: Fleet, op: OperationType, batches: seq<seq<Id>>, p: Plan, w: seq<Id>, j: nat, k: nat)
    requires Planned(f, op, batches, p) && Chain(f, op, w)
    requires InWave(p, j, w[0]) && InWave(p, k, w[|w| - 1]) && !p.waves[k].manual
    ensures k - j >= |w| - 1
  {
    ChainClimbs(f, op, batches, w, 0, k);
    var a :| 0 <= a <= k - (|w| - 1) && w[0] in batches[a];
    assert InWave(p, a, w[0]);
    OneWave(f, op, batches, p, w[0], a, j);
  }

  /**
   A shutdown undoes the order of any other operation on the same fleet. Both plans warn or neither does; and where a
   chain of dependencies is planned without manual ordering, it comes up from its first member to its last and goes
   down from its last to its first, each time over at least as many waves as it has steps.
   */
  lemma ShutdownReverses(
    f: Fleet, op: OperationType, up: seq<seq<Id>>, p: Plan, down: seq<seq<Id>>, q: Plan, w: seq<Id>, j: nat, k: nat,
    first: nat, last: nat)
    requires ValidFleet(f) && op != Shutdown && Planned(f, op, up, p) && Planned(f, Shutdown, down, q)
    requires Chain(f, op, w) && InWave(p, j, w[0]) && InWave(p, k, w[|w| - 1])
    requires InWave(q, first, w[0]) && InWave(q, last, w[|w| - 1])
    ensures p.cycleWarning.Some? <==> q.cycleWarning.Some?
    ensures !p.waves[k].manual ==> k - j >= |w| - 1
    ensures !q.waves[first].manual ==> first - last >= |w| - 1
  {
    hide Planned, ValidFleet, Chain, Cyclic, Entangled, Members, Backwards;
    WarningIsExact(f, op, up, p);
    WarningIsExact(f, Shutdown, down, q);
    if Cyclic(f, op) { CyclesTurnRound(f, op, Shutdown); }
    if Cyclic(f, Shutdown) { CyclesTurnRound(f, Shutdown, op); }
    BackwardsChain(f, op, Shutdown, w);
    if !p.waves[k].manual { ChainsSpread(f, op, up, p, w, j, k); }
    if !q.waves[first].manual { ChainsSpread(f, Shutdown, down, q, Backwards(w), last, first); }
  }

  // ---- how many waves ----

  ghost predicate ChainsWithin(f: Fleet, op: OperationType, rest: set<Id>, bound: int) {
    forall w :: Chain(f, op, w) && (forall i :: 0 <= i < |w| ==> w[i] in rest) ==> |w| <= bound
  }

  /** Once every ready member has been placed, the longest chain among the others is shorter by one. */
  lemma ExhaustingShortens(f: Fleet, op: OperationType, done: set<Id>, more: set<Id>, bound: int)
    requires ChainsWithin(f, op, Members(f) - done, bound)
    requires done <= more && forall x :: IsReady(f, op, done, x) ==> x in more
    ensures ChainsWithin(f, op, Members(f) - more, bound - 1)
  {
    forall w | Chain(f, op, w) && forall i :: 0 <= i < |w| ==> w[i] in Members(f) - more
      ensures |w| <= bound - 1
    {
      assert !IsReady(f, op, done, w[0]);
      var u :| u in Needs(f, op, w[0]) && u !in done;
      var longer := [u] + w;
      forall i | 0 <= i < |longer| - 1 ensures Precedes(f, op, longer[i], longer[i + 1]) {
        if i > 0 { assert Precedes(f, op, w[i - 1], w[i]); }
      }
      assert Chain(f, op, longer);
      assert forall i :: 0 <= i < |longer| ==> longer[i] in Members(f) - done;
    }
  }

  lemma FewerChains(f: Fleet, op: OperationType, rest: set<Id>, less: set<Id>, bound: int)
    requires ChainsWithin(f, op, rest, bound) && less <= rest
    ensures ChainsWithin(f, op, less, bound)
  {
  }

  lemma SizeOfElements(xs: seq<Id>)
    requires Distinct(xs)
    ensures |Elements(xs)| == |xs|
  {
    if xs != [] {
      var n := |xs| - 1;
      SizeOfElements(xs[..n]);
      assert Elements(xs) == Elements(xs[..n]) + {xs[n]};
    }
  }

  lemma DisjointCount(a: set<Id>, b: set<Id>)
    requires a !! b
    ensures |a + b| == |a| + |b|
  {
  }

  /** Every wave is full or shortens the longest remaining chain: `full * m` members are used up by full waves. */
  lemma {:induction false} WaveBudget(f: Fleet, op: OperationType, batches: seq<seq<Id>>, longest: nat) returns (full: nat)
    requires ValidFleet(f) && GreedyBatches(f, op, batches) && ChainsWithin(f, op, Members(f), longest)
    ensures full <= |batches| <= full + longest && full * f.maxParallel <= |Done(batches)|
    ensures ChainsWithin(f, op, Members(f) - Done(batches), longest - (|batches| - full))
    ensures Done(batches) <= Members(f)
    decreases |batches|
  {
    if batches == [] {
      assert Members(f) - Done(batches) == Members(f);
      return 0;
    }
    hide *;
    var n := |batches| - 1;
    InitIsGreedy(f, op, batches);
    var before := WaveBudget(f, op, batches[..n], longest);
    DoneSplits(batches);
    full := if |batches[n]| == f.maxParallel then before + 1 else before;
    BudgetStep(f, op, Done(batches[..n]), batches[n], n, before, longest);
  }

  lemma InitIsGreedy(f: Fleet, op: OperationType, batches: seq<seq<Id>>)
    requires GreedyBatches(f, op, batches) && batches != []
    ensures var n := |batches| - 1;
      GreedyBatches(f, op, batches[..n]) && GreedyBatch(f, op, Done(batches[..n]), batches[n])
  {
    var n := |batches| - 1;
    forall k | 0 <= k < n ensures GreedyBatch(f, op, Done(batches[..n][..k]), batches[..n][k]) {
      assert batches[..n][..k] == batches[..k];
    }
  }

  lemma BudgetStep(f: Fleet, op: OperationType, done: set<Id>, batch: seq<Id>, n: nat, before: nat, longest: nat)
    requires GreedyBatch(f, op, done, batch) && done <= Members(f)
    requires before <= n <= before + longest && before * f.maxParallel <= |done|
    requires ChainsWithin(f, op, Members(f) - done, longest - (n - before))
    ensures var full := if |batch| == f.maxParallel then before + 1 else before;
      && full <= n + 1 <= full + longest && full * f.maxParallel <= |done + Elements(batch)|
      && ChainsWithin(f, op, Members(f) - (done + Elements(batch)), longest - (n + 1 - full))
      && done + Elements(batch) <= Members(f)
  {
    hide Members, ChainsWithin, GreedyBatch, IsReady;
    BatchFacts(f, op, done, batch);
    DisjointCount(done, Elements(batch));
    if |batch| == f.maxParallel {
      FewerChains(f, op, Members(f) - done, Members(f) - (done + Elements(batch)), longest - (n - before));
      OneMoreTimes(before, f.maxParallel);
    } else {
      OneIsAChain(f, op, Members(f) - done, longest - (n - before), batch[0]);
      ExhaustingShortens(f, op, done, done + Elements(batch), longest - (n - before));
    }
  }

  lemma OneMoreTimes(k: int, m: int)
    ensures (k + 1) * m == k * m + m
  {
  }

  lemma OneIsAChain(f: Fleet, op: OperationType, rest: set<Id>, bound: int, x: Id)
    requires ChainsWithin(f, op, rest, bound) && x in rest && x in Members(f)
    ensures bound >= 1
  {
    assert Chain(f, op, [x]);
  }

  lemma DoneSplits(batches: seq<seq<Id>>)
    requires batches != []
    ensures Done(batches) == Done(batches[..|batches| - 1]) + Elements(batches[|batches| - 1])
  {
  }

  lemma BatchFacts(f: Fleet, op: OperationType, done: set<Id>, batch: seq<Id>)
    requires GreedyBatch(f, op, done, batch)
    ensures Elements(batch) !! done && Elements(batch) <= Members(f) && |Elements(batch)| == |batch| >= 1
    ensures batch[0] in Members(f) && batch[0] !in done
    ensures |batch| <= f.maxParallel
    ensures |batch| < f.maxParallel ==> forall x :: IsReady(f, op, done, x) ==> x in done + Elements(batch)
  {
    SizeOfElements(batch);
    forall x | x in Elements(batch) ensures x !in done && x in Members(f) { assert IsReady(f, op, done, x); }
  }

  /** A fleet with a longest chain at all is acyclic, so its plan needs no manual wave. */
  lemma BoundedMeansAcyclic(f: Fleet, op: OperationType, batches: seq<seq<Id>>, p: Plan, longest: nat)
    requires ValidFleet(f) && Planned(f, op, batches, p) && ChainsWithin(f, op, Members(f), longest)
    ensures |p.waves| == |batches| && Members(f) == Done(batches)
  {
    var left := Members(f) - Done(batches);
    var full := WaveBudget(f, op, batches, longest);
    if v :| v in left {
      var w := WalkBack(f, op, batches, v, longest);
      assert false;
    }
  }

  /**
   The wave bound: n members, at most m at a time, longest chain `longest` give at most n / m + longest waves.
   */
  lemma WaveBound(f: Fleet, op: OperationType, batches: seq<seq<Id>>, p: Plan, longest: nat)
    requires ValidFleet(f) && Planned(f, op, batches, p) && ChainsWithin(f, op, Members(f), longest)
    ensures |p.waves| <= |f.members| / f.maxParallel + longest
  {
    BoundedMeansAcyclic(f, op, batches, p, longest);
    var full := WaveBudget(f, op, batches, longest);
    SizeOfElements(f.members);
    SubsetCount(Done(batches), Members(f));
    hide *;
    Quotient(full, f.maxParallel, |f.members|);
  }

  lemma Quotient(k: nat, m: int, n: nat)
    requires m >= 1 && k * m <= n
    ensures k <= n / m
  {
    assert n == n / m * m + n % m;
    OneMoreTimes(n / m, m);
    Cancel(k, n / m + 1, m);
  }

  lemma Cancel(a: int, b: int, m: int)
    requires m >= 1 && a * m < b * m
    ensures a < b
  {
  }

  /** Conversely every chain needs as many waves as it is long, and `k` waves place at most `k * m` members. */
  lemma WavesAreNeeded(f: Fleet, op: OperationType, batches: seq<seq<Id>>, p: Plan, longest: nat, w: seq<Id>)
    requires ValidFleet(f) && Planned(f, op, batches, p) && ChainsWithin(f, op, Members(f), longest)
    requires Chain(f, op, w)
    ensures |w| <= |p.waves| && |f.members| <= |p.waves| * f.maxParallel
  {
    BoundedMeansAcyclic(f, op, batches, p, longest);
    DoneIs(batches, w[|w| - 1]);
    var k :| 0 <= k < |batches| && w[|w| - 1] in batches[k];
    ChainClimbs(f, op, batches, w, 0, k);
    SizeOfElements(f.members);
    DoneIsSmall(f, op, batches);
    TimesIsProduct(|batches|, f.maxParallel);
  }

  function Times(n: nat, m: int): int { if n == 0 then 0 else Times(n - 1, m) + m }

  lemma {:induction false} TimesIsProduct(n: nat, m: int)
    ensures Times(n, m) == n * m
  {
    if n > 0 { TimesIsProduct(n - 1, m); }
  }

  lemma TimesStep(n: nat, m: int)
    ensures Times(n + 1, m) == Times(n, m) + m
  {
  }

  lemma NothingIsSmall(m: int)
    ensures |Done([])| == Times(0, m)
  {
  }

  lemma {:induction false} DoneIsSmall(f: Fleet, op: OperationType, batches: seq<seq<Id>>)
    requires GreedyBatches(f, op, batches)
    ensures |Done(batches)| <= Times(|batches|, f.maxParallel)
    decreases |batches|
  {
    hide *;
    if batches == [] {
      NothingIsSmall(f.maxParallel);
    } else {
      var n := |batches| - 1;
      InitIsGreedy(f, op, batches);
      DoneIsSmall(f, op, batches[..n]);
      DoneSplits(batches);
      BatchFacts(f, op, Done(batches[..n]), batches[n]);
      DisjointCount(Done(batches[..n]), Elements(batches[n]));
      TimesStep(n, f.maxParallel);
    }
  }
}
