/** Conservation of attempts: how many leases a task can ever get, and what its attempt counter counts. */
module DispatchAttempts {
  import opened Basics
  import opened DispatchState
  import opened DispatchInvariant
  import opened DispatchRuns

  function LeasesOf(s: State, t: Id, status: LeaseStatus): set<Id> {
    set l | l in s.leases && s.leases[l].task == t && s.leases[l].status == status
  }

  function AllLeasesOf(s: State, t: Id): set<Id> { set l | l in s.leases && s.leases[l].task == t }

  /** What a task looked like when it was enqueued, and which tasks were ended by a lease running out. */
  datatype History = History(born: map<Id, Task>, ended: set<Id>)

  ghost function Remember(s: State, h: History, c: Call): History {
    var n := Next(s, c);
    History(
      map t | t in n.tasks :: if t in h.born then h.born[t] else n.tasks[t],
      h.ended + set t | t in s.tasks && t in n.tasks && s.tasks[t].status == Leased && n.tasks[t].status == Expired)
  }

  ghost function Past(s: State, h: History, calls: seq<Call>): History
    decreases calls
  {
    if calls == [] then h else Past(Next(s, calls[0]), Remember(s, h, calls[0]), calls[1..])
  }

  /** The books of one task balance. */
  ghost predicate Balanced(s: State, h: History, t: Id) {
    && t in s.tasks && t in h.born && ValidTask(s.tasks[t])
    && s.tasks[t].maxAttempts == h.born[t].maxAttempts
    && |LeasesOf(s, t, LeaseExpired)| == s.tasks[t].attempt - h.born[t].attempt + (if t in h.ended then 1 else 0)
    && (t in h.ended ==> s.tasks[t].status == Expired && s.tasks[t].attempt == s.tasks[t].maxAttempts)
    && LeasesOf(s, t, LeaseRevoked) == {}
  }

  ghost predicate AllBalanced(s: State, h: History) {
    h.born.Keys == s.tasks.Keys && h.ended <= s.tasks.Keys && forall t :: t in s.tasks ==> Balanced(s, h, t)
  }

  /** The one lease that the sweep takes from `t`. */
  lemma LostLease(s: State, now: Instant, t: Id) returns (l: Id)
    requires Inv(s) && LosesLease(s, s.leases.Keys, t, now)
    ensures l in s.leases && s.leases[l].task == t && Stale(s.leases[l], now)
    ensures forall m :: m in s.leases && s.leases[m].task == t && Stale(s.leases[m], now) ==> m == l
    ensures t in s.tasks && s.tasks[t].status == Leased
  {
    l :| l in s.leases && s.leases[l].task == t && Stale(s.leases[l], now);
    assert Is(s, l, Active);
    forall m | m in s.leases && s.leases[m].task == t && Stale(s.leases[m], now) ensures m == l {
      assert Is(s, m, Active);
    }
  }

  lemma SweepMoves(s: State, now: Instant, t: Id, lost: set<Id>)
    requires forall l :: l in lost <==> l in s.leases && s.leases[l].task == t && Stale(s.leases[l], now)
    ensures LeasesOf(AfterExpire(s, now), t, LeaseExpired) == LeasesOf(s, t, LeaseExpired) + lost
    ensures LeasesOf(s, t, LeaseExpired) * lost == {}
    ensures LeasesOf(AfterExpire(s, now), t, LeaseRevoked) == LeasesOf(s, t, LeaseRevoked)
  {
    hide SweptTasks;
  }

  /** A task that the sweep requeues or ends has exactly one more expired lease than before. */
  lemma SweepAddsOne(s: State, now: Instant, t: Id)
    requires Inv(s) && t in s.tasks
    ensures var n := AfterExpire(s, now);
      |LeasesOf(n, t, LeaseExpired)| == |LeasesOf(s, t, LeaseExpired)| +
        (if LosesLease(s, s.leases.Keys, t, now) then 1 else 0)
      && LeasesOf(n, t, LeaseRevoked) == LeasesOf(s, t, LeaseRevoked)
  {
    hide Inv, LeasesOf, AfterExpire;
    if LosesLease(s, s.leases.Keys, t, now) {
      var l := LostLease(s, now, t);
      SweepMoves(s, now, t, {l});
    } else {
      SweepMoves(s, now, t, {});
    }
  }

  lemma SweepBalances(s: State, h: History, h': History, now: Instant, t: Id)
    requires Inv(s) && Balanced(s, h, t)
    requires t in h'.born && h'.born[t] == h.born[t]
    requires t in h'.ended <==>
      (t in h.ended || (s.tasks[t].status == Leased && AfterExpire(s, now).tasks[t].status == Expired))
    ensures Balanced(AfterExpire(s, now), h', t)
  {
    hide Inv, LeasesOf;
    if LosesLease(s, s.leases.Keys, t, now) { var l := LostLease(s, now, t); }
    SweepAddsOne(s, now, t);
  }

  /** A call that expires no lease of `t` and keeps its attempt counter keeps its books balanced. */
  lemma SameBooks(s: State, n: State, h: History, h': History, t: Id)
    requires Balanced(s, h, t)
    requires LeasesOf(n, t, LeaseExpired) == LeasesOf(s, t, LeaseExpired)
    requires LeasesOf(n, t, LeaseRevoked) == LeasesOf(s, t, LeaseRevoked)
    requires t in n.tasks && n.tasks[t].attempt == s.tasks[t].attempt && n.tasks[t].maxAttempts == s.tasks[t].maxAttempts
    requires t in h'.born && h'.born[t] == h.born[t] && (t in h'.ended <==> t in h.ended)
    requires t in h.ended ==> n.tasks[t].status == Expired
    ensures Balanced(n, h', t)
  {
  }

  /** Calls other than sweeps expire and revoke no lease of `t`. */
  lemma NoLeaseLost(s: State, c: Call, t: Id)
    requires Inv(s) && Lawful(s, c)
    requires c.Expire? ==> false
    requires c.Renew? || c.Complete? ==> HoldsLive(s, c.leaseId, c.nonce, c.now) || !Holds(s, c.leaseId, c.nonce)
    ensures LeasesOf(Next(s, c), t, LeaseExpired) == LeasesOf(s, t, LeaseExpired)
    ensures LeasesOf(Next(s, c), t, LeaseRevoked) == LeasesOf(s, t, LeaseRevoked)
  {
    hide Inv, Candidates;
  }

  lemma AttemptIsKept(s: State, c: Call, t: Id)
    requires Inv(s) && t in s.tasks
    requires c.Expire? ==> false
    requires c.Renew? || c.Complete? ==> HoldsLive(s, c.leaseId, c.nonce, c.now) || !Holds(s, c.leaseId, c.nonce)
    ensures var n := Next(s, c);
      t in n.tasks && n.tasks[t].attempt == s.tasks[t].attempt && n.tasks[t].maxAttempts == s.tasks[t].maxAttempts
      && (s.tasks[t].status == Expired ==> n.tasks[t].status == Expired)
      && (s.tasks[t].status == Leased ==> n.tasks[t].status != Expired)
  {
    if c.Complete? && HoldsLive(s, c.leaseId, c.nonce, c.now) { assert Is(s, c.leaseId, Active); }
    hide Inv, Candidates;
  }

  ghost predicate Sweeps(s: State, c: Call) {
    c.Expire? || ((c.Renew? || c.Complete?) && Holds(s, c.leaseId, c.nonce) && !HoldsLive(s, c.leaseId, c.nonce, c.now))
  }

  lemma OldTaskStaysBalanced(s: State, h: History, c: Call, t: Id)
    requires Inv(s) && Lawful(s, c) && Balanced(s, h, t)
    ensures Balanced(Next(s, c), Remember(s, h, c), t)
  {
    var n, h' := Next(s, c), Remember(s, h, c);
    if Sweeps(s, c) {
      assert n == AfterExpire(s, c.now);
      SweepBalances(s, h, h', c.now, t);
    } else {
      hide Inv, LeasesOf;
      NoLeaseLost(s, c, t);
      AttemptIsKept(s, c, t);
      SameBooks(s, n, h, h', t);
    }
  }

  lemma NewTaskIsEnqueued(s: State, c: Call, t: Id)
    requires t in Next(s, c).tasks && t !in s.tasks
    ensures c.Enqueue?
  {
    hide Candidates, LosesLease;
  }

  lemma LeasesAreKnown(s: State)
    requires Inv(s)
    ensures forall l :: l in s.leases ==> s.leases[l].task in s.tasks
  {
    hide KeyList, DecidedOnce, AtMostOnePerTask;
  }

  /** A task that a call introduces has no lease yet. */
  lemma NewTaskIsBalanced(s: State, h: History, c: Call, t: Id)
    requires Inv(s) && Lawful(s, c) && AllBalanced(s, h) && t in Next(s, c).tasks && t !in s.tasks
    ensures Balanced(Next(s, c), Remember(s, h, c), t)
  {
    NewTaskIsEnqueued(s, c, t);
    hide AllBalanced;
    LeasesAreKnown(s);
    hide Inv;
    assert LeasesOf(Next(s, c), t, LeaseExpired) == {} == LeasesOf(Next(s, c), t, LeaseRevoked);
  }

  lemma CallBalances(s: State, h: History, c: Call)
    requires Inv(s) && Lawful(s, c) && AllBalanced(s, h)
    ensures AllBalanced(Next(s, c), Remember(s, h, c))
  {
    hide Inv, Next, LeasesOf;
    var n, h' := Next(s, c), Remember(s, h, c);
    forall t | t in s.tasks ensures t in n.tasks {
      OldTaskStaysBalanced(s, h, c, t);
      assert Balanced(n, h', t);
    }
    forall t | t in n.tasks ensures Balanced(n, h', t) {
      if t in s.tasks { OldTaskStaysBalanced(s, h, c, t); } else { NewTaskIsBalanced(s, h, c, t); }
    }
  }

  lemma {:induction false} RunBalances(s: State, h: History, calls: seq<Call>)
    requires Inv(s) && LawfulRun(s, calls) && AllBalanced(s, h)
    ensures AllBalanced(Run(s, calls), Past(s, h, calls))
    decreases calls
  {
    hide Inv, AllBalanced, Remember, Next;
    if calls != [] {
      NextKeeps(s, calls[0]);
      CallBalances(s, h, calls[0]);
      RunBalances(Next(s, calls[0]), Remember(s, h, calls[0]), calls[1..]);
    }
  }

  lemma AtMostOneElement(a: set<Id>)
    requires forall x, y :: x in a && y in a ==> x == y
    ensures |a| <= 1
  {
    if x :| x in a { assert a == {x}; }
  }

  /** Active and released leases of one task together number at most one, and none once a lease expiry ended it. */
  lemma HeldAtMostOnce(s: State, t: Id)
    requires Inv(s) && t in s.tasks
    ensures |LeasesOf(s, t, Active) + LeasesOf(s, t, Released)| <= 1
    ensures s.tasks[t].status == Expired ==> LeasesOf(s, t, Active) + LeasesOf(s, t, Released) == {}
  {
    var both := LeasesOf(s, t, Active) + LeasesOf(s, t, Released);
    hide Inv;
    forall x, y | x in both && y in both ensures x == y && s.tasks[t].status != Expired { HoldersAreOne(s, x, y); }
    AtMostOneElement(both);
    assert both != {} ==> exists x :: x in both;
  }

  lemma HoldersAreOne(s: State, x: Id, y: Id)
    requires Inv(s) && (Is(s, x, Active) || Is(s, x, Released)) && (Is(s, y, Active) || Is(s, y, Released))
    requires s.leases[x].task == s.leases[y].task
    ensures x == y && s.leases[x].task in s.tasks && s.tasks[s.leases[x].task].status in {Leased, Completed, Failed}
  {
    hide KeyList;
  }

  /**
   After any run, the expired leases of a task are exactly the attempts it has used up since it was
   enqueued, plus one if a lease expiry ended it; and it never gets more leases than it had attempts.
   */
  lemma AttemptsAreConserved(calls: seq<Call>, t: Id)
    requires LawfulRun(EMPTY, calls) && t in Run(EMPTY, calls).tasks
    ensures var s, h := Run(EMPTY, calls), Past(EMPTY, History(map[], {}), calls);
      && t in h.born
      && |LeasesOf(s, t, LeaseExpired)| ==
           s.tasks[t].attempt - h.born[t].attempt + (if t in h.ended then 1 else 0)
      && |AllLeasesOf(s, t)| <= h.born[t].maxAttempts - h.born[t].attempt + 1
  {
    var s, h := Run(EMPTY, calls), Past(EMPTY, History(map[], {}), calls);
    RunKeeps(EMPTY, calls);
    RunBalances(EMPTY, History(map[], {}), calls);
    assert Balanced(s, h, t);
    assert s.tasks[t].attempt <= s.tasks[t].maxAttempts == h.born[t].maxAttempts;
    hide Inv, Run, Past, LawfulRun, AllBalanced;
    HeldAtMostOnce(s, t);
    EveryLeaseIsOne(s, t);
    hide *;
    UnionCount(LeasesOf(s, t, LeaseExpired), LeasesOf(s, t, Active) + LeasesOf(s, t, Released));
  }

  lemma EveryLeaseIsOne(s: State, t: Id)
    requires LeasesOf(s, t, LeaseRevoked) == {}
    ensures AllLeasesOf(s, t) == LeasesOf(s, t, LeaseExpired) + (LeasesOf(s, t, Active) + LeasesOf(s, t, Released))
  {
    forall l | l in AllLeasesOf(s, t) ensures s.leases[l].status != LeaseRevoked {
      assert l !in LeasesOf(s, t, LeaseRevoked);
    }
  }

  lemma UnionCount(a: set<Id>, b: set<Id>)
    ensures |a + b| <= |a| + |b|
  {
  }
}
