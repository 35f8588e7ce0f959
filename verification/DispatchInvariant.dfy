/** Every dispatcher call, refused ones included, keeps the lease invariant. */
module DispatchInvariant {
  import opened Basics
  import opened DispatchState

  lemma LeaseIsKnown(s: State, l: Id)
    requires Inv(s)
    ensures l in s.leases <==> l in s.leaseIds
    ensures l in s.leases ==> s.leases[l].task in s.tasks && s.leases[l].agent in s.agents
  {
  }

  lemma NextLease(s: State, i: nat)
    requires Inv(s) && i < |s.leaseIds|
    ensures s.leaseIds[i] in s.leases
    ensures s.leaseIds[i] !in Elements(s.leaseIds[..i])
    ensures Elements(s.leaseIds[..i + 1]) == Elements(s.leaseIds[..i]) + {s.leaseIds[i]}
    ensures s.leases[s.leaseIds[i]].task in s.tasks
  {
    assert s.leaseIds[..i + 1] == s.leaseIds[..i] + [s.leaseIds[i]];
  }

  lemma AllLeases(s: State)
    requires Inv(s)
    ensures Elements(s.leaseIds) == s.leases.Keys
  {
  }

  lemma KeyListAppend(ids: seq<Id>, keys: set<Id>, x: Id)
    requires KeyList(ids, keys) && x !in keys
    ensures KeyList(ids + [x], keys + {x})
  {
  }

  /** `n` has the leases of `s`, none newly active or released, and the tasks of those that still are as before. */
  ghost predicate Quieter(s: State, n: State) {
    && s.agents.Keys <= n.agents.Keys && s.tasks.Keys <= n.tasks.Keys && n.leases.Keys == s.leases.Keys
    && (forall l :: l in s.leases ==>
          n.leases[l].task == s.leases[l].task && n.leases[l].agent == s.leases[l].agent)
    && (forall l, st :: st in {Active, Released} && Is(n, l, st) ==> Is(s, l, st) && SameDuty(s, n, s.leases[l].task))
  }

  ghost predicate SameDuty(s: State, n: State, t: Id) {
    t in s.tasks && t in n.tasks && n.tasks[t].status == s.tasks[t].status && n.tasks[t].holder == s.tasks[t].holder
  }

  lemma QuieterKeepsExclusive(s: State, n: State)
    requires Exclusive(s) && Quieter(s, n)
    ensures Exclusive(n)
  {
    forall l | Is(n, l, Active)
      ensures n.tasks[n.leases[l].task].status == Leased
      ensures n.tasks[n.leases[l].task].holder == Some(n.leases[l].agent)
    {
      assert Is(s, l, Active);
    }
  }

  lemma QuieterKeepsDecided(s: State, n: State)
    requires DecidedOnce(s) && Quieter(s, n)
    ensures DecidedOnce(n)
  {
    forall l | Is(n, l, Released)
      ensures n.leases[l].task in n.tasks && n.tasks[n.leases[l].task].status in {Completed, Failed}
    {
      assert Is(s, l, Released);
    }
  }

  lemma QuieterKeeps(s: State, n: State)
    requires Inv(s) && Quieter(s, n)
    ensures Exclusive(n) && DecidedOnce(n)
  {
    QuieterKeepsExclusive(s, n);
    QuieterKeepsDecided(s, n);
  }

  lemma RegisterKeeps(s: State, id: Id, agent: Agent)
    requires Inv(s)
    ensures Inv(AfterRegister(s, id, agent))
  {
    var n := AfterRegister(s, id, agent);
    if id !in s.agents { KeyListAppend(s.agentIds, s.agents.Keys, id); }
    QuieterKeeps(s, n);
  }

  lemma HeartbeatKeeps(s: State, h: Heartbeat)
    requires Inv(s)
    ensures Inv(AfterHeartbeat(s, h))
  {
    QuieterKeeps(s, AfterHeartbeat(s, h));
  }

  lemma EnqueueKeeps(s: State, id: Id, task: Task)
    requires Inv(s)
    ensures Inv(AfterEnqueue(s, id, task))
  {
    QuieterKeeps(s, AfterEnqueue(s, id, task));
  }

  /** A queued task has no active or released lease. */
  lemma QueuedIsFree(s: State, t: Id)
    requires Exclusive(s) && DecidedOnce(s) && t in s.tasks && s.tasks[t].status == Queued
    ensures forall l, st :: st in {Active, Released} && Is(s, l, st) ==> s.leases[l].task != t
  {
  }

  lemma AssignKeepsExclusive(s: State, n: State, t: Id, leaseId: Id, lease: Lease)
    requires Exclusive(s) && leaseId !in s.leases
    requires forall l :: Is(s, l, Active) ==> s.leases[l].task != t
    requires lease.status == Active && lease.task == t && lease.agent in s.agents
    requires n.leases == s.leases[leaseId := lease] && n.agents == s.agents
    requires n.tasks.Keys == s.tasks.Keys && t in n.tasks
    requires forall u :: u in s.tasks && u != t ==> n.tasks[u] == s.tasks[u]
    requires n.tasks[t].status == Leased && n.tasks[t].holder == Some(lease.agent)
    ensures Exclusive(n)
  {
    assert forall l, st :: l != leaseId ==> Is(n, l, st) == Is(s, l, st);
  }

  lemma AssignKeepsDecided(s: State, n: State, t: Id, leaseId: Id, lease: Lease)
    requires DecidedOnce(s) && leaseId !in s.leases
    requires forall l :: Is(s, l, Released) ==> s.leases[l].task != t
    requires lease.status == Active
    requires n.leases == s.leases[leaseId := lease]
    requires n.tasks.Keys == s.tasks.Keys
    requires forall u :: u in s.tasks && u != t ==> n.tasks[u] == s.tasks[u]
    ensures DecidedOnce(n)
  {
    assert forall l :: Is(n, l, Released) == Is(s, l, Released);
  }

  lemma DispatchKeeps(s: State, taskId: Id, now: Instant, leaseId: Id, nonce: string)
    requires Inv(s) && leaseId !in s.leases
    ensures Inv(AfterDispatch(s, taskId, now, leaseId, nonce))
  {
    if taskId in s.tasks {
      match Decide(s, taskId, now).reason
      case LeastLoaded => AssignmentKeeps(s, taskId, now, leaseId, nonce);
      case DeadlineElapsed => DeadlineKeeps(s, taskId, now, leaseId, nonce);
      case _ =>
    }
  }

  lemma AssignmentKeeps(s: State, taskId: Id, now: Instant, leaseId: Id, nonce: string)
    requires Inv(s) && leaseId !in s.leases && taskId in s.tasks
    requires Decide(s, taskId, now).reason == LeastLoaded
    ensures Inv(AfterDispatch(s, taskId, now, leaseId, nonce))
  {
    var n := AfterDispatch(s, taskId, now, leaseId, nonce);
    CandidatesAreAgents(s, s.tasks[taskId], now);
    QueuedIsFree(s, taskId);
    AssignKeepsExclusive(s, n, taskId, leaseId, n.leases[leaseId]);
    AssignKeepsDecided(s, n, taskId, leaseId, n.leases[leaseId]);
    KeyListAppend(s.leaseIds, s.leases.Keys, leaseId);
    assert n.leases.Keys == s.leases.Keys + {leaseId};
  }

  lemma DeadlineKeeps(s: State, taskId: Id, now: Instant, leaseId: Id, nonce: string)
    requires Inv(s) && taskId in s.tasks
    requires Decide(s, taskId, now).reason == DeadlineElapsed
    ensures Inv(AfterDispatch(s, taskId, now, leaseId, nonce))
  {
    var n := AfterDispatch(s, taskId, now, leaseId, nonce);
    QueuedIsFree(s, taskId);
    QuieterKeeps(s, n);
  }

  lemma SweptNothing(s: State, now: Instant)
    ensures SweptLeases(s, {}, now) == s.leases && SweptTasks(s, {}, now) == s.tasks
  {
  }

  /** Sweeping one more lease touches the task of that lease only, and only when the lease is stale. */
  lemma LosesOneMore(s: State, done: set<Id>, l: Id, t: Id, now: Instant)
    requires Exclusive(s) && l in s.leases && l !in done
    ensures LosesLease(s, done + {l}, t, now) <==>
      LosesLease(s, done, t, now) || (Stale(s.leases[l], now) && s.leases[l].task == t)
    ensures Stale(s.leases[l], now) && s.leases[l].task == t ==> !LosesLease(s, done, t, now)
  {
    if LosesLease(s, done, t, now) {
      var m :| m in done && m in s.leases && s.leases[m].task == t && Stale(s.leases[m], now);
      assert m in done + {l};
      assert Is(s, m, Active) && (Stale(s.leases[l], now) ==> Is(s, l, Active));
    }
  }

  /** One round of the sweep's loop, on the leases and on the tasks. */
  lemma SweepOneLease(s: State, done: set<Id>, l: Id, now: Instant)
    requires l in s.leases && l !in done
    ensures l in SweptLeases(s, done, now) && SweptLeases(s, done, now)[l] == s.leases[l]
    ensures SweptLeases(s, done + {l}, now) ==
      if Stale(s.leases[l], now) then SweptLeases(s, done, now)[l := s.leases[l].(status := LeaseExpired)]
      else SweptLeases(s, done, now)
  {
  }

  lemma SweepOneTask(s: State, done: set<Id>, l: Id, now: Instant)
    requires Inv(s) && l in s.leases && l !in done
    ensures var t := s.leases[l].task;
      t in SweptTasks(s, done, now) && SweptTasks(s, done + {l}, now) ==
      if Stale(s.leases[l], now) then SweptTasks(s, done, now)[t := Requeued(SweptTasks(s, done, now)[t], now)]
      else SweptTasks(s, done, now)
  {
    forall t | t in s.tasks
      ensures SweptTasks(s, done + {l}, now)[t] ==
        if Stale(s.leases[l], now) && t == s.leases[l].task then Requeued(SweptTasks(s, done, now)[t], now)
        else SweptTasks(s, done, now)[t]
    {
      LosesOneMore(s, done, l, t, now);
    }
  }

  lemma ExpireKeeps(s: State, now: Instant)
    requires Inv(s)
    ensures Inv(AfterExpire(s, now))
  {
    var n := AfterExpire(s, now);
    assert n.leases.Keys == s.leases.Keys;
    hide KeyList, Exclusive, DecidedOnce;
    forall l, st | st in {Active, Released} && Is(n, l, st)
      ensures Is(s, l, st) && SameDuty(s, n, s.leases[l].task)
    {
      StillHeld(s, l, now);
    }
    SweepIsQuieter(s, now);
    QuieterKeeps(s, n);
  }

  lemma SweepIsQuieter(s: State, now: Instant)
    requires forall l, st :: st in {Active, Released} && Is(AfterExpire(s, now), l, st) ==>
      Is(s, l, st) && SameDuty(s, AfterExpire(s, now), s.leases[l].task)
    ensures Quieter(s, AfterExpire(s, now))
  {
    hide SameDuty, LosesLease;
  }

  /** The sweep leaves alone the task of a lease that stays active or was released. */
  lemma StillHeld(s: State, l: Id, now: Instant)
    requires Exclusive(s) && DecidedOnce(s) && l in s.leases
    requires Is(s, l, Released) || (Is(s, l, Active) && !Stale(s.leases[l], now))
    ensures !LosesLease(s, s.leases.Keys, s.leases[l].task, now)
  {
    if LosesLease(s, s.leases.Keys, s.leases[l].task, now) {
      var m :| m in s.leases && s.leases[m].task == s.leases[l].task && Stale(s.leases[m], now);
      assert Is(s, m, Active);
    }
  }

  lemma RefusalKeeps(s: State, leaseId: Id, nonce: string, now: Instant)
    requires Inv(s)
    ensures Inv(AfterRefusal(s, leaseId, nonce, now))
  {
    ExpireKeeps(s, now);
  }

  lemma RenewKeeps(s: State, leaseId: Id, nonce: string, now: Instant)
    requires Inv(s)
    ensures Inv(AfterRenew(s, leaseId, nonce, now))
  {
    if HoldsLive(s, leaseId, nonce, now) {
      var n := AfterRenew(s, leaseId, nonce, now);
      assert n.leases.Keys == s.leases.Keys;
      QuieterKeeps(s, n);
    } else {
      RefusalKeeps(s, leaseId, nonce, now);
    }
  }

  lemma CompleteKeeps(s: State, leaseId: Id, nonce: string, success: bool, now: Instant)
    requires Inv(s)
    ensures Inv(AfterComplete(s, leaseId, nonce, success, now))
  {
    if HoldsLive(s, leaseId, nonce, now) {
      var n := AfterComplete(s, leaseId, nonce, success, now);
      assert n.leases.Keys == s.leases.Keys;
      DecisionKeepsExclusive(s, n, leaseId);
      DecisionKeepsDecided(s, n, leaseId);
    } else {
      RefusalKeeps(s, leaseId, nonce, now);
    }
  }

  ghost predicate Decides(s: State, n: State, l: Id) {
    && Is(s, l, Active) && s.leases[l].task in s.tasks
    && n.agents == s.agents && n.leases.Keys == s.leases.Keys && n.tasks.Keys == s.tasks.Keys
    && (forall m :: m in s.leases && m != l ==> n.leases[m] == s.leases[m])
    && n.leases[l] == s.leases[l].(status := Released, heartbeat := n.leases[l].heartbeat)
    && (forall t :: t in s.tasks && t != s.leases[l].task ==> n.tasks[t] == s.tasks[t])
    && n.tasks[s.leases[l].task].status in {Completed, Failed}
  }

  lemma DecisionKeepsExclusive(s: State, n: State, l: Id)
    requires Exclusive(s) && Decides(s, n, l)
    ensures Exclusive(n)
  {
    forall m | Is(n, m, Active) ensures m != l && Is(s, m, Active) && s.leases[m].task != s.leases[l].task {
    }
  }

  lemma DecisionKeepsDecided(s: State, n: State, l: Id)
    requires Exclusive(s) && DecidedOnce(s) && Decides(s, n, l)
    ensures DecidedOnce(n)
  {
    forall m | Is(s, m, Released) ensures s.leases[m].task != s.leases[l].task {
    }
    forall m | Is(n, m, Released) ensures m == l || Is(s, m, Released) {
    }
  }
}
