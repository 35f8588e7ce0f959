/** The dispatcher object: three dictionaries that its methods update in place. */
module Dispatcher {
  import opened Basics
  import opened DispatchState
  import Sorting
  import opened DispatchInvariant

  class DistributedDispatcher {
    var agentIds: seq<Id>
    var agents: map<Id, Agent>
    var tasks: map<Id, Task>
    var leaseIds: seq<Id>
    var leases: map<Id, Lease>

    function Snapshot(): State
      reads this
    {
      State(agentIds, agents, tasks, leaseIds, leases)
    }

    ghost predicate Valid()
      reads this
    {
      Inv(Snapshot())
    }

    constructor ()
      ensures Snapshot() == EMPTY && Valid()
    {
      agentIds, agents, tasks, leaseIds, leases := [], map[], map[], [], map[];
    }

    method RegisterAgent(id: Id, agent: Agent) returns (r: Result<()>)
      requires Valid()
      modifies this
      ensures Valid() && Snapshot() == AfterRegister(old(Snapshot()), id, agent)
      ensures r.Err? <==> id in old(agents) && !SameIdentity(old(agents)[id], agent)
    {
      hide Inv;
      RegisterKeeps(Snapshot(), id, agent);
      if id in agents && !SameIdentity(agents[id], agent) {
        return Err(ValueError);
      }
      agentIds := if id in agents then agentIds else agentIds + [id];
      agents := agents[id := agent];
      r := Ok(());
    }

    method RecordHeartbeat(h: Heartbeat) returns (r: Result<Agent>)
      requires Valid()
      modifies this
      ensures Valid() && Snapshot() == AfterHeartbeat(old(Snapshot()), h)
      ensures r == if h.agent in old(agents) then Ok(agents[h.agent]) else Err(KeyError)
    {
      hide Inv;
      if h.agent !in agents {
        return Err(KeyError);
      }
      HeartbeatKeeps(Snapshot(), h);
      var a := agents[h.agent];
      var updated: Agent := a.(
        status := h.status, lastHeartbeat := Some(h.at), capabilities := a.capabilities + h.capabilities,
        reportedCapacity := Some(h.availableCapacity));
      agents := agents[h.agent := updated];
      r := Ok(updated);
    }

    method Enqueue(id: Id, task: Task) returns (r: Result<()>)
      requires Valid()
      modifies this
      ensures Valid() && Snapshot() == AfterEnqueue(old(Snapshot()), id, task)
      ensures r.Err? <==> id in old(tasks) && old(tasks)[id].payloadHash != task.payloadHash
    {
      hide Inv;
      if id in tasks {
        return if tasks[id].payloadHash != task.payloadHash then Err(ValueError) else Ok(());
      }
      EnqueueKeeps(Snapshot(), id, task);
      tasks := tasks[id := task];
      r := Ok(());
    }

    /** `leaseId` stands for the fresh identifier and `nonce` for the secret drawn inside the call. */
    method Dispatch(taskId: Id, now: Instant, leaseId: Id, nonce: string) returns (r: Result<Decision>)
      requires Valid() && leaseId !in leases
      modifies this
      ensures Valid() && Snapshot() == AfterDispatch(old(Snapshot()), taskId, now, leaseId, nonce)
      ensures r == if taskId in old(tasks) then Ok(Decide(old(Snapshot()), taskId, now)) else Err(KeyError)
    {
      hide Inv;
      if taskId !in tasks {
        return Err(KeyError);
      }
      ghost var before := Snapshot();
      DispatchKeeps(before, taskId, now, leaseId, nonce);
      var task := tasks[taskId];
      if task.status != Queued {
        return Ok(Decision(Rejected, NotQueued(task.status), None, []));
      }
      if task.notBefore.Some? && task.notBefore.value > now {
        return Ok(Decision(LeftQueued, NotBefore, None, []));
      }
      if task.deadline.Some? && task.deadline.value <= now {
        tasks := tasks[taskId := task.(status := Expired, updatedAt := now)];
        return Ok(Decision(Rejected, DeadlineElapsed, None, []));
      }
      var candidates: seq<Id> := [];
      for i := 0 to |agentIds|
        invariant Snapshot() == before
        invariant candidates == Filter(agentIds[..i], EligibleFor(before, task, now))
      {
        FilterStep(agentIds, i, EligibleFor(before, task, now));
        if Eligible(Snapshot(), task, agentIds[i], now) {
          candidates := candidates + [agentIds[i]];
        }
      }
      assert agentIds[..|agentIds|] == agentIds;
      candidates := Sorting.Sort(candidates, LoadOrder(Snapshot(), now));
      if candidates == [] {
        return Ok(Decision(LeftQueued, NoExecutor, None, []));
      }
      CandidatesAreAgents(before, task, now);
      var agent := candidates[0];
      leases := leases[leaseId := Lease(taskId, agent, Active, now, now + agents[agent].leaseTtl * SECOND, now, nonce)];
      leaseIds := leaseIds + [leaseId];
      tasks := tasks[taskId := task.(status := Leased, holder := Some(agent), updatedAt := now)];
      r := Ok(Decision(Assigned, LeastLoaded, Some(agent), candidates));
    }

    method ActiveLease(leaseId: Id, nonce: string, now: Instant) returns (r: Result<Lease>)
      requires Valid()
      modifies this
      ensures Valid()
      ensures Snapshot() ==
        if HoldsLive(old(Snapshot()), leaseId, nonce, now) then old(Snapshot())
        else AfterRefusal(old(Snapshot()), leaseId, nonce, now)
      ensures r ==
        if leaseId !in old(leases) then Err(KeyError)
        else if HoldsLive(old(Snapshot()), leaseId, nonce, now) then Ok(old(leases)[leaseId])
        else Err(ValueError)
    {
      if leaseId !in leases {
        return Err(KeyError);
      }
      var lease := leases[leaseId];
      if lease.nonce != nonce || lease.status != Active {
        return Err(ValueError);
      }
      if lease.expires <= now {
        var _ := Expire(now);
        return Err(ValueError);
      }
      r := Ok(lease);
    }

    method Renew(leaseId: Id, nonce: string, now: Instant) returns (r: Result<Lease>)
      requires Valid()
      modifies this
      ensures Valid() && Snapshot() == AfterRenew(old(Snapshot()), leaseId, nonce, now)
      ensures r.Ok? <==> HoldsLive(old(Snapshot()), leaseId, nonce, now)
      ensures r.Ok? ==> leaseId in leases && r.value == leases[leaseId]
    {
      hide Inv;
      ghost var before := Snapshot();
      RenewKeeps(before, leaseId, nonce, now);
      LeaseIsKnown(before, leaseId);
      var held := ActiveLease(leaseId, nonce, now);
      if held.Err? {
        return Err(held.error);
      }
      var lease := held.value;
      var renewed := lease.(heartbeat := now, expires := now + agents[lease.agent].leaseTtl * SECOND);
      leases := leases[leaseId := renewed];
      assert leaseIds == before.leaseIds;
      r := Ok(renewed);
    }

    method Complete(leaseId: Id, nonce: string, success: bool, now: Instant) returns (r: Result<Task>)
      requires Valid()
      modifies this
      ensures Valid() && Snapshot() == AfterComplete(old(Snapshot()), leaseId, nonce, success, now)
      ensures r.Ok? <==> HoldsLive(old(Snapshot()), leaseId, nonce, now)
      ensures r.Ok? ==> leaseId in leases && leases[leaseId].task in tasks && r.value == tasks[leases[leaseId].task]
    {
      hide Inv;
      CompleteKeeps(Snapshot(), leaseId, nonce, success, now);
      LeaseIsKnown(Snapshot(), leaseId);
      var held := ActiveLease(leaseId, nonce, now);
      if held.Err? {
        return Err(held.error);
      }
      var lease := held.value;
      leases := leases[leaseId := lease.(status := Released, heartbeat := now)];
      var task: Task := tasks[lease.task].(status := if success then Completed else Failed, updatedAt := now);
      tasks := tasks[lease.task := task];
      r := Ok(task);
    }

    method Expire(now: Instant) returns (expired: seq<Id>)
      requires Valid()
      modifies this
      ensures Valid() && Snapshot() == AfterExpire(old(Snapshot()), now)
      ensures expired == Filter(old(leaseIds), StaleTest(old(Snapshot()), now))
    {
      hide Inv, SweptLeases, SweptTasks, Requeued;
      ghost var before := Snapshot();
      ghost var done: set<Id> := {};
      SweptNothing(before, now);
      expired := [];
      for i := 0 to |leaseIds|
        invariant leaseIds == before.leaseIds && agentIds == before.agentIds && agents == before.agents
        invariant done == Elements(leaseIds[..i])
        invariant leases == SweptLeases(before, done, now) && tasks == SweptTasks(before, done, now)
        invariant expired == Filter(leaseIds[..i], StaleTest(before, now))
      {
        var leaseId := leaseIds[i];
        NextLease(before, i);
        FilterStep(leaseIds, i, StaleTest(before, now));
        SweepOneLease(before, done, leaseId, now);
        SweepOneTask(before, done, leaseId, now);
        var lease := leases[leaseId];
        if Stale(lease, now) {
          leases := leases[leaseId := lease.(status := LeaseExpired)];
          tasks := tasks[lease.task := Requeued(tasks[lease.task], now)];
          expired := expired + [leaseId];
        }
        done := done + {leaseId};
      }
      assert leaseIds[..|leaseIds|] == leaseIds;
      AllLeases(before);
      ExpireKeeps(before, now);
    }
  }
}
