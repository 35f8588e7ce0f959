/** Whole runs of dispatcher calls, in any interleaving and refused calls included. */
module DispatchRuns {
  import opened Basics
  import opened DispatchState
  import opened DispatchInvariant
  import Sorting
  import Text

  datatype Call =
    | Register(id: Id, agent: Agent)
    | Beat(heartbeat: Heartbeat)
    | Enqueue(id: Id, task: Task)
    | Dispatch(taskId: Id, now: Instant, leaseId: Id, nonce: string)
    | Renew(leaseId: Id, nonce: string, now: Instant)
    | Complete(leaseId: Id, nonce: string, success: bool, now: Instant)
    | Expire(now: Instant)

  ghost function Next(s: State, c: Call): State {
    match c
    case Register(id, agent) => AfterRegister(s, id, agent)
    case Beat(h) => AfterHeartbeat(s, h)
    case Enqueue(id, task) => AfterEnqueue(s, id, task)
    case Dispatch(t, now, l, nonce) => AfterDispatch(s, t, now, l, nonce)
    case Renew(l, nonce, now) => AfterRenew(s, l, nonce, now)
    case Complete(l, nonce, success, now) => AfterComplete(s, l, nonce, success, now)
    case Expire(now) => AfterExpire(s, now)
  }

  /** What the data models validate. */
  predicate ValidTask(t: Task) { 1 <= t.attempt <= t.maxAttempts }

  predicate ValidAgent(a: Agent) { 1 <= a.maxConcurrency && 5 <= a.leaseTtl <= 3600 }

  ghost predicate Lawful(s: State, c: Call) {
    match c
    case Register(_, agent) => ValidAgent(agent)
    case Enqueue(_, task) => ValidTask(task)
    case Dispatch(_, _, l, _) => l !in s.leases
    case _ => true
  }

  ghost function Run(s: State, calls: seq<Call>): State
    decreases calls
  {
    if calls == [] then s else Run(Next(s, calls[0]), calls[1..])
  }

  ghost predicate LawfulRun(s: State, calls: seq<Call>)
    decreases calls
  {
    calls == [] || (Lawful(s, calls[0]) && LawfulRun(Next(s, calls[0]), calls[1..]))
  }

  // ---- lease exclusivity ----

  lemma NextKeeps(s: State, c: Call)
    requires Inv(s) && Lawful(s, c)
    ensures Inv(Next(s, c))
  {
    match c
    case Register(id, agent) => RegisterKeeps(s, id, agent);
    case Beat(h) => HeartbeatKeeps(s, h);
    case Enqueue(id, task) => EnqueueKeeps(s, id, task);
    case Dispatch(t, now, l, nonce) => DispatchKeeps(s, t, now, l, nonce);
    case Renew(l, nonce, now) => RenewKeeps(s, l, nonce, now);
    case Complete(l, nonce, success, now) => CompleteKeeps(s, l, nonce, success, now);
    case Expire(now) => ExpireKeeps(s, now);
  }

  lemma {:induction false} RunKeeps(s: State, calls: seq<Call>)
    requires Inv(s) && LawfulRun(s, calls)
    ensures Inv(Run(s, calls))
    decreases calls
  {
    hide Inv;
    if calls != [] {
      NextKeeps(s, calls[0]);
      RunKeeps(Next(s, calls[0]), calls[1..]);
    }
  }

  /** After any calls on a new dispatcher: leases refer to known tasks and agents, and exclude each other. */
  lemma EveryRunIsExclusive(calls: seq<Call>)
    requires LawfulRun(EMPTY, calls)
    ensures var s := Run(EMPTY, calls);
      && (forall l :: l in s.leases ==> s.leases[l].task in s.tasks && s.leases[l].agent in s.agents)
      && (forall l :: Is(s, l, Active) ==>
            var t := s.tasks[s.leases[l].task]; t.status == Leased && t.holder == Some(s.leases[l].agent))
      && (forall l, m :: Is(s, l, Active) && Is(s, m, Active) && s.leases[l].task == s.leases[m].task ==> l == m)
  {
    RunKeeps(EMPTY, calls);
  }

  // ---- what a call does to one task and to one lease ----

  predicate Terminal(t: Task) { t.status in {Completed, Failed, Cancelled, Expired} }

  function Rank(status: TaskStatus): nat {
    match status
    case Queued => 2
    case Leased => 1
    case _ => 0
  }

  function Measure(t: Task): int { 2 * (t.maxAttempts - t.attempt) + Rank(t.status) }

  /** A change that uses up some of the task's budget of attempts. */
  ghost predicate Spends(before: Task, after: Task) {
    ValidTask(after) && Measure(after) < Measure(before) && after.maxAttempts == before.maxAttempts && !Terminal(before)
  }

  lemma ExpireSpends(s: State, now: Instant, t: Id)
    requires Inv(s) && t in s.tasks && ValidTask(s.tasks[t])
    ensures var n := AfterExpire(s, now);
      t in n.tasks && (n.tasks[t] == s.tasks[t] || Spends(s.tasks[t], n.tasks[t]))
  {
    hide Inv;
    if LosesLease(s, s.leases.Keys, t, now) {
      var l :| l in s.leases && s.leases[l].task == t && Stale(s.leases[l], now);
      ActiveHoldsTask(s, l);
    }
  }

  /** Every call leaves a task exactly as it was or spends some of its budget; a terminal task it leaves alone. */
  lemma CallSpends(s: State, c: Call, t: Id)
    requires Inv(s) && t in s.tasks && ValidTask(s.tasks[t])
    ensures t in Next(s, c).tasks
    ensures Next(s, c).tasks[t] == s.tasks[t] || Spends(s.tasks[t], Next(s, c).tasks[t])
  {
    hide Inv, AfterExpire, Candidates, Spends;
    match c
    case Dispatch(_, now, l, nonce) => DispatchSpends(s, c, t);
    case Renew(_, _, now) => ExpireSpends(s, now, t);
    case Complete(l, nonce, _, now) =>
      if HoldsLive(s, l, nonce, now) { CompletionSpends(s, c, t); } else { ExpireSpends(s, now, t); }
    case Expire(now) => ExpireSpends(s, now, t);
    case _ =>
  }

  lemma DispatchSpends(s: State, c: Call, t: Id)
    requires c.Dispatch? && t in s.tasks && ValidTask(s.tasks[t])
    ensures t in Next(s, c).tasks
    ensures Next(s, c).tasks[t] == s.tasks[t] || Spends(s.tasks[t], Next(s, c).tasks[t])
  {
    hide Candidates;
  }

  lemma ActiveHoldsTask(s: State, l: Id)
    requires Inv(s) && Is(s, l, Active)
    ensures var t := s.leases[l].task;
      t in s.tasks && s.tasks[t].status == Leased && s.tasks[t].holder == Some(s.leases[l].agent)
  {
    hide KeyList, DecidedOnce, AtMostOnePerTask;
  }

  lemma CompletionSpends(s: State, c: Call, t: Id)
    requires Inv(s) && c.Complete? && HoldsLive(s, c.leaseId, c.nonce, c.now) && t in s.tasks && ValidTask(s.tasks[t])
    ensures t in Next(s, c).tasks
    ensures Next(s, c).tasks[t] == s.tasks[t] || Spends(s.tasks[t], Next(s, c).tasks[t])
  {
    ActiveHoldsTask(s, c.leaseId);
    hide Inv, AfterExpire;
  }

  ghost function Changes(s: State, calls: seq<Call>, t: Id): nat
    decreases calls
  {
    if calls == [] then 0
    else
      var n := Next(s, calls[0]);
      (if t in s.tasks && (t !in n.tasks || n.tasks[t] != s.tasks[t]) then 1 else 0) + Changes(n, calls[1..], t)
  }

  /** However long the run, a task changes at most as often as its remaining budget allows. */
  lemma {:induction false} ChangesAreBounded(s: State, calls: seq<Call>, t: Id)
    requires Inv(s) && LawfulRun(s, calls) && t in s.tasks && ValidTask(s.tasks[t])
    ensures t in Run(s, calls).tasks && ValidTask(Run(s, calls).tasks[t])
    ensures Changes(s, calls, t) <= Measure(s.tasks[t]) - Measure(Run(s, calls).tasks[t])
    decreases calls
  {
    hide Inv;
    if calls != [] {
      NextKeeps(s, calls[0]);
      CallSpends(s, calls[0], t);
      ChangesAreBounded(Next(s, calls[0]), calls[1..], t);
    }
  }

  /** Completed, failed, expired and cancelled tasks never change again, re-enqueue included. */
  lemma {:induction false} TerminalTasksNeverChange(s: State, calls: seq<Call>, t: Id)
    requires Inv(s) && LawfulRun(s, calls) && t in s.tasks && ValidTask(s.tasks[t]) && Terminal(s.tasks[t])
    ensures t in Run(s, calls).tasks && Run(s, calls).tasks[t] == s.tasks[t]
    decreases calls
  {
    hide Inv;
    if calls != [] {
      NextKeeps(s, calls[0]);
      CallSpends(s, calls[0], t);
      TerminalTasksNeverChange(Next(s, calls[0]), calls[1..], t);
    }
  }

  lemma SweepDecidesNothing(s: State, now: Instant, t: Id)
    requires t in s.tasks
    ensures var n := AfterExpire(s, now);
      t in n.tasks && (n.tasks[t] == s.tasks[t] || n.tasks[t].status in {Queued, Expired})
  {
  }

  /** Only a live holder decides a task: no other call completes or fails anything. */
  lemma OnlyTheHolderDecides(s: State, c: Call, t: Id)
    requires Inv(s) && t in s.tasks && t in Next(s, c).tasks
    requires Next(s, c).tasks[t] != s.tasks[t] && Next(s, c).tasks[t].status in {Completed, Failed}
    ensures c.Complete? && HoldsLive(s, c.leaseId, c.nonce, c.now) && s.leases[c.leaseId].task == t
    ensures s.tasks[t].status == Leased && s.tasks[t].holder == Some(s.leases[c.leaseId].agent)
    ensures Next(s, c).tasks[t].status == if c.success then Completed else Failed
  {
    hide Inv, AfterExpire, Candidates;
    match c
    case Complete(l, nonce, _, now) =>
      if HoldsLive(s, l, nonce, now) { ActiveHoldsTask(s, l); } else { SweepDecidesNothing(s, now, t); }
    case Renew(_, _, now) => SweepDecidesNothing(s, now, t);
    case Expire(now) => SweepDecidesNothing(s, now, t);
    case _ =>
  }

  /** A lease keeps its task and agent, and once it is not active it is never touched again. */
  lemma LeaseOnlyCloses(s: State, c: Call, l: Id)
    requires Inv(s) && Lawful(s, c) && l in s.leases
    ensures var n := Next(s, c);
      && l in n.leases && n.leases[l].task == s.leases[l].task && n.leases[l].agent == s.leases[l].agent
      && (s.leases[l].status != Active ==> n.leases[l] == s.leases[l])
  {
    hide Inv, Candidates;
  }

  lemma {:induction false} ClosedLeaseStaysClosed(s: State, calls: seq<Call>, l: Id)
    requires Inv(s) && LawfulRun(s, calls) && l in s.leases && s.leases[l].status != Active
    ensures l in Run(s, calls).leases && Run(s, calls).leases[l] == s.leases[l]
    decreases calls
  {
    hide Inv;
    if calls != [] {
      NextKeeps(s, calls[0]);
      LeaseOnlyCloses(s, calls[0], l);
      ClosedLeaseStaysClosed(Next(s, calls[0]), calls[1..], l);
    }
  }

  ghost predicate Superseded(s: State, l: Id) {
    exists m :: m != l && Is(s, m, Active) && l in s.leases && s.leases[m].task == s.leases[l].task
  }

  /** Whoever once held a lease that has expired, was released or was superseded can change nothing with it, ever. */
  lemma ClosedLeaseIsPowerless(s: State, calls: seq<Call>, l: Id, nonce: string, success: bool, now: Instant)
    requires Inv(s) && LawfulRun(s, calls) && l in s.leases
    requires s.leases[l].status != Active || Superseded(s, l)
    ensures var n := Run(s, calls);
      Next(n, Complete(l, nonce, success, now)) == n && Next(n, Renew(l, nonce, now)) == n
  {
    if s.leases[l].status == Active {
      assert Is(s, l, Active);
    }
    ClosedLeaseStaysClosed(s, calls, l);
  }

  /** Over a whole run at most one lease of a task is ever released, and its task is then decided. */
  lemma AtMostOneRelease(calls: seq<Call>, l: Id, m: Id)
    requires LawfulRun(EMPTY, calls)
    requires Is(Run(EMPTY, calls), l, Released) && Is(Run(EMPTY, calls), m, Released)
    requires Run(EMPTY, calls).leases[l].task == Run(EMPTY, calls).leases[m].task
    ensures l == m
  {
    RunKeeps(EMPTY, calls);
  }

  // ---- which agent gets a task ----

  lemma LoadIsAnOrder(s: State, now: Instant)
    ensures Sorting.Order(LoadOrder(s, now))
  {
    var leq := LoadOrder(s, now);
    forall a, b ensures leq(a, b) || leq(b, a) { Text.LeqTotal(a, b); }
    forall a, b, c | leq(a, b) && leq(b, c) ensures leq(a, c) {
      if Text.Leq(a, b) && Text.Leq(b, c) { Text.LeqTransitive(a, b, c); }
    }
  }

  /** A dispatchable task is leased if and only if some agent is eligible, and then to a least loaded one. */
  lemma LeastLoadedEligibleAgent(s: State, t: Id, now: Instant)
    requires Inv(s) && t in s.tasks && s.tasks[t].status == Queued
    requires s.tasks[t].notBefore.Some? ==> s.tasks[t].notBefore.value <= now
    requires s.tasks[t].deadline.Some? ==> now < s.tasks[t].deadline.value
    ensures var d := Decide(s, t, now);
      && (d.outcome == Assigned <==> exists a :: Eligible(s, s.tasks[t], a, now))
      && (d.outcome == Assigned ==>
            && d.agent.Some? && Eligible(s, s.tasks[t], d.agent.value, now)
            && (forall a :: Eligible(s, s.tasks[t], a, now) ==>
                  ActiveCount(s, d.agent.value, now) < ActiveCount(s, a, now)
                  || (ActiveCount(s, d.agent.value, now) == ActiveCount(s, a, now) && Text.Leq(d.agent.value, a))))
  {
    var c := Candidates(s, s.tasks[t], now);
    CandidatesAreEligible(s, s.tasks[t], now);
    LoadIsAnOrder(s, now);
    Sorting.SortAscends(Filter(s.agentIds, EligibleFor(s, s.tasks[t], now)), LoadOrder(s, now));
    forall a | Eligible(s, s.tasks[t], a, now) ensures c != [] && LoadOrder(s, now)(c[0], a) {
      assert a in c;
      var i :| 0 <= i < |c| && c[i] == a;
      if i == 0 { Text.LeqReflexive(a); }
    }
    if c != [] { assert Eligible(s, s.tasks[t], c[0], now); }
  }
}
