/**
 The lease dispatcher's data and what each of its calls does to them.
 Instants are microseconds. A Python dictionary is a map together with the list of its keys in
 insertion order where the code iterates over it.
 */
module DispatchState {
  import opened Basics
  import Sorting
  import Text

  datatype AgentStatus = Registering | Online | Degraded | Draining | Offline | Revoked
  datatype TaskStatus = Queued | Leased | Running | Completed | Failed | Cancelled | Expired
  datatype LeaseStatus = Active | Released | LeaseExpired | LeaseRevoked

  datatype AgentRecord = AgentRecord(
    organization: Id, workspace: Id, publicIdentity: Option<string>, status: AgentStatus,
    capabilities: set<Id>, executors: set<Id>, environments: set<Id>,
    maxConcurrency: int, leaseTtl: int, lastHeartbeat: Option<Instant>, reportedCapacity: Option<int>)

  type Agent = AgentRecord

  datatype TaskRecord = TaskRecord(
    organization: Id, workspace: Id, environment: Id, executor: Id, requiredCapabilities: set<Id>,
    status: TaskStatus, attempt: int, maxAttempts: int, notBefore: Option<Instant>,
    deadline: Option<Instant>, holder: Option<Id>, payloadHash: string, updatedAt: Instant)

  type Task = TaskRecord

  datatype Lease = Lease(
    task: Id, agent: Id, status: LeaseStatus, acquired: Instant, expires: Instant,
    heartbeat: Instant, nonce: string)

  datatype Heartbeat = Heartbeat(
    agent: Id, status: AgentStatus, at: Instant, availableCapacity: nat, capabilities: set<Id>)

  datatype State = State(
    agentIds: seq<Id>, agents: map<Id, Agent>, tasks: map<Id, Task>,
    leaseIds: seq<Id>, leases: map<Id, Lease>)

  const EMPTY := State([], map[], map[], [], map[])

  function Min(a: int, b: int): int { if a <= b then a else b }

  function Max(a: int, b: int): int { if a >= b then a else b }

  // ---- registration and queueing ----

  predicate SameIdentity(a: Agent, b: Agent) {
    a.organization == b.organization && a.workspace == b.workspace && a.publicIdentity == b.publicIdentity
  }

  function AfterRegister(s: State, id: Id, agent: Agent): State {
    if id in s.agents && !SameIdentity(s.agents[id], agent) then s
    else s.(agents := s.agents[id := agent], agentIds := if id in s.agents then s.agentIds else s.agentIds + [id])
  }

  function AfterHeartbeat(s: State, h: Heartbeat): State {
    if h.agent !in s.agents then s
    else
      var a := s.agents[h.agent];
      s.(agents := s.agents[h.agent := a.(
        status := h.status, lastHeartbeat := Some(h.at), capabilities := a.capabilities + h.capabilities,
        reportedCapacity := Some(h.availableCapacity))])
  }

  function AfterEnqueue(s: State, id: Id, task: Task): State {
    if id in s.tasks then s else s.(tasks := s.tasks[id := task])
  }

  // ---- dispatch ----

  predicate Live(l: Lease, agent: Id, now: Instant) {
    l.agent == agent && l.status == Active && l.expires > now
  }

  function LiveLeases(s: State, agent: Id, now: Instant): set<Id> {
    set l | l in s.leases && Live(s.leases[l], agent, now)
  }

  function ActiveCount(s: State, agent: Id, now: Instant): nat { |LiveLeases(s, agent, now)| }

  function AvailableCapacity(s: State, id: Id, now: Instant): int
    requires id in s.agents
  {
    var a := s.agents[id];
    var configured := if a.reportedCapacity.Some? then a.reportedCapacity.value else a.maxConcurrency;
    Max(0, Min(configured, Max(0, a.maxConcurrency - ActiveCount(s, id, now))))
  }

  predicate Eligible(s: State, task: Task, id: Id, now: Instant) {
    && id in s.agents
    && var a := s.agents[id];
    && a.status == Online
    && task.workspace == a.workspace && task.organization == a.organization
    && (a.environments != {} ==> task.environment in a.environments)
    && task.executor in a.executors
    && task.requiredCapabilities <= a.capabilities
    && AvailableCapacity(s, id, now) > 0
  }

  function EligibleFor(s: State, task: Task, now: Instant): Id -> bool { id => Eligible(s, task, id, now) }

  /** Fewest live leases first, then by identifier. */
  function LoadOrder(s: State, now: Instant): (Id, Id) -> bool {
    (a, b) =>
      ActiveCount(s, a, now) < ActiveCount(s, b, now)
      || (ActiveCount(s, a, now) == ActiveCount(s, b, now) && Text.Leq(a, b))
  }

  function Candidates(s: State, task: Task, now: Instant): seq<Id> {
    Sorting.Sort(Filter(s.agentIds, EligibleFor(s, task, now)), LoadOrder(s, now))
  }

  lemma CandidatesAreAgents(s: State, task: Task, now: Instant)
    ensures forall a :: a in Candidates(s, task, now) ==> a in s.agents
  {
    CandidatesAreEligible(s, task, now);
  }

  lemma CandidatesAreEligible(s: State, task: Task, now: Instant)
    ensures forall a :: a in Candidates(s, task, now) <==> a in s.agentIds && Eligible(s, task, a, now)
  {
    FilterMembers(s.agentIds, EligibleFor(s, task, now));
    Sorting.SortKeeps(Filter(s.agentIds, EligibleFor(s, task, now)), LoadOrder(s, now));
  }

  datatype Outcome = Assigned | LeftQueued | Rejected
  datatype Reason = NotQueued(status: TaskStatus) | NotBefore | DeadlineElapsed | NoExecutor | LeastLoaded

  datatype Decision = Decision(outcome: Outcome, reason: Reason, agent: Option<Id>, candidates: seq<Id>)

  function Decide(s: State, taskId: Id, now: Instant): Decision
    requires taskId in s.tasks
  {
    var task := s.tasks[taskId];
    if task.status != Queued then Decision(Rejected, NotQueued(task.status), None, [])
    else if task.notBefore.Some? && task.notBefore.value > now then Decision(LeftQueued, NotBefore, None, [])
    else if task.deadline.Some? && task.deadline.value <= now then Decision(Rejected, DeadlineElapsed, None, [])
    else
      var c := Candidates(s, task, now);
      if c == [] then Decision(LeftQueued, NoExecutor, None, [])
      else Decision(Assigned, LeastLoaded, Some(c[0]), c)
  }

  function AfterDispatch(s: State, taskId: Id, now: Instant, leaseId: Id, nonce: string): State {
    if taskId !in s.tasks then s
    else
      var task := s.tasks[taskId];
      match Decide(s, taskId, now).reason
      case DeadlineElapsed => s.(tasks := s.tasks[taskId := task.(status := Expired, updatedAt := now)])
      case LeastLoaded =>
        var chosen := Candidates(s, task, now)[0];
        CandidatesAreAgents(s, task, now);
        s.(tasks := s.tasks[taskId := task.(status := Leased, holder := Some(chosen), updatedAt := now)],
           leaseIds := s.leaseIds + [leaseId],
           leases := s.leases[leaseId := Lease(taskId, chosen, Active, now,
             now + s.agents[chosen].leaseTtl * SECOND, now, nonce)])
      case _ => s
  }

  // ---- the sweep of stale leases ----

  predicate Stale(l: Lease, now: Instant) { l.status == Active && l.expires <= now }

  function StaleTest(s: State, now: Instant): Id -> bool { l => l in s.leases && Stale(s.leases[l], now) }

  function Requeued(t: Task, now: Instant): Task {
    t.(status := if t.attempt < t.maxAttempts then Queued else Expired,
       attempt := Min(t.maxAttempts, t.attempt + 1), holder := None, updatedAt := now)
  }

  ghost predicate LosesLease(s: State, swept: set<Id>, t: Id, now: Instant) {
    exists l :: l in swept && l in s.leases && s.leases[l].task == t && Stale(s.leases[l], now)
  }

  /** The sweep restricted to the leases in `swept`. */
  ghost function SweptLeases(s: State, swept: set<Id>, now: Instant): map<Id, Lease> {
    map l | l in s.leases ::
      if l in swept && Stale(s.leases[l], now) then s.leases[l].(status := LeaseExpired) else s.leases[l]
  }

  ghost function SweptTasks(s: State, swept: set<Id>, now: Instant): map<Id, Task> {
    map t | t in s.tasks ::
      if LosesLease(s, swept, t, now) then Requeued(s.tasks[t], now) else s.tasks[t]
  }

  ghost function AfterExpire(s: State, now: Instant): State {
    s.(leases := SweptLeases(s, s.leases.Keys, now), tasks := SweptTasks(s, s.leases.Keys, now))
  }

  // ---- renewal and completion ----

  predicate Holds(s: State, leaseId: Id, nonce: string) {
    leaseId in s.leases && s.leases[leaseId].nonce == nonce && s.leases[leaseId].status == Active
  }

  predicate HoldsLive(s: State, leaseId: Id, nonce: string, now: Instant) {
    Holds(s, leaseId, nonce) && s.leases[leaseId].expires > now
  }

  /** A call on a lease that is held but has run out sweeps every stale lease and then fails. */
  ghost function AfterRefusal(s: State, leaseId: Id, nonce: string, now: Instant): State {
    if Holds(s, leaseId, nonce) then AfterExpire(s, now) else s
  }

  ghost function AfterRenew(s: State, leaseId: Id, nonce: string, now: Instant): State {
    if !HoldsLive(s, leaseId, nonce, now) then AfterRefusal(s, leaseId, nonce, now)
    else
      var l := s.leases[leaseId];
      if l.agent !in s.agents then s
      else s.(leases := s.leases[leaseId := l.(
        heartbeat := now, expires := now + s.agents[l.agent].leaseTtl * SECOND)])
  }

  ghost function AfterComplete(s: State, leaseId: Id, nonce: string, success: bool, now: Instant): State {
    if !HoldsLive(s, leaseId, nonce, now) then AfterRefusal(s, leaseId, nonce, now)
    else
      var l := s.leases[leaseId];
      s.(leases := s.leases[leaseId := l.(status := Released, heartbeat := now)],
         tasks := if l.task !in s.tasks then s.tasks else s.tasks[l.task := s.tasks[l.task].(
           status := if success then Completed else Failed, updatedAt := now)])
  }

  // ---- what every call keeps ----

  ghost predicate KeyList(ids: seq<Id>, keys: set<Id>) {
    Distinct(ids) && forall x :: x in ids <==> x in keys
  }

  ghost predicate Is(s: State, l: Id, status: LeaseStatus) { l in s.leases && s.leases[l].status == status }

  ghost predicate AtMostOnePerTask(s: State, status: LeaseStatus) {
    forall l, m :: Is(s, l, status) && Is(s, m, status) && s.leases[l].task == s.leases[m].task ==> l == m
  }

  /** Every lease names a known task and agent; an active lease holds its task, alone. */
  ghost predicate Exclusive(s: State) {
    && (forall l :: l in s.leases ==> s.leases[l].task in s.tasks && s.leases[l].agent in s.agents)
    && (forall l :: Is(s, l, Active) ==> s.tasks[s.leases[l].task].status == Leased)
    && (forall l :: Is(s, l, Active) ==> s.tasks[s.leases[l].task].holder == Some(s.leases[l].agent))
    && AtMostOnePerTask(s, Active)
  }

  /** A released lease decided its task, and no other lease of that task was released. */
  ghost predicate DecidedOnce(s: State) {
    && (forall l :: Is(s, l, Released) ==>
          s.leases[l].task in s.tasks && s.tasks[s.leases[l].task].status in {Completed, Failed})
    && AtMostOnePerTask(s, Released)
  }

  ghost predicate Inv(s: State) {
    KeyList(s.agentIds, s.agents.Keys) && KeyList(s.leaseIds, s.leases.Keys) && Exclusive(s) && DecidedOnce(s)
  }
}
