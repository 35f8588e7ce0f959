/** The rows that executor agents share, what their processes remember, and the steps in which both change. */
module AgentState {
  import opened Basics

  datatype TaskStatus = Queued | Running | Completed | Failed | Cancelled
  datatype LeaseStatus = Active | Released | LeaseExpired
  datatype OperationStatus = Live | Succeeded | OperationFailed | OperationCancelled

  datatype Agent = Agent(
    executors: set<Id>, environments: set<Id>, capabilities: set<Id>, maxConcurrency: int, leaseTtl: int)

  /** `deps` names actions of the same operation; `timeout` is the command timeout in seconds. */
  datatype Task = Task(
    operation: Id, action: Id, deps: set<Id>, executor: Id, environment: Id, required: set<Id>, priority: int,
    created: Instant, timeout: int, attempt: int, maxAttempts: int, status: TaskStatus, holder: Option<Id>)

  /** `attempt` is the attempt number that the claiming process read, and writes back when it finishes. */
  datatype Lease = Lease(
    task: Id, agent: Id, attempt: int, status: LeaseStatus, acquired: Instant, expires: Instant)

  /** A queued task as some process read it: the attempt it will write back, and whether the operation was over. */
  datatype Row = Row(task: Id, attempt: int, over: bool)

  /**
   The tables, and what the processes remember: the rows that cancel passes have read, the rows that somebody is about
   to save as cancelled, and the outcomes of executions whose lease is released and whose task is not saved yet. A row
   once read stays, for any process may still hold it. Key lists give the order in which queries without an `ORDER BY`
   happen to return the rows.
   */
  datatype State = State(
    agents: map<Id, Agent>, taskIds: seq<Id>, tasks: map<Id, Task>, leaseIds: seq<Id>, leases: map<Id, Lease>,
    operations: map<Id, OperationStatus>, rows: set<Row>, doomed: set<Row>, outcomes: map<Id, bool>)

  // ---- what the queries ask ----

  /** Task `id` is one for the action `d` of `t`'s operation. */
  predicate Supplies(tasks: map<Id, Task>, id: Id, t: Task, d: Id) {
    id in tasks && tasks[id].operation == t.operation && tasks[id].action == d
  }

  predicate DependencyDone(tasks: map<Id, Task>, t: Task, d: Id) {
    exists id :: id in tasks && Supplies(tasks, id, t, d) && tasks[id].status == Completed
  }

  predicate DependenciesDone(tasks: map<Id, Task>, t: Task) { forall d :: d in t.deps ==> DependencyDone(tasks, t, d) }

  predicate DependencyLost(tasks: map<Id, Task>, t: Task) {
    exists id :: id in tasks && tasks[id].operation == t.operation && tasks[id].action in t.deps
      && tasks[id].status in {Failed, Cancelled}
  }

  predicate OperationOver(s: State, t: Task) {
    t.operation in s.operations && s.operations[t.operation] in {Succeeded, OperationFailed, OperationCancelled}
  }

  predicate Capable(a: Agent, t: Task) {
    t.executor in a.executors && (a.environments == {} || t.environment in a.environments) && t.required <= a.capabilities
  }

  /** `_matches` */
  predicate Matches(s: State, a: Agent, t: Task) { Capable(a, t) && DependenciesDone(s.tasks, t) }

  function HeldBy(s: State, agent: Id): Id -> bool {
    (l: Id) => l in s.leases && s.leases[l].agent == agent && s.leases[l].status == Active
  }

  function ActiveCount(s: State, agent: Id): nat { |Filter(s.leaseIds, HeldBy(s, agent))| }

  // ---- the atomic steps ----

  /**
   A cancel pass reads rows, judges each by the tasks of that moment and the operation status it read, and saves those
   it rejects; the reconciliation of a failed operation dooms the queued rows it reads. An execution ends with two
   saves, and a process may die between them.
   */
  datatype Step =
    | Submit(newId: Id, newTask: Task)
    | ExpireLease(lease: Id, now: Instant)
    | ReadRow(task: Id)
    | JudgeRow(row: Row)
    | CondemnRow(task: Id)
    | SaveCancel(row: Row)
    | Persist(operation: Id, outcome: OperationStatus)
    | Claim(agent: Id, task: Id, newLease: Id, now: Instant)
    | Release(lease: Id, success: bool, now: Instant)
    | SaveOutcome(lease: Id)
    | Crash(lease: Id)

  function Requeued(t: Task): Task {
    if t.attempt + 1 <= t.maxAttempts then t.(status := Queued, attempt := t.attempt + 1, holder := None)
    else t.(status := Failed)
  }

  function Ttl(a: Agent, t: Task): int { if a.leaseTtl >= t.timeout + 30 then a.leaseTtl else t.timeout + 30 }

  predicate Stale(s: State, l: Id, now: Instant) {
    l in s.leases && s.leases[l].status == Active && s.leases[l].expires <= now
  }

  predicate QueuedTask(s: State, id: Id) { id in s.tasks && s.tasks[id].status == Queued }

  function RowOf(s: State, id: Id): Row
    requires id in s.tasks
  {
    Row(id, s.tasks[id].attempt, OperationOver(s, s.tasks[id]))
  }

  /** What a cancel pass finds out about a row it has read. */
  predicate Rejects(s: State, row: Row) {
    row.task in s.tasks && (row.over || DependencyLost(s.tasks, s.tasks[row.task]))
  }

  /** A cancel pass without interruption would cancel the task. */
  predicate Blocked(s: State, id: Id) {
    QueuedTask(s, id) && (DependencyLost(s.tasks, s.tasks[id]) || OperationOver(s, s.tasks[id]))
  }

  predicate HasRoom(s: State, agent: Id) { agent in s.agents && ActiveCount(s, agent) < s.agents[agent].maxConcurrency }

  predicate Claimable(s: State, agent: Id, id: Id) {
    HasRoom(s, agent) && QueuedTask(s, id) && Matches(s, s.agents[agent], s.tasks[id])
  }

  function Expired(s: State, l: Id): State {
    if l !in s.leases then s
    else
      var id := s.leases[l].task;
      s.(leases := s.leases[l := s.leases[l].(status := LeaseExpired)],
         tasks := if id in s.tasks then s.tasks[id := Requeued(s.tasks[id])] else s.tasks)
  }

  function Claimed(s: State, agent: Id, id: Id, l: Id, now: Instant): State {
    if agent !in s.agents || id !in s.tasks then s
    else
      var t := s.tasks[id];
      s.(leaseIds := s.leaseIds + [l],
         leases := s.leases[l := Lease(id, agent, t.attempt, Active, now, now + Ttl(s.agents[agent], t) * SECOND)],
         tasks := s.tasks[id := t.(status := Running, holder := Some(agent))])
  }

  function Rewritten(s: State, id: Id, status: TaskStatus, attempt: int): State {
    if id in s.tasks then s.(tasks := s.tasks[id := s.tasks[id].(status := status, attempt := attempt)]) else s
  }

  /** The first save at the end of an execution: whatever has become of the lease, it is released. */
  function Closed(s: State, l: Id, success: bool): State {
    if l in s.leases then
      s.(leases := s.leases[l := s.leases[l].(status := Released)], outcomes := s.outcomes[l := success])
    else s
  }

  /** The second: whatever has become of the task, it gets the outcome and the attempt read at the claim. */
  function Settled(s: State, l: Id): State {
    if l in s.outcomes && l in s.leases then
      Rewritten(s, s.leases[l].task, if s.outcomes[l] then Completed else Failed, s.leases[l].attempt)
        .(outcomes := s.outcomes - {l})
    else s
  }

  /** The `finally` of `_execute` without interruption. */
  function Finished(s: State, l: Id, success: bool): State { Settled(Closed(s, l, success), l) }

  function Apply(s: State, e: Step): State {
    match e
    case Submit(id, t) => if id in s.tasks then s else s.(taskIds := s.taskIds + [id], tasks := s.tasks[id := t])
    case ExpireLease(l, now) => if Stale(s, l, now) then Expired(s, l) else s
    case ReadRow(id) => if QueuedTask(s, id) then s.(rows := s.rows + {RowOf(s, id)}) else s
    case JudgeRow(row) => if row in s.rows && Rejects(s, row) then s.(doomed := s.doomed + {row}) else s
    case CondemnRow(id) => if QueuedTask(s, id) then s.(doomed := s.doomed + {RowOf(s, id)}) else s
    case SaveCancel(row) => if row in s.doomed then Rewritten(s, row.task, Cancelled, row.attempt) else s
    case Persist(op, outcome) => s.(operations := s.operations[op := outcome])
    case Claim(agent, id, l, now) => if Claimable(s, agent, id) && l !in s.leases then Claimed(s, agent, id, l, now) else s
    case Release(l, success, _) => Closed(s, l, success)
    case SaveOutcome(l) => Settled(s, l)
    case Crash(l) => s.(outcomes := s.outcomes - {l})
  }

  function Run(s: State, steps: seq<Step>): State {
    if steps == [] then s else Apply(Run(s, steps[..|steps| - 1]), steps[|steps| - 1])
  }

  lemma RunOne(s: State, steps: seq<Step>, e: Step)
    ensures Run(s, steps + [e]) == Apply(Run(s, steps), e)
  {
    assert (steps + [e])[..|steps|] == steps;
  }

  lemma {:induction false} RunBoth(s: State, a: seq<Step>, b: seq<Step>)
    ensures Run(s, a + b) == Run(Run(s, a), b)
  {
    hide Apply;
    if b == [] {
      assert a + b == a;
    } else {
      var n := |b| - 1;
      assert (a + b)[..|a| + n] == a + b[..n];
      RunBoth(s, a, b[..n]);
    }
  }

  // ---- what the steps keep ----

  ghost predicate Tables(s: State) {
    && Elements(s.taskIds) == s.tasks.Keys && Distinct(s.taskIds)
    && Elements(s.leaseIds) == s.leases.Keys && Distinct(s.leaseIds)
    && (forall l :: l in s.leases ==> s.leases[l].task in s.tasks)
  }

  /** The lease's execution has not been ended for its task, in the books: it is active, or its outcome is to be saved. */
  predicate Holds(s: State, l: Id) { l in s.leases && (s.leases[l].status == Active || l in s.outcomes) }

  ghost predicate InHand(s: State, id: Id) { exists l :: Holds(s, l) && s.leases[l].task == id }

  /** A lease that holds a task holds it alone, and the task is running by the lease's agent. */
  ghost predicate Exclusive(s: State) {
    && (forall l :: l in s.outcomes ==> l in s.leases && s.leases[l].status == Released)
    && (forall l :: Holds(s, l) && s.leases[l].task in s.tasks ==>
         s.tasks[s.leases[l].task].status == Running && s.tasks[s.leases[l].task].holder == Some(s.leases[l].agent))
    && (forall l, k :: Holds(s, l) && Holds(s, k) && l != k ==> s.leases[l].task != s.leases[k].task)
  }

  predicate Started(t: Task) { t.status in {Running, Completed, Failed} }

  /** What was started had its dependencies completed, and they still are. */
  ghost predicate DependenciesFirst(s: State) {
    forall id :: id in s.tasks && Started(s.tasks[id]) ==> DependenciesDone(s.tasks, s.tasks[id])
  }

  ghost predicate AttemptsInRange(s: State) {
    && (forall id :: id in s.tasks ==> s.tasks[id].attempt <= s.tasks[id].maxAttempts)
    && (forall l :: l in s.leases && s.leases[l].task in s.tasks ==>
         s.leases[l].attempt <= s.tasks[s.leases[l].task].maxAttempts)
    && (forall row :: row in s.rows || row in s.doomed ==>
         row.task in s.tasks && row.attempt <= s.tasks[row.task].maxAttempts)
  }

  ghost predicate Inv(s: State) { Tables(s) && Exclusive(s) && DependenciesFirst(s) && AttemptsInRange(s) }

  /** A lease lasts longer than its command may, and expires only by the clock. */
  ghost predicate Timed(s: State, clock: Instant) {
    forall l :: l in s.leases && s.leases[l].task in s.tasks ==>
      && s.leases[l].expires >= s.leases[l].acquired + (s.tasks[s.leases[l].task].timeout + 30) * SECOND
      && (s.leases[l].status == LeaseExpired ==> s.leases[l].expires <= clock)
  }

  /** No task disappears, changes what it is for, or loses its completion. */
  ghost predicate Grows(a: map<Id, Task>, b: map<Id, Task>) {
    forall id :: id in a ==>
      && id in b && b[id].operation == a[id].operation && b[id].action == a[id].action && b[id].deps == a[id].deps
      && (a[id].status == Completed ==> b[id].status == Completed)
  }

  lemma DoneStaysDone(a: map<Id, Task>, b: map<Id, Task>, x: Task, y: Task)
    requires Grows(a, b) && DependenciesDone(a, x) && y.operation == x.operation && y.deps == x.deps
    ensures DependenciesDone(b, y)
  {
    forall d | d in y.deps ensures DependencyDone(b, y, d) {
      assert DependencyDone(a, x, d);
      var id :| id in a && Supplies(a, id, x, d) && a[id].status == Completed;
      assert Supplies(b, id, y, d);
    }
  }

  /** A step keeps the order of dependencies if it starts only tasks whose dependencies are done. */
  lemma OrderKept(s: State, t: State)
    requires DependenciesFirst(s) && Grows(s.tasks, t.tasks)
    requires forall id :: id in t.tasks && Started(t.tasks[id]) ==>
      id in s.tasks && (Started(s.tasks[id]) || DependenciesDone(s.tasks, s.tasks[id]))
    ensures DependenciesFirst(t)
  {
    hide DependenciesDone;
    forall id | id in t.tasks && Started(t.tasks[id]) ensures DependenciesDone(t.tasks, t.tasks[id]) {
      DoneStaysDone(s.tasks, t.tasks, s.tasks[id], t.tasks[id]);
    }
  }
}
