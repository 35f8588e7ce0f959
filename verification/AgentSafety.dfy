/** What every interleaving of executor agents keeps, given when executions end and when cancellations are saved. */
module AgentSafety {
  import opened Basics
  import opened AgentState

  // ---- the assumptions on a run ----

  function Later(clock: Instant, e: Step): Instant {
    match e
    case ExpireLease(_, now) => now
    case Claim(_, _, _, now) => now
    case Release(_, _, now) => now
    case _ => clock
  }

  predicate Cancellable(s: State, id: Id) { id in s.tasks && s.tasks[id].status in {Queued, Cancelled} }

  /**
   Clocks do not go back, tasks are submitted as queued, an execution is ended once and while its lease has not run out,
   and a row that a process saves as cancelled is still queued then, or cancelled already. Nothing else is assumed: passes
   read, judge and save in any interleaving, an outcome is saved at any time after its lease is released, and processes
   die anywhere.
   */
  predicate Obeys(s: State, clock: Instant, e: Step) {
    clock <= Later(clock, e)
    && match e
       case Submit(_, t) => t.status == Queued && t.attempt <= t.maxAttempts
       case Release(l, _, now) => l in s.leases && s.leases[l].status != Released && now < s.leases[l].expires
       case SaveCancel(row) => row in s.doomed ==> Cancellable(s, row.task)
       case _ => true
  }

  function ClockAfter(clock: Instant, steps: seq<Step>): Instant {
    if steps == [] then clock else Later(ClockAfter(clock, steps[..|steps| - 1]), steps[|steps| - 1])
  }

  predicate Timely(s: State, clock: Instant, steps: seq<Step>) {
    steps == []
    || (var n := |steps| - 1;
        Timely(s, clock, steps[..n]) && Obeys(Run(s, steps[..n]), ClockAfter(clock, steps[..n]), steps[n]))
  }

  lemma {:induction false} TimelyBoth(s: State, clock: Instant, a: seq<Step>, b: seq<Step>)
    requires Timely(s, clock, a) && Timely(Run(s, a), ClockAfter(clock, a), b)
    ensures Timely(s, clock, a + b) && ClockAfter(clock, a + b) == ClockAfter(ClockAfter(clock, a), b)
  {
    hide Obeys, Later, Run;
    if b == [] {
      assert a + b == a;
    } else {
      var n := |b| - 1;
      assert (a + b)[..|a| + n] == a + b[..n];
      TimelyBoth(s, clock, a, b[..n]);
      RunBoth(s, a, b[..n]);
    }
  }

  lemma TimelyOne(s: State, clock: Instant, e: Step)
    requires Obeys(s, clock, e)
    ensures Timely(s, clock, [e]) && Run(s, [e]) == Apply(s, e) && ClockAfter(clock, [e]) == Later(clock, e)
  {
    hide Obeys, Later, Apply;
    assert [e][..0] == [];
  }

  lemma NoSteps(s: State, clock: Instant)
    ensures Timely(s, clock, []) && Run(s, []) == s && ClockAfter(clock, []) == clock
  {
  }

  /** An execution that ends less than its command timeout and thirty seconds after the claim ends in time. */
  lemma PromptEndsObey(s: State, clock: Instant, l: Id, success: bool, now: Instant)
    requires Inv(s) && Timed(s, clock) && clock <= now && l in s.leases && s.leases[l].status != Released
    requires now < s.leases[l].acquired + (s.tasks[s.leases[l].task].timeout + 30) * SECOND
    ensures Obeys(s, clock, Release(l, success, now))
  {
    hide Exclusive, DependenciesFirst, AttemptsInRange;
  }

  // ---- step by step ----

  lemma LeaseIsActive(s: State, clock: Instant, e: Step)
    requires Tables(s) && Timed(s, clock) && Obeys(s, clock, e) && e.Release?
    ensures e.lease in s.leases && s.leases[e.lease].status == Active
  {
  }

  /** A change of one task that is not completed, with its operation, action, dependencies and limit as they were. */
  ghost predicate Retouched(s: State, r: State, id: Id) {
    && id in s.tasks && s.tasks[id].status != Completed && id in r.tasks && r.tasks == s.tasks[id := r.tasks[id]]
    && r.tasks[id].operation == s.tasks[id].operation && r.tasks[id].action == s.tasks[id].action
    && r.tasks[id].deps == s.tasks[id].deps && r.tasks[id].maxAttempts == s.tasks[id].maxAttempts
  }

  lemma RetouchedInOrder(s: State, r: State, id: Id)
    requires DependenciesFirst(s) && Retouched(s, r, id)
    requires Started(r.tasks[id]) ==> Started(s.tasks[id]) || DependenciesDone(s.tasks, s.tasks[id])
    ensures DependenciesFirst(r)
  {
    hide DependenciesDone, DependenciesFirst;
    OrderKept(s, r);
  }

  lemma RetouchedInRange(s: State, r: State, id: Id)
    requires Tables(s) && AttemptsInRange(s) && Retouched(s, r, id) && r.tasks[id].attempt <= r.tasks[id].maxAttempts
    requires r.rows == s.rows && r.doomed == s.doomed && r.taskIds == s.taskIds
    requires r.leaseIds == s.leaseIds && r.leases.Keys == s.leases.Keys
    requires forall l :: l in s.leases ==> r.leases[l].task == s.leases[l].task && r.leases[l].attempt == s.leases[l].attempt
    ensures Tables(r) && AttemptsInRange(r)
  {
    hide Distinct, Elements;
    assert r.tasks.Keys == s.tasks.Keys;
  }

  lemma SubmitKeeps(s: State, id: Id, t: Task)
    requires Inv(s) && id !in s.tasks && t.status == Queued && t.attempt <= t.maxAttempts
    ensures Inv(s.(taskIds := s.taskIds + [id], tasks := s.tasks[id := t]))
  {
    hide DependenciesDone, Exclusive, DependenciesFirst, Tables, AttemptsInRange;
    var r := s.(taskIds := s.taskIds + [id], tasks := s.tasks[id := t]);
    SubmitTables(s, id, t);
    SubmitAttempts(s, id, t);
    SubmitExclusive(s, id, t);
    OrderKept(s, r);
  }

  lemma SubmitAttempts(s: State, id: Id, t: Task)
    requires Tables(s) && AttemptsInRange(s) && id !in s.tasks && t.attempt <= t.maxAttempts
    ensures AttemptsInRange(s.(taskIds := s.taskIds + [id], tasks := s.tasks[id := t]))
  {
    hide Distinct, Elements;
  }

  lemma SubmitTables(s: State, id: Id, t: Task)
    requires Tables(s) && id !in s.tasks
    ensures Tables(s.(taskIds := s.taskIds + [id], tasks := s.tasks[id := t]))
  {
    assert Elements(s.taskIds + [id]) == Elements(s.taskIds) + {id};
  }

  lemma SubmitExclusive(s: State, id: Id, t: Task)
    requires Tables(s) && Exclusive(s) && id !in s.tasks && t.status == Queued
    ensures Exclusive(s.(taskIds := s.taskIds + [id], tasks := s.tasks[id := t]))
  {
    hide Distinct, Elements;
    var r := s.(taskIds := s.taskIds + [id], tasks := s.tasks[id := t]);
    assert forall l :: Holds(r, l) <==> Holds(s, l);
  }

  lemma HeldIsRunning(s: State, l: Id)
    requires Inv(s) && Holds(s, l)
    ensures s.leases[l].task in s.tasks && s.tasks[s.leases[l].task].status == Running
  {
    hide DependenciesFirst, AttemptsInRange;
  }

  lemma AttemptsOf(s: State, l: Id)
    requires Inv(s) && l in s.leases && s.leases[l].task in s.tasks
    ensures var t := s.tasks[s.leases[l].task];
      t.attempt <= t.maxAttempts && s.leases[l].attempt <= t.maxAttempts
  {
    hide Tables, Exclusive, DependenciesFirst;
  }

  lemma ExpireExclusive(s: State, l: Id)
    requires Exclusive(s) && l in s.leases && s.leases[l].status == Active && s.leases[l].task in s.tasks
    ensures Exclusive(Expired(s, l))
  {
    hide Requeued;
    var r := Expired(s, l);
    assert Holds(s, l) && l !in s.outcomes;
    assert forall k :: Holds(r, k) <==> Holds(s, k) && k != l;
  }

  lemma ExpireKeeps(s: State, l: Id)
    requires Inv(s) && l in s.leases && s.leases[l].status == Active
    ensures Inv(Expired(s, l))
  {
    assert Holds(s, l);
    HeldIsRunning(s, l);
    AttemptsOf(s, l);
    hide Tables, Exclusive, DependenciesFirst, AttemptsInRange;
    var r := Expired(s, l);
    ExpireExclusive(s, l);
    RetouchedInRange(s, r, s.leases[l].task);
    RetouchedInOrder(s, r, s.leases[l].task);
  }

  lemma ReleaseExclusive(s: State, l: Id, success: bool)
    requires Exclusive(s) && l in s.leases && s.leases[l].status == Active
    ensures Exclusive(Closed(s, l, success))
  {
    var r := Closed(s, l, success);
    assert forall k :: Holds(r, k) <==> Holds(s, k);
  }

  lemma ReleaseKeeps(s: State, l: Id, success: bool)
    requires Inv(s) && l in s.leases && s.leases[l].status == Active
    ensures Inv(Closed(s, l, success))
  {
    hide Distinct, Elements, Exclusive, DependenciesDone;
    ReleaseExclusive(s, l, success);
  }

  lemma SettleExclusive(s: State, l: Id)
    requires Exclusive(s) && l in s.outcomes
    ensures Exclusive(Settled(s, l))
  {
    var r := Settled(s, l);
    assert Holds(s, l);
    assert forall k :: Holds(r, k) <==> Holds(s, k) && k != l;
  }

  lemma SettleKeeps(s: State, l: Id)
    requires Inv(s) && l in s.outcomes
    ensures Inv(Settled(s, l))
  {
    assert Holds(s, l);
    HeldIsRunning(s, l);
    AttemptsOf(s, l);
    hide Tables, Exclusive, DependenciesFirst, AttemptsInRange;
    SettleExclusive(s, l);
    RetouchedInRange(s, Settled(s, l), s.leases[l].task);
    RetouchedInOrder(s, Settled(s, l), s.leases[l].task);
  }

  lemma CrashKeeps(s: State, l: Id)
    requires Inv(s)
    ensures Inv(s.(outcomes := s.outcomes - {l}))
  {
    hide Distinct, Elements, DependenciesDone;
    var r := s.(outcomes := s.outcomes - {l});
    assert forall k :: Holds(r, k) ==> Holds(s, k);
  }

  lemma IdleIsFree(s: State, id: Id)
    requires Exclusive(s) && id in s.tasks && s.tasks[id].status != Running
    ensures !InHand(s, id)
  {
  }

  lemma CancelExclusive(s: State, id: Id, attempt: int)
    requires Exclusive(s) && Cancellable(s, id)
    ensures Exclusive(Rewritten(s, id, Cancelled, attempt))
  {
    IdleIsFree(s, id);
    var r := Rewritten(s, id, Cancelled, attempt);
    assert forall l :: Holds(r, l) <==> Holds(s, l);
  }

  /** A row that is still queued may be saved as cancelled, and one that is cancelled already. */
  lemma CancelKeeps(s: State, row: Row)
    requires Inv(s) && row in s.doomed && Cancellable(s, row.task)
    ensures Inv(Rewritten(s, row.task, Cancelled, row.attempt))
  {
    assert row.attempt <= s.tasks[row.task].maxAttempts;
    hide Tables, Exclusive, DependenciesFirst, AttemptsInRange;
    var r := Rewritten(s, row.task, Cancelled, row.attempt);
    CancelExclusive(s, row.task, row.attempt);
    RetouchedInRange(s, r, row.task);
    RetouchedInOrder(s, r, row.task);
  }

  lemma ClaimableIsQueued(s: State, agent: Id, id: Id)
    requires Claimable(s, agent, id)
    ensures agent in s.agents && QueuedTask(s, id) && DependenciesDone(s.tasks, s.tasks[id])
  {
    hide DependenciesDone, Capable, ActiveCount;
  }

  lemma ClaimExclusive(s: State, agent: Id, id: Id, l: Id, now: Instant)
    requires Exclusive(s) && agent in s.agents && QueuedTask(s, id) && l !in s.leases
    ensures Exclusive(Claimed(s, agent, id, l, now))
  {
    IdleIsFree(s, id);
    var r := Claimed(s, agent, id, l, now);
    assert forall k :: Holds(r, k) <==> Holds(s, k) || k == l;
  }

  lemma ClaimTables(s: State, agent: Id, id: Id, l: Id, now: Instant)
    requires Tables(s) && agent in s.agents && id in s.tasks && l !in s.leases
    ensures Tables(Claimed(s, agent, id, l, now))
  {
    var r := Claimed(s, agent, id, l, now);
    assert Elements(r.leaseIds) == Elements(s.leaseIds) + {l};
    assert r.tasks.Keys == s.tasks.Keys;
  }

  lemma ClaimAttempts(s: State, agent: Id, id: Id, l: Id, now: Instant)
    requires AttemptsInRange(s) && agent in s.agents && id in s.tasks && l !in s.leases
    ensures AttemptsInRange(Claimed(s, agent, id, l, now))
  {
  }

  lemma ClaimKeeps(s: State, agent: Id, id: Id, l: Id, now: Instant)
    requires Inv(s) && Claimable(s, agent, id) && l !in s.leases
    ensures Inv(Claimed(s, agent, id, l, now))
  {
    ClaimableIsQueued(s, agent, id);
    hide Claimable, Tables, Exclusive, DependenciesFirst, DependenciesDone, AttemptsInRange;
    ClaimTables(s, agent, id, l, now);
    ClaimExclusive(s, agent, id, l, now);
    ClaimAttempts(s, agent, id, l, now);
    RetouchedInOrder(s, Claimed(s, agent, id, l, now), id);
  }

  /** Reading, judging and projecting write no task and no lease. */
  lemma NotesKeep(s: State, r: State)
    requires Inv(s) && r == s.(operations := r.operations, rows := r.rows, doomed := r.doomed)
    requires forall row :: row in r.rows || row in r.doomed ==>
      row in s.rows || row in s.doomed || (row.task in s.tasks && row.attempt == s.tasks[row.task].attempt)
    ensures Inv(r)
  {
    hide Distinct, Elements, DependenciesDone;
    assert forall l :: Holds(r, l) <==> Holds(s, l);
  }

  lemma TimedKept(s: State, clock: Instant, e: Step)
    requires Tables(s) && Timed(s, clock) && Obeys(s, clock, e)
    ensures Timed(Apply(s, e), Later(clock, e))
  {
    hide Claimable, Rejects, Distinct, Elements, OperationOver, Requeued, Rewritten;
    match e
    case ExpireLease(l, now) => ExpiryIsTimed(s, clock, l, now);
    case SaveCancel(row) => RewritingIsTimed(s, clock, row.task, Cancelled, row.attempt);
    case SaveOutcome(l) =>
      if l in s.outcomes && l in s.leases {
        RewritingIsTimed(
          s, clock, s.leases[l].task, if s.outcomes[l] then Completed else Failed, s.leases[l].attempt);
      }
    case _ =>
  }

  lemma RewritingIsTimed(s: State, clock: Instant, id: Id, status: TaskStatus, attempt: int)
    requires Timed(s, clock)
    ensures Timed(Rewritten(s, id, status, attempt), clock)
  {
  }

  lemma ExpiryIsTimed(s: State, clock: Instant, l: Id, now: Instant)
    requires Timed(s, clock) && clock <= now
    ensures Timed(Apply(s, ExpireLease(l, now)), now)
  {
  }

  lemma NoteKeeps(s: State, e: Step)
    requires Inv(s) && (e.ReadRow? || e.JudgeRow? || e.CondemnRow? || e.Persist?)
    ensures Inv(Apply(s, e))
  {
    hide Inv, Rejects, OperationOver;
    NotesKeep(s, Apply(s, e));
  }

  lemma EndKeeps(s: State, e: Step)
    requires Inv(s) && (e.SaveOutcome? || e.Crash?)
    ensures Inv(Apply(s, e))
  {
    hide Inv, Rewritten;
    if e.Crash? {
      CrashKeeps(s, e.lease);
    } else if e.lease in s.outcomes {
      SettleKeeps(s, e.lease);
    } else {
      assert Apply(s, e) == s;
    }
  }

  lemma WriteKeeps(s: State, clock: Instant, e: Step)
    requires Inv(s) && Timed(s, clock) && Obeys(s, clock, e) && (e.ExpireLease? || e.Release? || e.SaveCancel? || e.Claim?)
    ensures Inv(Apply(s, e))
  {
    if e.Release? { LeaseIsActive(s, clock, e); }
    hide Inv, Timed, Claimable, Claimed, Expired, Closed, Rewritten;
    match e
    case ExpireLease(l, now) => if Stale(s, l, now) { ExpireKeeps(s, l); }
    case SaveCancel(row) => if row in s.doomed { CancelKeeps(s, row); }
    case Claim(agent, id, l, now) => if Claimable(s, agent, id) && l !in s.leases { ClaimKeeps(s, agent, id, l, now); }
    case Release(l, success, _) => ReleaseKeeps(s, l, success);
  }

  /** One step of any agent keeps the invariants. */
  lemma StepKeeps(s: State, clock: Instant, e: Step)
    requires Inv(s) && Timed(s, clock) && Obeys(s, clock, e)
    ensures Inv(Apply(s, e)) && Timed(Apply(s, e), Later(clock, e))
  {
    TimedKept(s, clock, e);
    if e.Submit? && e.newId !in s.tasks { SubmitKeeps(s, e.newId, e.newTask); }
    hide Inv, Timed;
    if e.ReadRow? || e.JudgeRow? || e.CondemnRow? || e.Persist? {
      NoteKeeps(s, e);
    } else if e.SaveOutcome? || e.Crash? {
      EndKeeps(s, e);
    } else if !e.Submit? {
      WriteKeeps(s, clock, e);
    }
  }

  /** Every run of any number of agents keeps them. */
  lemma {:induction false} RunsKeep(s: State, clock: Instant, steps: seq<Step>)
    requires Inv(s) && Timed(s, clock) && Timely(s, clock, steps)
    ensures Inv(Run(s, steps)) && Timed(Run(s, steps), ClockAfter(clock, steps))
  {
    hide Inv, Timed, Apply, Obeys, Later;
    if steps != [] {
      var n := |steps| - 1;
      RunsKeep(s, clock, steps[..n]);
      StepKeeps(Run(s, steps[..n]), ClockAfter(clock, steps[..n]), steps[n]);
    }
  }

  ghost predicate Fresh(s: State) {
    && Tables(s) && s.leaseIds == [] && s.rows == {} && s.doomed == {} && s.outcomes == map[]
    && forall id :: id in s.tasks ==> s.tasks[id].status == Queued && s.tasks[id].attempt <= s.tasks[id].maxAttempts
  }

  lemma FreshIsInv(s: State, clock: Instant)
    requires Fresh(s)
    ensures Inv(s) && Timed(s, clock)
  {
    assert forall l :: l in s.leases ==> l in Elements(s.leaseIds);
  }

  /**
   Safety. However claims, ends, expiries and the reads and saves of cancel passes interleave, a task that is running,
   completed or failed had every one of its dependencies completed, and they still are; and no task is ever in the
   hands of two agents.
   */
  lemma DependenciesComeFirst(s: State, clock: Instant, steps: seq<Step>, id: Id, d: Id)
    requires Fresh(s) && Timely(s, clock, steps)
    requires id in Run(s, steps).tasks && Started(Run(s, steps).tasks[id])
    requires d in Run(s, steps).tasks[id].deps
    ensures DependencyDone(Run(s, steps).tasks, Run(s, steps).tasks[id], d)
    ensures Exclusive(Run(s, steps))
  {
    hide Fresh, Timely, Tables, Exclusive, AttemptsInRange, DependencyDone, Run, Started;
    FreshIsInv(s, clock);
    RunsKeep(s, clock, steps);
  }
}
