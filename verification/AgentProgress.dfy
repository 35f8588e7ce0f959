/** The queue of executor tasks drains, if and only if no process died while it ended an execution. */
module AgentProgress {
  import opened Basics
  import opened AgentState
  import opened AgentSafety
  import AgentRaces
  import PlanGraph

  // ---- every effective step costs ----

  function Weight(t: Task): int {
    match t.status
    case Queued => 2 * (t.maxAttempts - t.attempt) + 2
    case Running => 2 * (t.maxAttempts - t.attempt) + 1
    case _ => 0
  }

  function Sum(ids: seq<Id>, tasks: map<Id, Task>): int {
    if ids == [] then 0
    else
      var last := ids[|ids| - 1];
      Sum(ids[..|ids| - 1], tasks) + if last in tasks then Weight(tasks[last]) else 0
  }

  function Total(s: State): int { Sum(s.taskIds, s.tasks) }

  ghost predicate NoHeavier(ids: seq<Id>, a: map<Id, Task>, b: map<Id, Task>) {
    forall id :: id in ids ==> id in a && id in b && Weight(b[id]) <= Weight(a[id])
  }

  lemma {:induction false} SumFalls(ids: seq<Id>, a: map<Id, Task>, b: map<Id, Task>)
    requires NoHeavier(ids, a, b)
    ensures Sum(ids, b) <= Sum(ids, a)
    ensures (exists id :: id in ids && Weight(b[id]) < Weight(a[id])) ==> Sum(ids, b) < Sum(ids, a)
  {
    if ids != [] {
      var n := |ids| - 1;
      SumFalls(ids[..n], a, b);
      assert ids == ids[..n] + [ids[n]];
      hide Weight;
      if id :| id in ids && Weight(b[id]) < Weight(a[id]) {
        assert id in ids[..n] || id == ids[n];
      }
    }
  }

  lemma {:induction false} SumIsNatural(ids: seq<Id>, tasks: map<Id, Task>)
    requires forall id :: id in tasks ==> tasks[id].attempt <= tasks[id].maxAttempts
    ensures Sum(ids, tasks) >= 0
  {
    if ids != [] { SumIsNatural(ids[..|ids| - 1], tasks); }
  }

  predicate SameStatuses(a: map<Id, Task>, b: map<Id, Task>) {
    forall id :: id in a ==> id in b && b[id].status == a[id].status
  }

  /** What a step does to a task: it leaves its status and weight, or it makes it lighter. */
  ghost predicate Lightens(s: State, r: State) {
    && r.taskIds == s.taskIds && r.tasks.Keys == s.tasks.Keys
    && forall id :: id in s.tasks ==>
         || (r.tasks[id].status == s.tasks[id].status && Weight(r.tasks[id]) == Weight(s.tasks[id]))
         || Weight(r.tasks[id]) < Weight(s.tasks[id])
  }

  lemma LighterTotal(s: State, r: State)
    requires Tables(s) && Lightens(s, r)
    ensures Total(r) <= Total(s) && (!SameStatuses(s.tasks, r.tasks) ==> Total(r) < Total(s))
  {
    hide Weight, Distinct;
    assert NoHeavier(s.taskIds, s.tasks, r.tasks) by {
      assert forall id :: id in s.taskIds ==> id in Elements(s.taskIds);
    }
    SumFalls(s.taskIds, s.tasks, r.tasks);
    if !SameStatuses(s.tasks, r.tasks) {
      var id :| id in s.tasks && r.tasks[id].status != s.tasks[id].status;
      assert id in Elements(s.taskIds);
    }
  }

  lemma InvParts(s: State)
    requires Inv(s)
    ensures Tables(s) && AttemptsInRange(s)
  {
  }

  /** What any step other than a submission can do to one task. */
  predicate Moved(t: Task, u: Task) {
    || (t.status == Queued && u == t.(status := Running, holder := u.holder))
    || (t.status in {Queued, Cancelled} && u == t.(status := Cancelled, attempt := u.attempt))
    || (t.status == Running && u == Requeued(t))
    || (t.status == Running && u.status in {Completed, Failed} && u == t.(status := u.status, attempt := u.attempt))
  }

  ghost predicate Moves(s: State, r: State) {
    && r.agents == s.agents && r.taskIds == s.taskIds && r.tasks.Keys == s.tasks.Keys
    && forall id :: id in s.tasks ==> r.tasks[id] == s.tasks[id] || Moved(s.tasks[id], r.tasks[id])
  }

  lemma OneMoves(s: State, r: State, id: Id, t: Task)
    requires id in s.tasks && r.tasks == s.tasks[id := t] && Moved(s.tasks[id], t)
    requires r.agents == s.agents && r.taskIds == s.taskIds
    ensures Moves(s, r)
  {
    hide Moved;
  }

  lemma IdleMoves(s: State, r: State)
    requires r.tasks == s.tasks && r.taskIds == s.taskIds && r.agents == s.agents
    ensures Moves(s, r)
  {
    hide Moved;
  }

  lemma ExpiryMoves(s: State, l: Id)
    requires Inv(s) && l in s.leases && s.leases[l].status == Active
    ensures Moves(s, Expired(s, l))
  {
    assert Holds(s, l);
    HeldIsRunning(s, l);
    hide Inv, Requeued, Moves;
    OneMoves(s, Expired(s, l), s.leases[l].task, Requeued(s.tasks[s.leases[l].task]));
  }

  lemma SettlingMoves(s: State, l: Id)
    requires Inv(s)
    ensures Moves(s, Settled(s, l))
  {
    if l in s.outcomes && l in s.leases {
      assert Holds(s, l);
      HeldIsRunning(s, l);
      hide Inv, Moves, Requeued;
      OneMoves(s, Settled(s, l), s.leases[l].task, Settled(s, l).tasks[s.leases[l].task]);
    } else {
      IdleMoves(s, Settled(s, l));
    }
  }

  lemma CancelMoves(s: State, id: Id, attempt: int)
    requires Cancellable(s, id)
    ensures Moves(s, Rewritten(s, id, Cancelled, attempt))
  {
    hide Moves, Requeued;
    OneMoves(s, Rewritten(s, id, Cancelled, attempt), id, s.tasks[id].(status := Cancelled, attempt := attempt));
  }

  lemma ClaimMoves(s: State, agent: Id, id: Id, l: Id, now: Instant)
    requires Claimable(s, agent, id)
    ensures Moves(s, Claimed(s, agent, id, l, now))
  {
    ClaimableIsQueued(s, agent, id);
    hide Claimable, Moves, Requeued;
    OneMoves(s, Claimed(s, agent, id, l, now), id, s.tasks[id].(status := Running, holder := Some(agent)));
  }

  lemma StepMoves(s: State, clock: Instant, e: Step)
    requires Inv(s) && Obeys(s, clock, e) && !e.Submit?
    ensures Moves(s, Apply(s, e))
  {
    hide Inv, Claimable, Rejects, Claimed, Settled, Expired, Rewritten, Moves, RowOf;
    match e
    case ExpireLease(l, now) => if Stale(s, l, now) { ExpiryMoves(s, l); } else { IdleMoves(s, s); }
    case SaveCancel(row) => if row in s.doomed { CancelMoves(s, row.task, row.attempt); } else { IdleMoves(s, s); }
    case Claim(agent, id, l, now) =>
      if Claimable(s, agent, id) && l !in s.leases { ClaimMoves(s, agent, id, l, now); } else { IdleMoves(s, s); }
    case SaveOutcome(l) => SettlingMoves(s, l);
    case _ => IdleMoves(s, Apply(s, e));
  }

  lemma MovesLighten(s: State, r: State)
    requires AttemptsInRange(s) && Moves(s, r)
    ensures Lightens(s, r)
  {
  }

  /** At most the attempt number of a cancelled task differs. */
  ghost predicate BarelyDiffers(a: map<Id, Task>, b: map<Id, Task>) {
    a.Keys == b.Keys && forall id :: id in a ==>
      b[id] == a[id] || (a[id].status == Cancelled && b[id] == a[id].(attempt := b[id].attempt))
  }

  lemma MovesThatKeepStatuses(s: State, r: State)
    requires AttemptsInRange(s) && Moves(s, r) && SameStatuses(s.tasks, r.tasks)
    ensures BarelyDiffers(s.tasks, r.tasks)
  {
  }

  /**
   Every step that changes the status of a task lowers the total. The others leave it, and change nothing of a task but
   the attempt number that a second pass writes back to a task already cancelled.
   */
  lemma StepSpends(s: State, clock: Instant, e: Step)
    requires Inv(s) && Timed(s, clock) && Obeys(s, clock, e) && !e.Submit?
    ensures Total(Apply(s, e)) <= Total(s)
    ensures !SameStatuses(s.tasks, Apply(s, e).tasks) ==> Total(Apply(s, e)) < Total(s)
    ensures SameStatuses(s.tasks, Apply(s, e).tasks) ==> BarelyDiffers(s.tasks, Apply(s, e).tasks)
  {
    hide *;
    InvParts(s);
    StepMoves(s, clock, e);
    MovesLighten(s, Apply(s, e));
    if SameStatuses(s.tasks, Apply(s, e).tasks) { MovesThatKeepStatuses(s, Apply(s, e)); }
    LighterTotal(s, Apply(s, e));
  }

  /** The steps of a run that changed the status of some task. */
  function Effective(s: State, steps: seq<Step>): nat {
    if steps == [] then 0
    else
      var n := |steps| - 1;
      Effective(s, steps[..n]) + if SameStatuses(Run(s, steps[..n]).tasks, Run(s, steps).tasks) then 0 else 1
  }

  lemma {:induction false} ChangeIsEffective(s: State, steps: seq<Step>)
    ensures !SameStatuses(s.tasks, Run(s, steps).tasks) ==> Effective(s, steps) >= 1
  {
    hide Apply;
    if steps != [] { ChangeIsEffective(s, steps[..|steps| - 1]); }
  }

  ghost predicate NoSubmits(steps: seq<Step>) { forall e :: e in steps ==> !e.Submit? }

  /** Whatever the interleaving, at most `Total` steps change a status: claims, expiries, ends and cancellations. */
  lemma {:induction false} RunsAreBounded(s: State, clock: Instant, steps: seq<Step>)
    requires Inv(s) && Timed(s, clock) && Timely(s, clock, steps) && NoSubmits(steps)
    ensures Effective(s, steps) + Total(Run(s, steps)) <= Total(s)
    ensures 0 <= Total(Run(s, steps))
  {
    hide Inv, Timed, Apply, Obeys, Later, Total;
    RunsKeep(s, clock, steps);
    TotalIsNatural(Run(s, steps));
    if steps != [] {
      var n := |steps| - 1;
      assert steps[n] in steps;
      assert forall e :: e in steps[..n] ==> e in steps;
      RunsAreBounded(s, clock, steps[..n]);
      RunsKeep(s, clock, steps[..n]);
      StepSpends(Run(s, steps[..n]), ClockAfter(clock, steps[..n]), steps[n]);
    }
  }

  lemma TotalIsNatural(s: State)
    requires Inv(s)
    ensures Total(s) >= 0
  {
    SumIsNatural(s.taskIds, s.tasks);
    hide Tables, Exclusive, DependenciesFirst;
  }

  // ---- there is always a next step ----

  /** Every dependency has a task in its operation. */
  ghost predicate Supplied(s: State) {
    forall id, d :: id in s.tasks && d in s.tasks[id].deps ==>
      exists x :: x in s.tasks && Supplies(s.tasks, x, s.tasks[id], d)
  }

  /** The dependencies are acyclic: a task ranks above those it waits for. */
  ghost predicate Ranked(s: State, rank: map<Id, nat>) {
    && s.tasks.Keys <= rank.Keys
    && forall id, d, x :: id in s.tasks && d in s.tasks[id].deps && x in s.tasks && Supplies(s.tasks, x, s.tasks[id], d) ==>
         rank[x] < rank[id]
  }

  /** The task is queued, or running with an attempt left. */
  predicate MayBeClaimed(t: Task) { t.status == Queued || (t.status == Running && t.attempt + 1 <= t.maxAttempts) }

  ghost predicate Doable(s: State, t: Task) {
    exists a :: a in s.agents && s.agents[a].maxConcurrency >= 1 && Capable(s.agents[a], t)
  }

  /** For every task that may be claimed some agent can do it, not necessarily the same one for all. */
  ghost predicate Staffed(s: State) { forall id :: id in s.tasks && MayBeClaimed(s.tasks[id]) ==> Doable(s, s.tasks[id]) }

  ghost predicate NothingRuns(s: State) { forall id :: id in s.tasks ==> s.tasks[id].status != Running }

  lemma NothingIsHeld(s: State, agent: Id, l: Id)
    requires Inv(s) && NothingRuns(s)
    ensures !HeldBy(s, agent)(l)
  {
    hide DependenciesFirst, AttemptsInRange, Elements, Distinct;
    assert HeldBy(s, agent)(l) ==> Holds(s, l);
  }

  lemma IdleWhenNothingRuns(s: State, agent: Id)
    requires Inv(s) && NothingRuns(s)
    ensures ActiveCount(s, agent) == 0
  {
    hide Inv, NothingRuns, HeldBy;
    forall l | l in s.leaseIds ensures !HeldBy(s, agent)(l) { NothingIsHeld(s, agent, l); }
    FilterNothing(s.leaseIds, HeldBy(s, agent));
  }

  /** A queued task all of whose dependencies have ended is ready or lost. */
  lemma EndedDependenciesDecide(s: State, agent: Id, id: Id)
    requires Supplied(s) && QueuedTask(s, id) && ActiveCount(s, agent) == 0
    requires agent in s.agents && s.agents[agent].maxConcurrency >= 1 && Capable(s.agents[agent], s.tasks[id])
    requires forall d, x :: d in s.tasks[id].deps && x in s.tasks && Supplies(s.tasks, x, s.tasks[id], d) ==>
      s.tasks[x].status in {Completed, Failed, Cancelled}
    ensures Claimable(s, agent, id) || Blocked(s, id)
  {
    hide Capable, ActiveCount;
    var t := s.tasks[id];
    if !DependencyLost(s.tasks, t) {
      forall d | d in t.deps ensures DependencyDone(s.tasks, t, d) {
        var x :| x in s.tasks && Supplies(s.tasks, x, t, d);
        assert s.tasks[x].status == Completed;
      }
    }
  }

  /**
   Progress. With acyclic dependencies that all have tasks, and for each task some agent that can do it, while something
   is queued and nothing is running, some queued task can be claimed by an agent or is rejected by the next cancel pass.
   */
  lemma QueueMovesOn(s: State, rank: map<Id, nat>) returns (agent: Id, id: Id)
    requires Inv(s) && Supplied(s) && Ranked(s, rank) && Staffed(s) && NothingRuns(s)
    requires exists q :: QueuedTask(s, q)
    ensures Claimable(s, agent, id) || Blocked(s, id)
  {
    hide Inv, Supplied, ActiveCount, Claimable, Blocked, Capable;
    var queued := set q | q in s.tasks && s.tasks[q].status == Queued;
    var q :| QueuedTask(s, q);
    assert q in queued;
    id := PlanGraph.LowestRank(queued, rank);
    forall d, x | d in s.tasks[id].deps && x in s.tasks && Supplies(s.tasks, x, s.tasks[id], d)
      ensures s.tasks[x].status in {Completed, Failed, Cancelled}
    {
      assert rank[x] < rank[id];
      assert x !in queued;
    }
    assert Doable(s, s.tasks[id]);
    agent :| agent in s.agents && s.agents[agent].maxConcurrency >= 1 && Capable(s.agents[agent], s.tasks[id]);
    IdleWhenNothingRuns(s, agent);
    EndedDependenciesDecide(s, agent, id);
  }

  function Length(ids: seq<Id>): nat { if ids == [] then 0 else |ids[0]| + Length(ids[1..]) }

  lemma {:induction false} LongerThanAll(ids: seq<Id>, x: Id)
    requires |x| > Length(ids)
    ensures x !in ids
  {
    if ids != [] { LongerThanAll(ids[1..], x); }
  }

  lemma UnusedLease(s: State) returns (l: Id)
    requires Tables(s)
    ensures l !in s.leases
  {
    l := seq(Length(s.leaseIds) + 1, i => 'l');
    LongerThanAll(s.leaseIds, l);
    assert l !in Elements(s.leaseIds);
  }

  ghost predicate Drained(s: State) { forall id :: id in s.tasks ==> s.tasks[id].status in {Completed, Failed, Cancelled} }

  /** A running task that no execution will end: its process died between the two saves. */
  ghost predicate Stranded(s: State, id: Id) { id in s.tasks && s.tasks[id].status == Running && !InHand(s, id) }

  ghost predicate Attended(s: State) { forall id :: !Stranded(s, id) }

  /** Steps that agents take of their own accord: no submissions, no deaths, no projections. */
  predicate Ordinary(e: Step) {
    e.ExpireLease? || e.ReadRow? || e.JudgeRow? || e.SaveCancel? || e.Claim? || e.SaveOutcome?
  }

  predicate AllOrdinary(steps: seq<Step>) { forall e :: e in steps ==> Ordinary(e) }

  lemma ExpiryChanges(s: State, l: Id, now: Instant)
    requires Inv(s) && Stale(s, l, now)
    ensures !SameStatuses(s.tasks, Apply(s, ExpireLease(l, now)).tasks)
  {
    assert Holds(s, l);
    HeldIsRunning(s, l);
    hide Inv;
    var id := s.leases[l].task;
    assert Apply(s, ExpireLease(l, now)).tasks[id].status != Running;
  }

  lemma SettlingChanges(s: State, l: Id)
    requires Inv(s) && l in s.outcomes && l in s.leases
    ensures !SameStatuses(s.tasks, Apply(s, SaveOutcome(l)).tasks)
  {
    assert Holds(s, l);
    HeldIsRunning(s, l);
    hide Inv;
    assert Apply(s, SaveOutcome(l)).tasks[s.leases[l].task].status != Running;
  }

  lemma ClaimChanges(s: State, agent: Id, id: Id, l: Id, now: Instant)
    requires Claimable(s, agent, id) && l !in s.leases
    ensures !SameStatuses(s.tasks, Apply(s, Claim(agent, id, l, now)).tasks)
  {
    ClaimableIsQueued(s, agent, id);
    hide Claimable;
    assert Apply(s, Claim(agent, id, l, now)).tasks[id].status == Running;
  }

  /** The three steps of a cancel pass for one row. */
  lemma CancelOne(s: State, clock: Instant, id: Id) returns (steps: seq<Step>)
    requires Blocked(s, id)
    ensures |steps| == 3 && Timely(s, clock, steps) && AllOrdinary(steps) && !SameStatuses(s.tasks, Run(s, steps).tasks)
  {
    AgentRaces.BlockedRowIsDoomed(s, clock, id);
    hide Run, Timely, ClockAfter, DependencyLost, OperationOver;
    var row, judged := RowOf(s, id), [ReadRow(id), JudgeRow(RowOf(s, id))];
    var e := SaveCancel(row);
    TimelyOne(Run(s, judged), clock, e);
    TimelyBoth(s, clock, judged, [e]);
    RunBoth(s, judged, [e]);
    steps := judged + [e];
    assert Run(s, steps).tasks[id].status == Cancelled;
  }

  /** A task that is running and attended can be requeued or ended. */
  lemma RunningMovesOn(s: State, clock: Instant, id: Id) returns (e: Step)
    requires Inv(s) && InHand(s, id)
    ensures Obeys(s, clock, e) && Ordinary(e) && !SameStatuses(s.tasks, Apply(s, e).tasks)
  {
    hide Inv;
    var l :| Holds(s, l) && s.leases[l].task == id;
    if l in s.outcomes {
      e := SaveOutcome(l);
      SettlingChanges(s, l);
    } else {
      var now := if s.leases[l].expires >= clock then s.leases[l].expires else clock;
      e := ExpireLease(l, now);
      ExpiryChanges(s, l, now);
    }
  }

  /** In every attended state that is not drained the agents can, in at most three steps, change a task. */
  lemma NeverStuck(s: State, clock: Instant, rank: map<Id, nat>) returns (steps: seq<Step>)
    requires Inv(s) && Supplied(s) && Ranked(s, rank) && Staffed(s) && Attended(s) && !Drained(s)
    ensures |steps| <= 3 && Timely(s, clock, steps) && AllOrdinary(steps) && !SameStatuses(s.tasks, Run(s, steps).tasks)
  {
    hide Inv, Supplied, Ranked, Staffed, Apply, Claimable, Blocked, InHand, Obeys, Timely, Run, Later, ClockAfter;
    if id :| id in s.tasks && s.tasks[id].status == Running {
      assert !Stranded(s, id);
      var e := RunningMovesOn(s, clock, id);
      steps := [e];
      TimelyOne(s, clock, e);
    } else {
      var q :| q in s.tasks && s.tasks[q].status !in {Completed, Failed, Cancelled};
      assert QueuedTask(s, q);
      var agent, id := QueueMovesOn(s, rank);
      if Blocked(s, id) {
        steps := CancelOne(s, clock, id);
      } else {
        steps := ClaimOne(s, clock, agent, id);
      }
    }
  }

  lemma ClaimOne(s: State, clock: Instant, agent: Id, id: Id) returns (steps: seq<Step>)
    requires Inv(s) && Claimable(s, agent, id)
    ensures |steps| == 1 && Timely(s, clock, steps) && AllOrdinary(steps) && !SameStatuses(s.tasks, Run(s, steps).tasks)
  {
    InvParts(s);
    hide Inv, Claimable, Apply, Timely, Run, ClockAfter, Tables, AttemptsInRange;
    var l := UnusedLease(s);
    var e := Claim(agent, id, l, clock);
    ClaimChanges(s, agent, id, l, clock);
    TimelyOne(s, clock, e);
    steps := [e];
  }

  // ---- so the queue drains ----

  /** Steps do not touch what a task is for, nor the agents, and they make no task claimable that was not. */
  ghost predicate SameWork(s: State, r: State) {
    && r.agents == s.agents && r.tasks.Keys == s.tasks.Keys
    && forall id :: id in s.tasks ==> SameTask(s.tasks[id], r.tasks[id])
  }

  ghost predicate SameTask(t: Task, u: Task) {
    u == t.(status := u.status, attempt := u.attempt, holder := u.holder) && (MayBeClaimed(u) ==> MayBeClaimed(t))
  }

  lemma MovesKeepTheWork(s: State, r: State)
    requires Moves(s, r)
    ensures SameWork(s, r)
  {
  }

  lemma {:induction false} RunsKeepTheWork(s: State, clock: Instant, steps: seq<Step>)
    requires Inv(s) && Timed(s, clock) && Timely(s, clock, steps) && AllOrdinary(steps)
    ensures SameWork(s, Run(s, steps))
  {
    hide Inv, Timed, Apply, Obeys, Later, MayBeClaimed, Moves;
    if steps != [] {
      var n := |steps| - 1;
      assert steps[n] in steps;
      RunsKeepTheWork(s, clock, steps[..n]);
      RunsKeep(s, clock, steps[..n]);
      StepMoves(Run(s, steps[..n]), ClockAfter(clock, steps[..n]), steps[n]);
      MovesKeepTheWork(Run(s, steps[..n]), Run(s, steps));
    }
  }

  lemma SamePlan(s: State, r: State, rank: map<Id, nat>)
    requires SameWork(s, r) && Supplied(s) && Ranked(s, rank)
    ensures Supplied(r) && Ranked(r, rank)
  {
    hide MayBeClaimed;
    forall id, d | id in r.tasks && d in r.tasks[id].deps
      ensures exists x :: x in r.tasks && Supplies(r.tasks, x, r.tasks[id], d)
    {
      var x :| x in s.tasks && Supplies(s.tasks, x, s.tasks[id], d);
      assert Supplies(r.tasks, x, r.tasks[id], d);
    }
    forall id, d, x | id in r.tasks && d in r.tasks[id].deps && x in r.tasks && Supplies(r.tasks, x, r.tasks[id], d)
      ensures rank[x] < rank[id]
    {
      assert Supplies(s.tasks, x, s.tasks[id], d);
    }
  }

  lemma SameStaff(s: State, r: State)
    requires SameWork(s, r) && Staffed(s)
    ensures Staffed(r)
  {
    hide MayBeClaimed;
    forall id | id in r.tasks && MayBeClaimed(r.tasks[id]) ensures Doable(r, r.tasks[id]) {
      assert Doable(s, s.tasks[id]);
    }
  }

  lemma SameLeasesSameHands(s: State, r: State, id: Id)
    requires r.leases == s.leases && r.outcomes == s.outcomes
    ensures InHand(r, id) == InHand(s, id)
  {
    assert forall l :: Holds(r, l) <==> Holds(s, l);
  }

  /** A change to one lease that holds or held no other task than `id`. */
  lemma OtherHands(s: State, r: State, l: Id, id: Id)
    requires l in s.leases && r.leases.Keys == s.leases.Keys && s.leases[l].task != id
    requires r.leases[l].task == s.leases[l].task && forall k :: k in s.leases && k != l ==>
      r.leases[k] == s.leases[k] && (k in r.outcomes <==> k in s.outcomes)
    ensures InHand(r, id) == InHand(s, id)
  {
    assert forall k :: k != l ==> (Holds(r, k) <==> Holds(s, k));
    if InHand(s, id) {
      var k :| Holds(s, k) && s.leases[k].task == id;
      assert Holds(r, k);
    }
  }

  /** Only a death strands a task, and a stranded task stays as it is. */
  lemma StepStrandsNone(s: State, clock: Instant, e: Step, id: Id)
    requires Inv(s) && Timed(s, clock) && Obeys(s, clock, e)
    ensures Stranded(s, id) ==> Stranded(Apply(s, e), id)
    ensures Stranded(Apply(s, e), id) && !e.Crash? ==> Stranded(s, id)
  {
    hide *;
    match e
    case ExpireLease(_, _) => LeaseStrandsNone(s, clock, e, id);
    case Release(_, _, _) => LeaseStrandsNone(s, clock, e, id);
    case SaveOutcome(_) => LeaseStrandsNone(s, clock, e, id);
    case Claim(_, _, _, _) => ClaimStrandsNone(s, e, id);
    case Crash(l) => if Stranded(s, id) { CrashFreesNone(s, l, id); }
    case _ => NoteStrandsNone(s, clock, e, id);
  }

  lemma CrashFreesNone(s: State, l: Id, id: Id)
    requires Stranded(s, id)
    ensures Stranded(Apply(s, Crash(l)), id)
  {
    assert forall k :: Holds(Apply(s, Crash(l)), k) ==> Holds(s, k);
  }

  lemma NoteStrandsNone(s: State, clock: Instant, e: Step, id: Id)
    requires Obeys(s, clock, e)
    requires e.Submit? || e.ReadRow? || e.JudgeRow? || e.CondemnRow? || e.SaveCancel? || e.Persist?
    ensures Stranded(s, id) <==> Stranded(Apply(s, e), id)
  {
    hide InHand, Rejects, RowOf;
    SameLeasesSameHands(s, Apply(s, e), id);
  }

  lemma ClaimStrandsNone(s: State, e: Step, id: Id)
    requires Inv(s) && e.Claim?
    ensures Stranded(s, id) <==> Stranded(Apply(s, e), id)
  {
    hide Inv, Claimable, Claimed, Stranded;
    if Claimable(s, e.agent, e.task) && e.newLease !in s.leases {
      ClaimableIsQueued(s, e.agent, e.task);
      ClaimedHands(s, e.agent, e.task, e.newLease, e.now, id);
    }
  }

  lemma ClaimedHands(s: State, agent: Id, task: Id, l: Id, now: Instant, id: Id)
    requires agent in s.agents && QueuedTask(s, task) && l !in s.leases
    ensures Stranded(s, id) <==> Stranded(Claimed(s, agent, task, l, now), id)
  {
    var r := Claimed(s, agent, task, l, now);
    assert Holds(r, l) && r.leases[l].task == task;
    assert forall k :: k != l ==> (Holds(r, k) <==> Holds(s, k)) && (Holds(s, k) ==> r.leases[k] == s.leases[k]);
    hide Holds, Claimed;
    if id != task { assert InHand(r, id) == InHand(s, id); }
  }

  lemma LeaseStrandsNone(s: State, clock: Instant, e: Step, id: Id)
    requires Inv(s) && Timed(s, clock) && Obeys(s, clock, e) && (e.ExpireLease? || e.Release? || e.SaveOutcome?)
    ensures Stranded(s, id) <==> Stranded(Apply(s, e), id)
  {
    hide *;
    if Apply(s, e) != s {
      LeaseIsHeld(s, clock, e);
      match e
      case ExpireLease(l, _) => ExpiryStrandsNone(s, l, id);
      case Release(l, success, _) => ReleaseStrandsNone(s, l, success, id);
      case SaveOutcome(l) => SettlingStrandsNone(s, l, id);
    }
  }

  lemma LeaseIsHeld(s: State, clock: Instant, e: Step)
    requires Inv(s) && Timed(s, clock) && Obeys(s, clock, e) && (e.ExpireLease? || e.Release? || e.SaveOutcome?)
    requires Apply(s, e) != s
    ensures Holds(s, e.lease) && (e.SaveOutcome? ==> e.lease in s.outcomes) && e.lease in s.leases
    ensures s.leases[e.lease].task in s.tasks && s.tasks[s.leases[e.lease].task].status == Running
    ensures match e
      case ExpireLease(l, _) => Apply(s, e) == Expired(s, l)
      case Release(l, success, _) => Apply(s, e) == Closed(s, l, success)
      case SaveOutcome(l) => Apply(s, e) == Settled(s, l)
      case _ => true
  {
    if e.Release? { LeaseIsActive(s, clock, e); }
    hide Inv, Timed, Expired, Closed, Rewritten;
    assert Holds(s, e.lease);
    HeldIsRunning(s, e.lease);
  }

  lemma ExpiryStrandsNone(s: State, l: Id, id: Id)
    requires Holds(s, l) && s.leases[l].task in s.tasks && s.tasks[s.leases[l].task].status == Running
    ensures Stranded(s, id) <==> Stranded(Expired(s, l), id)
  {
    hide InHand;
    HeldIsInHand(s, l);
    if s.leases[l].task != id { OtherHands(s, Expired(s, l), l, id); }
  }

  lemma SettlingStrandsNone(s: State, l: Id, id: Id)
    requires Holds(s, l) && s.leases[l].task in s.tasks && s.tasks[s.leases[l].task].status == Running
    requires l in s.outcomes
    ensures Stranded(s, id) <==> Stranded(Settled(s, l), id)
  {
    hide InHand;
    HeldIsInHand(s, l);
    if s.leases[l].task != id { OtherHands(s, Settled(s, l), l, id); }
  }

  lemma ReleaseStrandsNone(s: State, l: Id, success: bool, id: Id)
    requires Holds(s, l)
    ensures Stranded(s, id) <==> Stranded(Closed(s, l, success), id)
  {
    hide InHand;
    HeldIsInHand(s, l);
    HeldIsInHand(Closed(s, l, success), l);
    if s.leases[l].task != id { OtherHands(s, Closed(s, l, success), l, id); }
  }

  lemma HeldIsInHand(s: State, l: Id)
    requires Holds(s, l)
    ensures InHand(s, s.leases[l].task)
  {
  }

  lemma {:induction false} StrandedForGood(s: State, clock: Instant, steps: seq<Step>, id: Id)
    requires Inv(s) && Timed(s, clock) && Timely(s, clock, steps) && Stranded(s, id)
    ensures Stranded(Run(s, steps), id)
  {
    hide Inv, Timed, Apply, Obeys, Later, Stranded;
    if steps != [] {
      var n := |steps| - 1;
      StrandedForGood(s, clock, steps[..n], id);
      RunsKeep(s, clock, steps[..n]);
      StepStrandsNone(Run(s, steps[..n]), ClockAfter(clock, steps[..n]), steps[n], id);
    }
  }

  lemma {:induction false} RunsAttend(s: State, clock: Instant, steps: seq<Step>)
    requires Inv(s) && Timed(s, clock) && Timely(s, clock, steps) && AllOrdinary(steps) && Attended(s)
    ensures Attended(Run(s, steps))
  {
    hide Inv, Timed, Apply, Obeys, Later, Stranded;
    if steps != [] {
      var n := |steps| - 1;
      assert steps[n] in steps;
      RunsAttend(s, clock, steps[..n]);
      RunsKeep(s, clock, steps[..n]);
      forall id ensures !Stranded(Run(s, steps), id) {
        StepStrandsNone(Run(s, steps[..n]), ClockAfter(clock, steps[..n]), steps[n], id);
      }
    }
  }

  lemma ShortRunSpends(s: State, clock: Instant, steps: seq<Step>)
    requires Inv(s) && Timed(s, clock) && Timely(s, clock, steps) && AllOrdinary(steps)
    requires !SameStatuses(s.tasks, Run(s, steps).tasks)
    ensures Total(Run(s, steps)) < Total(s)
  {
    hide Inv, Timed, Run, Timely, Total, Effective;
    RunsAreBounded(s, clock, steps);
    ChangeIsEffective(s, steps);
  }

  /** From any attended state the queue can be drained, in no more steps than three times the tasks' total weight. */
  lemma {:induction false} QueueDrains(s: State, clock: Instant, rank: map<Id, nat>) returns (steps: seq<Step>)
    requires Inv(s) && Timed(s, clock) && Supplied(s) && Ranked(s, rank) && Staffed(s) && Attended(s)
    ensures Timely(s, clock, steps) && AllOrdinary(steps) && Drained(Run(s, steps)) && |steps| <= 3 * Total(s)
    decreases Total(s)
  {
    hide Inv, Timed, Supplied, Ranked, Staffed, Attended, Total, Drained, Timely, Run, ClockAfter, SameWork, Ordinary;
    TotalIsNatural(s);
    if Drained(s) {
      steps := [];
      NoSteps(s, clock);
    } else {
      var first := NeverStuck(s, clock, rank);
      ShortRunSpends(s, clock, first);
      RunsKeep(s, clock, first);
      RunsKeepTheWork(s, clock, first);
      SamePlan(s, Run(s, first), rank);
      SameStaff(s, Run(s, first));
      RunsAttend(s, clock, first);
      var rest := QueueDrains(Run(s, first), ClockAfter(clock, first), rank);
      steps := first + rest;
      RunBoth(s, first, rest);
      TimelyBoth(s, clock, first, rest);
    }
  }

  lemma RunningIsNotDrained(s: State, id: Id)
    requires Stranded(s, id)
    ensures !Drained(s)
  {
  }

  /**
   Liveness, exactly. The queue can be drained if and only if every running task has an active lease or an outcome still
   to be saved: what a process leaves running when it dies between the two saves of its end, nothing ever ends.
   */
  lemma DrainableExactly(s: State, clock: Instant, rank: map<Id, nat>)
    requires Inv(s) && Timed(s, clock) && Supplied(s) && Ranked(s, rank) && Staffed(s)
    ensures (exists steps :: Timely(s, clock, steps) && Drained(Run(s, steps))) <==> Attended(s)
  {
    hide Inv, Timed, Supplied, Ranked, Staffed, Drained, Timely, Run, Stranded;
    if Attended(s) {
      var steps := QueueDrains(s, clock, rank);
      assert Timely(s, clock, steps) && Drained(Run(s, steps));
    } else {
      var id :| Stranded(s, id);
      forall steps | Timely(s, clock, steps) ensures !Drained(Run(s, steps)) {
        StrandedForGood(s, clock, steps, id);
        RunningIsNotDrained(Run(s, steps), id);
      }
    }
  }

  /** A death at that point strands the task, in every state. */
  lemma DeathStrands(s: State, l: Id)
    requires Inv(s) && l in s.outcomes
    ensures l in s.leases && Stranded(Apply(s, Crash(l)), s.leases[l].task)
  {
    assert Holds(s, l);
    HeldIsRunning(s, l);
    hide Tables, DependenciesFirst, AttemptsInRange;
    assert forall k :: Holds(Apply(s, Crash(l)), k) ==> Holds(s, k) && k != l;
  }

  /** And no run brings it to an end: submissions, projections and deaths included, the task is running for ever. */
  lemma DeathIsForGood(s: State, clock: Instant, l: Id, steps: seq<Step>)
    requires Inv(s) && Timed(s, clock) && l in s.outcomes && Timely(Apply(s, Crash(l)), clock, steps)
    ensures l in s.leases
    ensures var id, r := s.leases[l].task, Run(Apply(s, Crash(l)), steps); id in r.tasks && r.tasks[id].status == Running
  {
    DeathStrands(s, l);
    StepKeeps(s, clock, Crash(l));
    hide Inv, Timed, Apply, Run, Timely, InHand;
    StrandedForGood(Apply(s, Crash(l)), clock, steps, s.leases[l].task);
  }
}
