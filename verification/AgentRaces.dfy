/** When exactly a save that comes too late keeps the invariants: a stale cancellation, or the end of a lost lease. */
module AgentRaces {
  import opened Basics
  import opened AgentState
  import opened AgentSafety

  /** Some other task than `id` has completed the action `d` that `t` waits for. */
  ghost predicate DoneWithout(tasks: map<Id, Task>, t: Task, d: Id, id: Id) {
    exists x :: x in tasks && x != id && Supplies(tasks, x, t, d) && tasks[x].status == Completed
  }

  /** Someone has started on the word of `id`, whose completion is the only one of its action. */
  ghost predicate ReliedUpon(s: State, id: Id)
    requires id in s.tasks
  {
    s.tasks[id].status == Completed
    && exists u :: u in s.tasks && u != id && Started(s.tasks[u]) && WaitsFor(s.tasks[u], s.tasks[id])
         && !DoneWithout(s.tasks, s.tasks[u], s.tasks[id].action, id)
  }

  predicate WaitsFor(u: Task, t: Task) { u.operation == t.operation && t.action in u.deps }

  /** Task `id` could be given the status without disturbing the order. */
  ghost predicate Fits(s: State, id: Id, status: TaskStatus)
    requires id in s.tasks
  {
    && (status in {Running, Completed, Failed} ==>
         forall d :: d in s.tasks[id].deps ==>
           DoneWithout(s.tasks, s.tasks[id], d, id) || (status == Completed && d == s.tasks[id].action))
    && (status != Completed ==> !ReliedUpon(s, id))
  }

  lemma DoneBySelfOrOther(tasks: map<Id, Task>, t: Task, d: Id, id: Id)
    requires id in tasks
    ensures DependencyDone(tasks, t, d) <==>
      DoneWithout(tasks, t, d, id) || (Supplies(tasks, id, t, d) && tasks[id].status == Completed)
  {
  }

  lemma OthersUnchanged(s: State, id: Id, status: TaskStatus, attempt: int, t: Task, d: Id)
    requires id in s.tasks
    ensures DoneWithout(Rewritten(s, id, status, attempt).tasks, t, d, id) <==> DoneWithout(s.tasks, t, d, id)
    ensures Supplies(Rewritten(s, id, status, attempt).tasks, id, t, d) <==> Supplies(s.tasks, id, t, d)
  {
    var r := Rewritten(s, id, status, attempt);
    assert forall x :: x in s.tasks && x != id ==> r.tasks[x] == s.tasks[x];
    if DoneWithout(s.tasks, t, d, id) {
      var x :| x in s.tasks && x != id && Supplies(s.tasks, x, t, d) && s.tasks[x].status == Completed;
      assert Supplies(r.tasks, x, t, d);
    }
    if DoneWithout(r.tasks, t, d, id) {
      var x :| x in r.tasks && x != id && Supplies(r.tasks, x, t, d) && r.tasks[x].status == Completed;
      assert Supplies(s.tasks, x, t, d);
    }
  }

  /** Whether a dependency is done after a rewrite. */
  lemma DoneAfter(s: State, id: Id, status: TaskStatus, attempt: int, t: Task, d: Id)
    requires id in s.tasks
    ensures DependencyDone(Rewritten(s, id, status, attempt).tasks, t, d) <==>
      DoneWithout(s.tasks, t, d, id) || (status == Completed && Supplies(s.tasks, id, t, d))
  {
    hide DependencyDone, DoneWithout;
    DoneBySelfOrOther(Rewritten(s, id, status, attempt).tasks, t, d, id);
    OthersUnchanged(s, id, status, attempt, t, d);
  }

  lemma InOrderFits(s: State, id: Id, status: TaskStatus, attempt: int)
    requires id in s.tasks && DependenciesFirst(Rewritten(s, id, status, attempt))
    ensures Fits(s, id, status)
  {
    hide DependencyDone, DoneWithout;
    var r, t := Rewritten(s, id, status, attempt), s.tasks[id];
    if status in {Running, Completed, Failed} {
      assert Started(r.tasks[id]);
      forall d | d in t.deps ensures DoneWithout(s.tasks, t, d, id) || (status == Completed && d == t.action) {
        assert DependencyDone(r.tasks, r.tasks[id], d);
        DoneAfter(s, id, status, attempt, r.tasks[id], d);
        SameQuestion(s.tasks, t, r.tasks[id], d, id);
      }
    }
    if status != Completed && ReliedUpon(s, id) {
      var u :| u in s.tasks && u != id && Started(s.tasks[u]) && WaitsFor(s.tasks[u], t)
        && !DoneWithout(s.tasks, s.tasks[u], t.action, id);
      assert r.tasks[u] == s.tasks[u];
      assert DependencyDone(r.tasks, s.tasks[u], t.action);
      DoneAfter(s, id, status, attempt, s.tasks[u], t.action);
    }
  }

  lemma SameQuestion(tasks: map<Id, Task>, x: Task, y: Task, d: Id, id: Id)
    requires x.operation == y.operation
    ensures DoneWithout(tasks, x, d, id) <==> DoneWithout(tasks, y, d, id)
  {
    assert forall k :: Supplies(tasks, k, x, d) <==> Supplies(tasks, k, y, d);
  }

  lemma FittingInOrder(s: State, id: Id, status: TaskStatus, attempt: int)
    requires DependenciesFirst(s) && id in s.tasks && Fits(s, id, status)
    ensures DependenciesFirst(Rewritten(s, id, status, attempt))
  {
    hide DependencyDone, DoneWithout;
    var r, t := Rewritten(s, id, status, attempt), s.tasks[id];
    forall x, d | x in r.tasks && Started(r.tasks[x]) && d in r.tasks[x].deps
      ensures DependencyDone(r.tasks, r.tasks[x], d)
    {
      DoneAfter(s, id, status, attempt, r.tasks[x], d);
      if x == id {
        SameQuestion(s.tasks, t, r.tasks[id], d, id);
      } else {
        assert DependencyDone(s.tasks, s.tasks[x], d);
        DoneBySelfOrOther(s.tasks, s.tasks[x], d, id);
      }
    }
  }

  /** The order of dependencies survives a rewrite of one task if and only if the new status fits. */
  lemma RewriteInOrder(s: State, id: Id, status: TaskStatus, attempt: int)
    requires DependenciesFirst(s) && id in s.tasks
    ensures DependenciesFirst(Rewritten(s, id, status, attempt)) <==> Fits(s, id, status)
  {
    hide DependenciesFirst, Fits;
    if Fits(s, id, status) { FittingInOrder(s, id, status, attempt); }
    if DependenciesFirst(Rewritten(s, id, status, attempt)) { InOrderFits(s, id, status, attempt); }
  }

  lemma CancelledInHand(s: State, id: Id, attempt: int)
    requires Exclusive(s) && id in s.tasks
    ensures Exclusive(Rewritten(s, id, Cancelled, attempt)) <==> !InHand(s, id)
  {
    var r := Rewritten(s, id, Cancelled, attempt);
    assert forall l :: Holds(r, l) <==> Holds(s, l);
    if InHand(s, id) {
      var l :| Holds(s, l) && s.leases[l].task == id;
      assert Holds(r, l) && r.tasks[id].status == Cancelled;
    }
  }

  /**
   A cancellation that is saved, whenever it is: nobody holds a cancelled task if and only if nobody had the task in
   hand; and the order of dependencies survives if and only if nobody had started on the task's completion alone.
   */
  lemma StaleCancelExactly(s: State, row: Row)
    requires Inv(s) && row in s.doomed
    ensures Exclusive(Apply(s, SaveCancel(row))) <==> !InHand(s, row.task)
    ensures row.task in s.tasks && (DependenciesFirst(Apply(s, SaveCancel(row))) <==> !ReliedUpon(s, row.task))
  {
    assert row.task in s.tasks;
    assert Apply(s, SaveCancel(row)) == Rewritten(s, row.task, Cancelled, row.attempt);
    hide Tables, AttemptsInRange, Exclusive, DependenciesFirst, Rewritten, InHand, ReliedUpon;
    CancelledInHand(s, row.task, row.attempt);
    RewriteInOrder(s, row.task, Cancelled, row.attempt);
  }

  lemma FinishedTasks(s: State, l: Id, success: bool)
    requires l in s.leases
    ensures Finished(s, l, success).tasks
      == Rewritten(s, s.leases[l].task, if success then Completed else Failed, s.leases[l].attempt).tasks
    ensures Finished(s, l, success).leases == Closed(s, l, success).leases
    ensures Finished(s, l, success).outcomes == s.outcomes - {l}
  {
  }

  lemma SameTasksInOrder(s: State, r: State)
    requires r.tasks == s.tasks
    ensures DependenciesFirst(r) <==> DependenciesFirst(s)
  {
  }

  ghost predicate HeldByAnother(s: State, l: Id)
    requires l in s.leases
  {
    exists k :: k != l && Holds(s, k) && s.leases[k].task == s.leases[l].task
  }

  lemma StillHeld(s: State, l: Id, success: bool)
    requires l in s.leases
    ensures forall k :: Holds(Finished(s, l, success), k) <==> Holds(s, k) && k != l
    ensures forall k :: k in s.leases ==>
      k in Finished(s, l, success).leases && Finished(s, l, success).leases[k].task == s.leases[k].task
      && Finished(s, l, success).leases[k].agent == s.leases[k].agent
      && (k != l ==> Finished(s, l, success).leases[k] == s.leases[k])
  {
  }

  lemma FinishedInHand(s: State, l: Id, success: bool)
    requires Exclusive(s) && l in s.leases && s.leases[l].task in s.tasks
    ensures Exclusive(Finished(s, l, success)) <==> !HeldByAnother(s, l)
  {
    FinishedTasks(s, l, success);
    StillHeld(s, l, success);
    hide Finished;
    var r := Finished(s, l, success);
    if HeldByAnother(s, l) {
      var k :| k != l && Holds(s, k) && s.leases[k].task == s.leases[l].task;
      assert Holds(r, k) && r.tasks[s.leases[k].task].status != Running;
    }
  }

  /**
   An execution that ends, whenever it does: its task is in nobody else's hands afterwards if and only if no other
   lease holds it before; and the order of dependencies survives if and only if the outcome fits.
   */
  lemma LateEndExactly(s: State, l: Id, success: bool)
    requires Inv(s) && l in s.leases
    ensures s.leases[l].task in s.tasks
    ensures Exclusive(Finished(s, l, success)) <==> !HeldByAnother(s, l)
    ensures DependenciesFirst(Finished(s, l, success)) <==> Fits(s, s.leases[l].task, if success then Completed else Failed)
  {
    assert s.leases[l].task in s.tasks;
    hide Tables, AttemptsInRange, Exclusive, DependenciesFirst, Rewritten, Finished, Fits;
    var id, status := s.leases[l].task, if success then Completed else Failed;
    FinishedInHand(s, l, success);
    FinishedTasks(s, l, success);
    SameTasksInOrder(Finished(s, l, success), Rewritten(s, id, status, s.leases[l].attempt));
    RewriteInOrder(s, id, status, s.leases[l].attempt);
  }

  // ---- the two saves of an end apart ----

  /** The books are in order but for the leases in `late`, whose executions have outlived them. */
  ghost predicate ExclusiveBut(s: State, late: set<Id>) {
    && (forall l :: l in s.outcomes ==> l in s.leases && s.leases[l].status == Released)
    && (forall l :: Holds(s, l) && l !in late && s.leases[l].task in s.tasks ==> RunsFor(s, l))
    && (forall l, k :: Holds(s, l) && Holds(s, k) && l != k && l !in late && k !in late ==>
         s.leases[l].task != s.leases[k].task)
  }

  /** The lease's task is running, by the lease's agent. */
  predicate RunsFor(s: State, l: Id)
    requires l in s.leases
  {
    var id := s.leases[l].task;
    id in s.tasks && s.tasks[id].status == Running && s.tasks[id].holder == Some(s.leases[l].agent)
  }

  ghost predicate HeldAlongside(s: State, late: set<Id>, l: Id)
    requires l in s.leases
  {
    exists k :: k != l && k !in late && Holds(s, k) && s.leases[k].task == s.leases[l].task
  }

  lemma NoneLate(s: State)
    ensures Exclusive(s) <==> ExclusiveBut(s, {})
  {
  }

  lemma NowHeld(s: State, l: Id, success: bool)
    requires l in s.leases
    ensures var r := Closed(s, l, success);
      && r.tasks == s.tasks && r.leases.Keys == s.leases.Keys && r.leases[l].status == Released
      && (forall k :: Holds(r, k) <==> Holds(s, k) || k == l)
      && (forall k :: k in r.outcomes <==> k in s.outcomes || k == l)
      && (forall k :: k in s.leases ==> r.leases[k].task == s.leases[k].task && r.leases[k].agent == s.leases[k].agent)
      && (forall k :: k in s.leases && k != l ==> r.leases[k] == s.leases[k])
  {
  }

  /**
   The first save of an end, whenever it is: it leaves the books in order if and only if the task is running by the
   lease's agent and nobody else holds it. Otherwise this lease joins the late ones. The tasks it does not touch.
   */
  lemma ReleaseExactly(s: State, late: set<Id>, l: Id, success: bool)
    requires Tables(s) && ExclusiveBut(s, late) && l in s.leases && l !in late
    ensures ExclusiveBut(Closed(s, l, success), late) <==> RunsFor(s, l) && !HeldAlongside(s, late, l)
    ensures ExclusiveBut(Closed(s, l, success), late + {l})
    ensures Closed(s, l, success).tasks == s.tasks
  {
    assert s.leases[l].task in s.tasks;
    hide *;
    ReleaseJoinsLate(s, late, l, success);
    NowHeld(s, l, success);
    if RunsFor(s, l) && !HeldAlongside(s, late, l) { ReleaseInOrder(s, late, l, success); }
    if ExclusiveBut(Closed(s, l, success), late) { OrderlyRelease(s, late, l, success); }
  }

  lemma ReleaseInOrder(s: State, late: set<Id>, l: Id, success: bool)
    requires ExclusiveBut(s, late) && l in s.leases && l !in late && RunsFor(s, l) && !HeldAlongside(s, late, l)
    ensures ExclusiveBut(Closed(s, l, success), late)
  {
    NowHeld(s, l, success);
    hide Closed, Holds;
  }

  lemma OrderlyRelease(s: State, late: set<Id>, l: Id, success: bool)
    requires l in s.leases && l !in late && s.leases[l].task in s.tasks && ExclusiveBut(Closed(s, l, success), late)
    ensures RunsFor(s, l) && !HeldAlongside(s, late, l)
  {
    NowHeld(s, l, success);
    hide Closed, Holds;
    var r := Closed(s, l, success);
    assert Holds(r, l) && RunsFor(r, l);
  }

  lemma ReleaseJoinsLate(s: State, late: set<Id>, l: Id, success: bool)
    requires ExclusiveBut(s, late) && l in s.leases && l !in late
    ensures ExclusiveBut(Closed(s, l, success), late + {l})
  {
    NowHeld(s, l, success);
    hide Closed;
  }

  lemma NoLongerHeld(s: State, l: Id)
    requires l in s.outcomes && l in s.leases && s.leases[l].status == Released
    ensures forall k :: Holds(Settled(s, l), k) <==> Holds(s, k) && k != l
    ensures Settled(s, l).leases == s.leases && Settled(s, l).outcomes == s.outcomes - {l}
    ensures Settled(s, l).tasks
      == Rewritten(s, s.leases[l].task, if s.outcomes[l] then Completed else Failed, s.leases[l].attempt).tasks
  {
  }

  /**
   The second save, whenever it is, and with any other late ends still to come: this lease leaves the late ones with the
   books in order if and only if nobody in order holds the task; and the order of dependencies survives if and only if
   the outcome fits.
   */
  lemma OutcomeExactly(s: State, late: set<Id>, l: Id)
    requires Tables(s) && ExclusiveBut(s, late) && DependenciesFirst(s) && l in s.outcomes
    ensures l in s.leases && s.leases[l].task in s.tasks
    ensures ExclusiveBut(Settled(s, l), late - {l}) <==> !HeldAlongside(s, late, l)
    ensures DependenciesFirst(Settled(s, l)) <==> Fits(s, s.leases[l].task, if s.outcomes[l] then Completed else Failed)
  {
    assert l in s.leases && s.leases[l].task in s.tasks && s.leases[l].status == Released;
    hide Tables, DependenciesFirst, Fits;
    OutcomeInHand(s, late, l);
    NoLongerHeld(s, l);
    hide ExclusiveBut, HeldAlongside, Settled, Rewritten;
    var id, status := s.leases[l].task, if s.outcomes[l] then Completed else Failed;
    SameTasksInOrder(Settled(s, l), Rewritten(s, id, status, s.leases[l].attempt));
    RewriteInOrder(s, id, status, s.leases[l].attempt);
  }

  lemma OutcomeInHand(s: State, late: set<Id>, l: Id)
    requires ExclusiveBut(s, late) && l in s.outcomes && l in s.leases && s.leases[l].task in s.tasks
    ensures ExclusiveBut(Settled(s, l), late - {l}) <==> !HeldAlongside(s, late, l)
  {
    NoLongerHeld(s, l);
    hide Settled;
    var r := Settled(s, l);
    if HeldAlongside(s, late, l) {
      var k :| k != l && k !in late && Holds(s, k) && s.leases[k].task == s.leases[l].task;
      assert Holds(r, k) && !RunsFor(r, k);
    }
  }

  // ---- which runs are safe ----

  /** Nothing is assumed of a run but that tasks are submitted as queued. */
  predicate Lawful(e: Step) { e.Submit? ==> e.newTask.status == Queued && e.newTask.attempt <= e.newTask.maxAttempts }

  predicate AllLawful(steps: seq<Step>) { forall e :: e in steps ==> Lawful(e) }

  /** What can go wrong: an end whose lease is lost, and a cancellation of what is held or relied upon. */
  ghost predicate Harmless(s: State, e: Step) {
    match e
    case Release(l, _, _) => l in s.leases ==> RunsFor(s, l) && !HeldByAnother(s, l)
    case SaveCancel(row) => row in s.doomed && row.task in s.tasks ==> !InHand(s, row.task) && !ReliedUpon(s, row.task)
    case _ => true
  }

  ghost predicate Safe(s: State) { Exclusive(s) && DependenciesFirst(s) }

  /** Safe at the start and after every step. */
  ghost predicate StaysSafe(s: State, steps: seq<Step>) {
    Safe(Run(s, steps)) && (steps == [] || StaysSafe(s, steps[..|steps| - 1]))
  }

  ghost predicate AllHarmless(s: State, steps: seq<Step>) {
    steps == []
    || (var n := |steps| - 1; AllHarmless(s, steps[..n]) && Harmless(Run(s, steps[..n]), steps[n]))
  }

  lemma ReleaseIsHarmless(s: State, l: Id, success: bool)
    requires Inv(s) && l in s.leases
    ensures Inv(Closed(s, l, success)) <==> RunsFor(s, l) && !HeldByAnother(s, l)
  {
    ReleaseBooks(s, l, success);
    NoneLate(s);
    NoneLate(Closed(s, l, success));
    SameTasksInOrder(s, Closed(s, l, success));
    hide Tables, Exclusive, DependenciesFirst, AttemptsInRange, ExclusiveBut, RunsFor, Closed;
    ReleaseExactly(s, {}, l, success);
  }

  lemma ReleaseBooks(s: State, l: Id, success: bool)
    requires Tables(s) && AttemptsInRange(s) && l in s.leases
    ensures Tables(Closed(s, l, success)) && AttemptsInRange(Closed(s, l, success))
    ensures Closed(s, l, success).tasks == s.tasks
  {
    hide Distinct, Elements;
  }

  lemma CancelBooks(s: State, row: Row)
    requires Tables(s) && AttemptsInRange(s) && row in s.doomed
    ensures var r := Apply(s, SaveCancel(row)); Tables(r) && AttemptsInRange(r)
  {
    hide Distinct, Elements;
    assert Apply(s, SaveCancel(row)).tasks.Keys == s.tasks.Keys;
  }

  lemma CancelIsHarmless(s: State, row: Row)
    requires Inv(s) && row in s.doomed
    ensures row.task in s.tasks
    ensures Inv(Apply(s, SaveCancel(row))) <==> !InHand(s, row.task) && !ReliedUpon(s, row.task)
  {
    StaleCancelExactly(s, row);
    CancelBooks(s, row);
    hide Tables, Exclusive, DependenciesFirst, AttemptsInRange, Apply, InHand, ReliedUpon;
  }

  lemma OtherStepsKeep(s: State, e: Step)
    requires Inv(s) && Lawful(e) && (e.Submit? || e.ExpireLease? || e.Claim?)
    ensures Inv(Apply(s, e))
  {
    hide Inv, Claimable, Claimed, Expired;
    match e
    case Submit(id, t) => if id !in s.tasks { SubmitKeeps(s, id, t); }
    case ExpireLease(l, now) => if Stale(s, l, now) { ExpireKeeps(s, l); }
    case Claim(agent, id, l, now) => if Claimable(s, agent, id) && l !in s.leases { ClaimKeeps(s, agent, id, l, now); }
  }

  /** At any time at all, a step keeps the invariants if and only if it is harmless. */
  lemma StepKeepsExactly(s: State, e: Step)
    requires Inv(s) && Lawful(e)
    ensures Inv(Apply(s, e)) <==> Harmless(s, e)
  {
    if e.Release? && e.lease !in s.leases { assert Apply(s, e) == s; }
    hide Inv, Closed, Rewritten, RunsFor, HeldByAnother, InHand, ReliedUpon;
    match e
    case Release(l, success, _) => if l in s.leases { ReleaseIsHarmless(s, l, success); }
    case SaveCancel(row) => if row in s.doomed { CancelIsHarmless(s, row); }
    case SaveOutcome(_) => EndKeeps(s, e);
    case Crash(_) => EndKeeps(s, e);
    case Submit(_, _) => OtherStepsKeep(s, e);
    case ExpireLease(_, _) => OtherStepsKeep(s, e);
    case Claim(_, _, _, _) => OtherStepsKeep(s, e);
    case _ => NoteKeeps(s, e);
  }

  lemma BooksAndSafety(s: State)
    requires Tables(s) && AttemptsInRange(s)
    ensures Inv(s) <==> Safe(s)
  {
    hide Tables, Exclusive, DependenciesFirst, AttemptsInRange;
  }

  lemma StepBooks(s: State, e: Step)
    requires Inv(s) && Lawful(e)
    ensures Inv(Apply(s, e)) <==> Safe(Apply(s, e))
  {
    hide Tables, Exclusive, DependenciesFirst, AttemptsInRange, Closed, Rewritten, HeldByAnother, ReliedUpon, InHand, Holds;
    if e.Release? && e.lease in s.leases {
      ReleaseBooks(s, e.lease, e.success);
      BooksAndSafety(Apply(s, e));
    } else if e.SaveCancel? && e.row in s.doomed {
      CancelBooks(s, e.row);
      BooksAndSafety(Apply(s, e));
    } else {
      StepKeepsExactly(s, e);
      hide Apply;
      assert Harmless(s, e);
    }
  }

  /**
   Safety over runs, without any assumption on time: nobody holds a task twice and dependencies come first, at the start
   and after every step, if and only if every end and every saved cancellation was harmless when it happened.
   */
  lemma {:induction false} SafeExactly(s: State, steps: seq<Step>)
    requires Inv(s) && AllLawful(steps)
    ensures StaysSafe(s, steps) <==> AllHarmless(s, steps)
    ensures StaysSafe(s, steps) ==> Inv(Run(s, steps))
  {
    hide Inv, Safe, Apply, Harmless, Lawful;
    if steps == [] {
      InvIsSafe(s);
    } else {
      var n := |steps| - 1;
      assert steps[n] in steps;
      SafeExactly(s, steps[..n]);
      if StaysSafe(s, steps[..n]) {
        StepKeepsExactly(Run(s, steps[..n]), steps[n]);
        StepBooks(Run(s, steps[..n]), steps[n]);
      }
    }
  }

  lemma InvIsSafe(s: State)
    requires Inv(s)
    ensures Safe(s)
  {
  }

  /** Runs in which ends and cancellations are timely are among them. */
  lemma {:induction false} TimelyIsHarmless(s: State, clock: Instant, steps: seq<Step>)
    requires Inv(s) && Timed(s, clock) && Timely(s, clock, steps)
    ensures AllLawful(steps) && AllHarmless(s, steps)
  {
    hide Inv, Timed, Apply, Harmless;
    if steps != [] {
      var n := |steps| - 1;
      TimelyIsHarmless(s, clock, steps[..n]);
      RunsKeep(s, clock, steps[..n]);
      StepKeeps(Run(s, steps[..n]), ClockAfter(clock, steps[..n]), steps[n]);
      StepKeepsExactly(Run(s, steps[..n]), steps[n]);
      assert steps == steps[..n] + [steps[n]];
    }
  }

  // ---- a run that goes wrong ----

  /** The read and the judgement of one row, with the claim that slips in before the save. */
  function Slip(s: State, agent: Id, id: Id, l: Id, now: Instant): seq<Step>
    requires id in s.tasks
  {
    [ReadRow(id), JudgeRow(RowOf(s, id)), Claim(agent, id, l, now)]
  }

  lemma BlockedRowIsDoomed(s: State, clock: Instant, id: Id)
    requires Blocked(s, id)
    ensures var row, steps := RowOf(s, id), [ReadRow(id), JudgeRow(RowOf(s, id))];
      Timely(s, clock, steps) && ClockAfter(clock, steps) == clock
      && Run(s, steps) == s.(rows := s.rows + {row}, doomed := s.doomed + {row})
  {
    hide DependencyLost, OperationOver, Run, Timely, ClockAfter;
    var row := RowOf(s, id);
    var read := Apply(s, ReadRow(id));
    TimelyOne(s, clock, ReadRow(id));
    TimelyOne(read, clock, JudgeRow(row));
    assert Rejects(read, row);
    assert [ReadRow(id)] + [JudgeRow(row)] == [ReadRow(id), JudgeRow(row)];
    TimelyBoth(s, clock, [ReadRow(id)], [JudgeRow(row)]);
    RunBoth(s, [ReadRow(id)], [JudgeRow(row)]);
  }

  lemma SameClaim(s: State, r: State, agent: Id, id: Id)
    requires r == s.(rows := r.rows, doomed := r.doomed)
    ensures Claimable(r, agent, id) <==> Claimable(s, agent, id)
  {
    FilterAlike(s.leaseIds, HeldBy(s, agent), HeldBy(r, agent));
  }

  lemma SlipRuns(s: State, clock: Instant, agent: Id, id: Id, l: Id)
    requires Blocked(s, id) && Claimable(s, agent, id) && l !in s.leases
    ensures var row, steps := RowOf(s, id), Slip(s, agent, id, l, clock);
      Timely(s, clock, steps)
      && Run(s, steps) == Claimed(s.(rows := s.rows + {row}, doomed := s.doomed + {row}), agent, id, l, clock)
  {
    var judged := [ReadRow(id), JudgeRow(RowOf(s, id))];
    BlockedRowIsDoomed(s, clock, id);
    var m := Run(s, judged);
    SameClaim(s, m, agent, id);
    hide Claimable, Run, Timely, ClockAfter, Blocked, OperationOver, Claimed;
    var e := Claim(agent, id, l, clock);
    TimelyOne(m, clock, e);
    assert judged + [e] == Slip(s, agent, id, l, clock);
    TimelyBoth(s, clock, judged, [e]);
    RunOne(s, judged, e);
  }

  /**
   In every state in which a task is up both for a claim and for cancellation, a claim that slips between the judgement
   and the save leaves an active lease on a cancelled task, though nothing but the save came too late.
   */
  lemma SlippedClaim(s: State, clock: Instant, agent: Id, id: Id, l: Id)
    requires Blocked(s, id) && Claimable(s, agent, id) && l !in s.leases
    ensures Timely(s, clock, Slip(s, agent, id, l, clock))
    ensures var r := Run(s, Slip(s, agent, id, l, clock) + [SaveCancel(RowOf(s, id))]);
      id in r.tasks && r.tasks[id].status == Cancelled && l in r.leases && r.leases[l].status == Active
      && r.leases[l].task == id && !Exclusive(r)
  {
    hide Claimable, Blocked, Run, Timely, Apply, Claimed, Exclusive, Slip, RowOf, DependenciesDone;
    SlipRuns(s, clock, agent, id, l);
    ClaimableIsQueued(s, agent, id);
    RunOne(s, Slip(s, agent, id, l, clock), SaveCancel(RowOf(s, id)));
    CancelledUnderLease(s, agent, id, l, clock);
  }

  lemma CancelledUnderLease(s: State, agent: Id, id: Id, l: Id, now: Instant)
    requires agent in s.agents && QueuedTask(s, id) && l !in s.leases
    ensures var row := RowOf(s, id);
      var m := Claimed(s.(rows := s.rows + {row}, doomed := s.doomed + {row}), agent, id, l, now);
      var r := Apply(m, SaveCancel(row));
      id in r.tasks && r.tasks[id].status == Cancelled && l in r.leases && r.leases[l].status == Active
      && r.leases[l].task == id && !Exclusive(r)
  {
    hide OperationOver;
    var row := RowOf(s, id);
    var r := Apply(Claimed(s.(rows := s.rows + {row}, doomed := s.doomed + {row}), agent, id, l, now), SaveCancel(row));
    assert Holds(r, l);
  }
}
