/** A run within the assumptions after which either of two late saves breaks what they protect. */
module AgentTiming {
  import opened Basics
  import opened AgentState
  import opened AgentSafety
  import opened AgentRaces

  const WORKER := Agent({"x"}, {}, {}, 9, 60)

  /** A task without dependencies and one that waits for it. */
  function First(status: TaskStatus, attempt: int, holder: Option<Id>): Task {
    Task("o", "a", {}, "x", "e", {}, 0, 0, 10, attempt, 2, status, holder)
  }

  function Second(status: TaskStatus, holder: Option<Id>): Task {
    Task("o", "b", {"a"}, "x", "e", {}, 0, 0, 10, 1, 2, status, holder)
  }

  function Held(task: Id, attempt: int, status: LeaseStatus, at: Instant): Lease {
    Lease(task, "w", attempt, status, at, at + 60 * SECOND)
  }

  const ROW := Row("t", 1, true)
  const LATER: Instant := 60 * SECOND

  /** The operation has been cancelled, and a cancel pass has read and rejected the first task. */
  function Stage(first: Task, second: Task, leaseIds: seq<Id>, leases: map<Id, Lease>, outcomes: map<Id, bool>): State {
    State(
      map["w" := WORKER], ["t", "u"], map["t" := first, "u" := second], leaseIds, leases,
      map["o" := OperationCancelled], {ROW}, {ROW}, outcomes)
  }

  const START := Stage(First(Queued, 1, None), Second(Queued, None), [], map[], map[])
    .(operations := map[], rows := {}, doomed := {})
  const OVER := START.(operations := map["o" := OperationCancelled])
  const JUDGED := Stage(First(Queued, 1, None), Second(Queued, None), [], map[], map[])
  const HELD := Stage(
    First(Running, 1, Some("w")), Second(Queued, None), ["l"], map["l" := Held("t", 1, Active, 0)], map[])
  const LOST := Stage(First(Queued, 2, None), Second(Queued, None), ["l"], map["l" := Held("t", 1, LeaseExpired, 0)], map[])
  const AGAIN := Stage(
    First(Running, 2, Some("w")), Second(Queued, None), ["l", "m"],
    map["l" := Held("t", 1, LeaseExpired, 0), "m" := Held("t", 2, Active, LATER)], map[])
  const ENDED := Stage(
    First(Running, 2, Some("w")), Second(Queued, None), ["l", "m"],
    map["l" := Held("t", 1, LeaseExpired, 0), "m" := Held("t", 2, Released, LATER)], map["m" := true])
  const SAVED := Stage(
    First(Completed, 2, Some("w")), Second(Queued, None), ["l", "m"],
    map["l" := Held("t", 1, LeaseExpired, 0), "m" := Held("t", 2, Released, LATER)], map[])
  const RELIED := Stage(
    First(Completed, 2, Some("w")), Second(Running, Some("w")), ["l", "m", "n"],
    map["l" := Held("t", 1, LeaseExpired, 0), "m" := Held("t", 2, Released, LATER), "n" := Held("u", 1, Active, LATER)],
    map[])

  lemma RoomForMore(s: State)
    requires s.agents == map["w" := WORKER] && |s.leaseIds| <= 3
    ensures HasRoom(s, "w")
  {
    FilterLength(s.leaseIds, HeldBy(s, "w"));
  }

  lemma Judged()
    ensures Apply(START, Persist("o", OperationCancelled)) == OVER
    ensures Blocked(OVER, "t") && RowOf(OVER, "t") == ROW
    ensures OVER.(rows := OVER.rows + {ROW}, doomed := OVER.doomed + {ROW}) == JUDGED
  {
  }

  lemma FirstIsClaimable(s: State, attempt: int)
    requires s.agents == map["w" := WORKER] && |s.leaseIds| <= 3 && "t" in s.tasks
    requires s.tasks["t"] == First(Queued, attempt, None)
    ensures Claimable(s, "w", "t")
  {
    RoomForMore(s);
    hide HasRoom;
  }

  lemma FirstClaim()
    ensures Apply(JUDGED, Claim("w", "t", "l", 0)) == HELD
  {
    FirstIsClaimable(JUDGED, 1);
    hide Claimable;
  }

  lemma Expiry()
    ensures Apply(HELD, ExpireLease("l", LATER)) == LOST
  {
    assert Stale(HELD, "l", LATER);
  }

  lemma SecondClaim()
    ensures Apply(LOST, Claim("w", "t", "m", LATER)) == AGAIN
  {
    FirstIsClaimable(LOST, 2);
    hide Claimable;
  }

  lemma SecondEnd()
    ensures Apply(AGAIN, Release("m", true, LATER)) == ENDED
    ensures Apply(ENDED, SaveOutcome("m")) == SAVED
  {
  }

  lemma DependentsClaim()
    ensures Apply(SAVED, Claim("w", "u", "n", LATER)) == RELIED
  {
    RoomForMore(SAVED);
    hide HasRoom;
    assert Supplies(SAVED.tasks, "t", SAVED.tasks["u"], "a");
    assert DependencyDone(SAVED.tasks, SAVED.tasks["u"], "a");
    assert Claimable(SAVED, "w", "u");
  }

  lemma OneMore(s: State, steps: seq<Step>, clock: Instant, t: State, e: Step, r: State)
    requires Timely(s, 0, steps) && Run(s, steps) == t && ClockAfter(0, steps) == clock
    requires Obeys(t, clock, e) && Apply(t, e) == r
    ensures Timely(s, 0, steps + [e]) && Run(s, steps + [e]) == r && ClockAfter(0, steps + [e]) == Later(clock, e)
  {
    hide Apply, Obeys, Later;
    assert (steps + [e])[..|steps|] == steps;
  }

  lemma ReachJudged() returns (steps: seq<Step>)
    ensures Timely(START, 0, steps) && Run(START, steps) == JUDGED && ClockAfter(0, steps) == 0
  {
    hide Apply, Run, Timely, ClockAfter, Blocked;
    Judged();
    TimelyOne(START, 0, Persist("o", OperationCancelled));
    var begin, pass := [Persist("o", OperationCancelled)], [ReadRow("t"), JudgeRow(ROW)];
    BlockedRowIsDoomed(OVER, 0, "t");
    TimelyBoth(START, 0, begin, pass);
    RunBoth(START, begin, pass);
    steps := begin + pass;
  }

  lemma ReachRelied() returns (steps: seq<Step>)
    ensures Timely(START, 0, steps) && Run(START, steps) == RELIED
  {
    hide Apply, Run, Timely, ClockAfter;
    steps := ReachJudged();
    FirstClaim();
    OneMore(START, steps, 0, JUDGED, Claim("w", "t", "l", 0), HELD);
    steps := steps + [Claim("w", "t", "l", 0)];
    Expiry();
    OneMore(START, steps, 0, HELD, ExpireLease("l", LATER), LOST);
    steps := steps + [ExpireLease("l", LATER)];
    SecondClaim();
    OneMore(START, steps, LATER, LOST, Claim("w", "t", "m", LATER), AGAIN);
    steps := steps + [Claim("w", "t", "m", LATER)];
    SecondEnd();
    OneMore(START, steps, LATER, AGAIN, Release("m", true, LATER), ENDED);
    steps := steps + [Release("m", true, LATER)];
    OneMore(START, steps, LATER, ENDED, SaveOutcome("m"), SAVED);
    steps := steps + [SaveOutcome("m")];
    DependentsClaim();
    OneMore(START, steps, LATER, SAVED, Claim("w", "u", "n", LATER), RELIED);
    steps := steps + [Claim("w", "u", "n", LATER)];
  }

  lemma StartIsFresh()
    ensures Fresh(START)
  {
    assert Elements(START.taskIds) == START.tasks.Keys;
  }

  lemma SecondRelies()
    ensures ReliedUpon(RELIED, "t")
  {
    var t, u := RELIED.tasks["t"], RELIED.tasks["u"];
    assert WaitsFor(u, t) && Started(u);
    assert !DoneWithout(RELIED.tasks, u, t.action, "t");
  }

  /**
   The assumptions are needed. After one run that meets them, a dependent runs on the word of a task that a first
   execution lost and a second completed. The late end of the first then leaves the dependent on a failed dependency;
   the late save of a cancel pass that read the task before its first claim leaves it on a cancelled one.
   */
  lemma TimingIsNeeded()
    ensures exists s, steps, l, row ::
      && Fresh(s) && Timely(s, 0, steps) && l in Run(s, steps).leases && row in Run(s, steps).doomed
      && Run(s, steps).leases[l].status == LeaseExpired && !DependenciesFirst(Finished(Run(s, steps), l, false))
      && !DependenciesFirst(Apply(Run(s, steps), SaveCancel(row)))
  {
    hide Timely, Run, Fresh, Inv, DependenciesFirst, Finished, Timed, Apply, ReliedUpon;
    StartIsFresh();
    var steps := ReachRelied();
    FreshIsInv(START, 0);
    RunsKeep(START, 0, steps);
    SecondRelies();
    LateEndExactly(RELIED, "l", false);
    StaleCancelExactly(RELIED, ROW);
    assert "l" in Run(START, steps).leases && ROW in Run(START, steps).doomed;
  }
}
