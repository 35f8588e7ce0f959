/** The executor agent's methods, each as one process runs it when no other comes between. */
module ExecutorAgent {
  import opened Basics
  import opened AgentState
  import opened AgentSafety
  import Sorting

  function ExpirySteps(rows: seq<Id>, now: Instant): seq<Step> {
    seq(|rows|, i requires 0 <= i < |rows| => ExpireLease(rows[i], now))
  }

  function ReadSteps(ids: seq<Id>): seq<Step> {
    if ids == [] then [] else ReadSteps(ids[..|ids| - 1]) + [ReadRow(ids[|ids| - 1])]
  }

  function CondemnSteps(ids: seq<Id>): seq<Step> {
    if ids == [] then [] else CondemnSteps(ids[..|ids| - 1]) + [CondemnRow(ids[|ids| - 1])]
  }

  function SaveSteps(rows: seq<Row>): seq<Step> {
    if rows == [] then [] else SaveSteps(rows[..|rows| - 1]) + [SaveCancel(rows[|rows| - 1])]
  }

  predicate AllQueued(s: State, ids: seq<Id>) { forall id :: id in ids ==> QueuedTask(s, id) }

  function AsSet(rows: seq<Row>): set<Row> { set r | r in rows }

  function RowsOf(s: State, ids: seq<Id>): (r: seq<Row>)
    requires AllQueued(s, ids)
    ensures |r| == |ids| && forall k :: 0 <= k < |ids| ==> QueuedTask(s, ids[k]) && r[k] == RowOf(s, ids[k])
  {
    if ids == [] then []
    else
      assert ids[|ids| - 1] in ids;
      RowsOf(s, ids[..|ids| - 1]) + [RowOf(s, ids[|ids| - 1])]
  }

  /** Each row is judged by what the ones before it have become. */
  function Verdict(s: State, row: Row): seq<Step> { [JudgeRow(row)] + if Rejects(s, row) then [SaveCancel(row)] else [] }

  function PassSteps(s: State, rows: seq<Row>): seq<Step> {
    if rows == [] then []
    else
      var before := PassSteps(s, rows[..|rows| - 1]);
      before + Verdict(Run(s, before), rows[|rows| - 1])
  }

  function QueuedIds(s: State): (r: seq<Id>)
    ensures AllQueued(s, r)
  {
    FilterMembers(s.taskIds, QueuedRow(s, {}));
    Filter(s.taskIds, QueuedRow(s, {}))
  }

  /** The steps of a whole pass: all the rows are read, then each is judged and saved. */
  function CancelPass(s: State): seq<Step> {
    ReadSteps(QueuedIds(s)) + PassSteps(Run(s, ReadSteps(QueuedIds(s))), RowsOf(s, QueuedIds(s)))
  }

  function PendingIds(s: State, operation: Id): (r: seq<Id>)
    ensures AllQueued(s, r)
  {
    var pending := (id: Id) => QueuedTask(s, id) && s.tasks[id].operation == operation;
    FilterMembers(s.taskIds, pending);
    Filter(s.taskIds, pending)
  }

  /** The steps of a reconciliation: the pending rows of a failed operation are read and saved, then the operation. */
  function ReconcileSteps(s: State, operation: Id, outcome: OperationStatus): seq<Step> {
    (if outcome == OperationFailed then
       CondemnSteps(PendingIds(s, operation)) + SaveSteps(RowsOf(s, PendingIds(s, operation)))
     else [])
    + [Persist(operation, outcome)]
  }

  /** The rows a query with `skip_locked` gets to see. */
  function StaleRow(s: State, locked: set<Id>, now: Instant): Id -> bool { (l: Id) => l !in locked && Stale(s, l, now) }

  function QueuedRow(s: State, locked: set<Id>): Id -> bool {
    (id: Id) => id !in locked && id in s.tasks && s.tasks[id].status == Queued
  }

  /** `ORDER BY -priority, created_at` */
  function ClaimOrder(s: State): (Id, Id) -> bool {
    (a: Id, b: Id) =>
      if a in s.tasks && b in s.tasks then
        s.tasks[a].priority > s.tasks[b].priority
        || (s.tasks[a].priority == s.tasks[b].priority && s.tasks[a].created <= s.tasks[b].created)
      else a in s.tasks || b !in s.tasks
  }

  lemma ClaimOrderIsOrder(s: State)
    ensures Sorting.Order(ClaimOrder(s))
  {
  }

  /** The queued tasks a claim looks at, in the order in which it does. */
  function Candidates(s: State, locked: set<Id>): seq<Id> {
    Sorting.Sort(Filter(s.taskIds, QueuedRow(s, locked)), ClaimOrder(s))
  }

  lemma CandidatesAreQueued(s: State, locked: set<Id>)
    requires Tables(s)
    ensures forall id :: id in Candidates(s, locked) <==> id !in locked && id in s.tasks && s.tasks[id].status == Queued
    ensures Sorting.Ascending(Candidates(s, locked), ClaimOrder(s))
  {
    var rows := Filter(s.taskIds, QueuedRow(s, locked));
    FilterMembers(s.taskIds, QueuedRow(s, locked));
    ClaimOrderIsOrder(s);
    Sorting.SortKeeps(rows, ClaimOrder(s));
    Sorting.SortAscends(rows, ClaimOrder(s));
    assert forall id :: id in s.tasks ==> id in Elements(s.taskIds);
  }

  /** The operations whose tasks these leases are for. */
  function OperationsOf(s: State, rows: seq<Id>): set<Id> {
    if rows == [] then {}
    else
      var last := rows[|rows| - 1];
      OperationsOf(s, rows[..|rows| - 1])
      + if last in s.leases && s.leases[last].task in s.tasks then {s.tasks[s.leases[last].task].operation} else {}
  }

  ghost predicate SameWork(s: State, r: State) {
    && r.tasks.Keys == s.tasks.Keys && r.leases.Keys == s.leases.Keys
    && (forall id :: id in s.tasks ==> r.tasks[id].operation == s.tasks[id].operation)
    && (forall l :: l in s.leases ==> r.leases[l].task == s.leases[l].task)
  }

  lemma NothingYet(s: State, rows: seq<Id>, now: Instant)
    ensures OperationsOf(s, rows[..0]) == {} && SameWork(s, s) && Run(s, ExpirySteps(rows, now)[..0]) == s
  {
  }

  lemma OneMoreRow(s: State, ids: seq<Id>)
    requires ids != [] && AllQueued(s, ids)
    ensures var n := |ids| - 1;
      && AllQueued(s, ids[..n]) && QueuedTask(s, ids[n])
      && AsSet(RowsOf(s, ids)) == AsSet(RowsOf(s, ids[..n])) + {RowOf(s, ids[n])}
  {
    hide RowOf, QueuedTask;
    assert ids[|ids| - 1] in ids;
  }

  lemma {:induction false} ReadingRows(s: State, ids: seq<Id>)
    requires AllQueued(s, ids)
    ensures Run(s, ReadSteps(ids)) == s.(rows := s.rows + AsSet(RowsOf(s, ids)))
  {
    hide RowOf, Run;
    if ids == [] {
      NoSteps(s, 0);
      assert s.rows + AsSet(RowsOf(s, ids)) == s.rows;
    } else {
      var n := |ids| - 1;
      OneMoreRow(s, ids);
      hide RowsOf, AsSet, AllQueued;
      ReadingRows(s, ids[..n]);
      RunOne(s, ReadSteps(ids[..n]), ReadRow(ids[n]));
      SameRow(s, Run(s, ReadSteps(ids[..n])), ids[n]);
    }
  }

  lemma {:induction false} CondemningRows(s: State, ids: seq<Id>)
    requires AllQueued(s, ids)
    ensures Run(s, CondemnSteps(ids)) == s.(doomed := s.doomed + AsSet(RowsOf(s, ids)))
  {
    hide RowOf, Run;
    if ids == [] {
      NoSteps(s, 0);
      assert s.doomed + AsSet(RowsOf(s, ids)) == s.doomed;
    } else {
      var n := |ids| - 1;
      OneMoreRow(s, ids);
      hide RowsOf, AsSet, AllQueued;
      CondemningRows(s, ids[..n]);
      RunOne(s, CondemnSteps(ids[..n]), CondemnRow(ids[n]));
      SameRow(s, Run(s, CondemnSteps(ids[..n])), ids[n]);
    }
  }

  lemma SameRow(s: State, r: State, id: Id)
    requires r.tasks == s.tasks && r.operations == s.operations && id in s.tasks
    ensures RowOf(r, id) == RowOf(s, id)
  {
  }

  lemma FreshRowsKeep(s: State, ids: seq<Id>)
    requires Inv(s) && AllQueued(s, ids)
    ensures Inv(s.(rows := s.rows + AsSet(RowsOf(s, ids))))
    ensures Inv(s.(doomed := s.doomed + AsSet(RowsOf(s, ids))))
  {
    hide Inv, OperationOver;
    assert forall r :: r in RowsOf(s, ids) ==> r.task in s.tasks && r.attempt == s.tasks[r.task].attempt;
    hide RowsOf;
    NotesKeep(s, s.(rows := s.rows + AsSet(RowsOf(s, ids))));
    NotesKeep(s, s.(doomed := s.doomed + AsSet(RowsOf(s, ids))));
  }

  /** What judging a queued row that has been read, and saving it, comes to. */
  lemma VerdictRuns(s: State, row: Row)
    requires Inv(s) && row in s.rows && QueuedTask(s, row.task)
    ensures var r := Run(s, Verdict(s, row));
      Inv(r) && r == if Rejects(s, row) then
        Rewritten(s, row.task, Cancelled, row.attempt).(doomed := s.doomed + {row}) else s
  {
    hide Inv, Rejects, Run;
    var judged := Apply(s, JudgeRow(row));
    NoteKeeps(s, JudgeRow(row));
    RunOne(s, [], JudgeRow(row));
    NoSteps(s, 0);
    assert [] + [JudgeRow(row)] == [JudgeRow(row)];
    if Rejects(s, row) {
      CancelKeeps(judged, row);
      RunOne(s, [JudgeRow(row)], SaveCancel(row));
    } else {
      assert Verdict(s, row) == [JudgeRow(row)];
    }
  }

  lemma OneMoreVerdict(s: State, rows: seq<Row>, i: nat)
    requires i < |rows|
    ensures Run(s, PassSteps(s, rows[..i + 1]))
      == Run(Run(s, PassSteps(s, rows[..i])), Verdict(Run(s, PassSteps(s, rows[..i])), rows[i]))
  {
    hide Run;
    assert rows[..i + 1][..i] == rows[..i];
    var before := PassSteps(s, rows[..i]);
    RunBoth(s, before, Verdict(Run(s, before), rows[i]));
  }

  lemma OneMoreOperation(before: State, s: State, rows: seq<Id>, i: nat)
    requires i < |rows| && rows[i] in s.leases && s.leases[rows[i]].task in s.tasks && SameWork(before, s)
    ensures OperationsOf(before, rows[..i + 1])
      == OperationsOf(before, rows[..i]) + {s.tasks[s.leases[rows[i]].task].operation}
    ensures SameWork(before, Expired(s, rows[i]))
  {
    assert rows[..i + 1][..i] == rows[..i];
  }

  class ExecutorAgents {
    var agents: map<Id, Agent>
    var taskIds: seq<Id>
    var tasks: map<Id, Task>
    var leaseIds: seq<Id>
    var leases: map<Id, Lease>
    var operations: map<Id, OperationStatus>
    var rows: set<Row>
    var doomed: set<Row>
    var outcomes: map<Id, bool>

    function Snapshot(): State
      reads this
    {
      State(agents, taskIds, tasks, leaseIds, leases, operations, rows, doomed, outcomes)
    }

    ghost predicate Valid()
      reads this
    {
      Inv(Snapshot())
    }

    constructor (s: State)
      requires Inv(s)
      ensures Snapshot() == s && Valid()
    {
      agents, taskIds, tasks, leaseIds, leases, operations, rows, doomed, outcomes :=
        s.agents, s.taskIds, s.tasks, s.leaseIds, s.leases, s.operations, s.rows, s.doomed, s.outcomes;
    }

    /** `_expire_stale_leases`, up to the reconciliations at its end. */
    method ExpireStaleLeases(locked: set<Id>, now: Instant) returns (affected: set<Id>)
      requires Valid()
      modifies this
      ensures Valid()
      ensures Snapshot() ==
        Run(old(Snapshot()), ExpirySteps(Filter(old(leaseIds), StaleRow(old(Snapshot()), locked, now)), now))
      ensures affected == OperationsOf(old(Snapshot()), Filter(old(leaseIds), StaleRow(old(Snapshot()), locked, now)))
    {
      hide Inv, Stale, OperationsOf, SameWork, Run, Requeued, Apply;
      ghost var before := Snapshot();
      var stale := Filter(leaseIds, StaleRow(Snapshot(), locked, now));
      NothingYet(before, stale, now);
      StaleRowsAreStale(before, locked, now);
      affected := {};
      for i := 0 to |stale|
        invariant Valid() && Snapshot() == Run(before, ExpirySteps(stale, now)[..i])
        invariant forall k :: i <= k < |stale| ==> Stale(Snapshot(), stale[k], now)
        invariant affected == OperationsOf(before, stale[..i]) && SameWork(before, Snapshot())
      {
        ghost var s := Snapshot();
        var l := stale[i];
        assert Stale(s, l, now);
        StaleIsActive(s, l, now);
        assert Holds(s, l);
        HeldIsRunning(s, l);
        OneMoreOperation(before, s, stale, i);
        ExpireKeeps(s, l);
        var id := leases[l].task;
        leases := leases[l := leases[l].(status := LeaseExpired)];
        affected := affected + {tasks[id].operation};
        tasks := tasks[id := Requeued(tasks[id])];
        RunOne(before, ExpirySteps(stale, now)[..i], ExpireLease(l, now));
        assert ExpirySteps(stale, now)[..i + 1] == ExpirySteps(stale, now)[..i] + [ExpireLease(l, now)];
        forall k | i + 1 <= k < |stale| ensures Stale(Snapshot(), stale[k], now) {
          OthersStayStale(s, l, stale[k], now);
        }
      }
      assert ExpirySteps(stale, now)[..|stale|] == ExpirySteps(stale, now) && stale[..|stale|] == stale;
    }

    /**
     `_cancel_blocked_tasks`: the queued rows and their operations are read by one query, then each row is judged by what
     the ones before it have become, and saved as it was read. Without interruption only queued tasks are cancelled, and
     none of an operation that is over is left.
     */
    method CancelBlockedTasks()
      requires Valid()
      modifies this
      ensures Valid() && leaseIds == old(leaseIds) && leases == old(leases) && agents == old(agents)
      ensures Snapshot() == Run(old(Snapshot()), CancelPass(old(Snapshot())))
      ensures OnlyCancelled(old(tasks), tasks)
      ensures forall id :: id in tasks && tasks[id].status == Queued ==> !OperationOver(Snapshot(), tasks[id])
    {
      hide Inv, DependencyLost, Run, PassSteps, Passing, Passed, CancelPass, OperationOver, OnlyCancelled, RowsOf, AsSet;
      hide QueuedIds, AllQueued;
      ghost var before := Snapshot();
      var ids := QueuedIds(Snapshot());
      var read := RowsOf(Snapshot(), ids);
      rows := rows + AsSet(read);
      ghost var s := Snapshot();
      PassBegins(before);
      for i := 0 to |read|
        invariant Snapshot() == s.(tasks := tasks, doomed := doomed)
        invariant Passing(s, read, Snapshot(), i) && Passed(before, read, Snapshot(), i)
      {
        ghost var m := Snapshot();
        var row := read[i];
        PassRuns(before, s, read, m, i);
        PassGoesOn(before, read, m, i);
        if row.over || DependencyLost(tasks, tasks[row.task]) {
          doomed := doomed + {row};
          tasks := tasks[row.task := tasks[row.task].(status := Cancelled, attempt := row.attempt)];
        }
      }
      PassEnds(before, Snapshot());
    }

    /** The claiming transaction of `_process_one`: the first queued task, by priority and age, that matches. */
    method ClaimNext(agent: Id, locked: set<Id>, leaseId: Id, now: Instant) returns (claimed: Option<Id>)
      requires HasRoom(Snapshot(), agent) && leaseId !in leases && Valid()
      modifies this
      ensures match claimed
        case None => Snapshot() == old(Snapshot()) && NoClaim(old(Snapshot()), agent, locked)
        case Some(id) =>
          FirstClaim(old(Snapshot()), agent, locked, id) && Snapshot() == Apply(old(Snapshot()), Claim(agent, id, leaseId, now))
      ensures Valid()
    {
      hide Inv, Matches, ClaimOrder, Candidates, Claimable, NoClaim, FirstClaim;
      ghost var before := Snapshot();
      var queue := Candidates(Snapshot(), locked);
      CandidatesAreCandidates(before, locked);
      for i := 0 to |queue|
        invariant Snapshot() == before
        invariant forall k :: 0 <= k < i ==> !Claimable(before, agent, queue[k])
      {
        var id := queue[i];
        ClaimableRow(before, agent, locked, i);
        if Matches(Snapshot(), agents[agent], tasks[id]) {
          ClaimIsFirst(before, agent, locked, i);
          ClaimKeeps(before, agent, id, leaseId, now);
          var task := tasks[id];
          leaseIds := leaseIds + [leaseId];
          leases := leases[leaseId :=
            Lease(id, agent, task.attempt, Active, now, now + Ttl(agents[agent], task) * SECOND)];
          tasks := tasks[id := task.(status := Running, holder := Some(agent))];
          return Some(id);
        }
      }
      NothingToClaim(before, agent, locked);
      claimed := None;
    }

    /** `_process_one` up to the execution: nothing at capacity, otherwise a cancel pass and a claim. */
    method ProcessOne(agent: Id, locked: set<Id>, leaseId: Id, now: Instant) returns (claimed: Option<Id>)
      requires Valid() && agent in agents && leaseId !in leases
      modifies this
      ensures Valid()
      ensures !HasRoom(old(Snapshot()), agent) ==> Snapshot() == old(Snapshot()) && claimed == None
      ensures HasRoom(old(Snapshot()), agent) ==>
        var middle := Run(old(Snapshot()), CancelPass(old(Snapshot())));
        match claimed
        case None => Snapshot() == middle && NoClaim(middle, agent, locked)
        case Some(id) =>
          FirstClaim(middle, agent, locked, id) && Snapshot() == Apply(middle, Claim(agent, id, leaseId, now))
    {
      hide Inv, Filter, Claimable, Apply, CancelPass, OnlyCancelled, NoClaim, FirstClaim, ActiveCount;
      if ActiveCount(Snapshot(), agent) >= agents[agent].maxConcurrency {
        return None;
      }
      ghost var before := Snapshot();
      CancelBlockedTasks();
      SameLeasesSameCount(before, Snapshot(), agent);
      claimed := ClaimNext(agent, locked, leaseId, now);
    }

    /** The end of `_execute`: lease and task are saved as they were read at the claim, plus the outcome. */
    method FinishExecution(leaseId: Id, success: bool, now: Instant)
      requires Valid() && leaseId in leases
      modifies this
      ensures Snapshot() == Run(old(Snapshot()), [Release(leaseId, success, now), SaveOutcome(leaseId)])
      ensures Snapshot() == Finished(old(Snapshot()), leaseId, success)
      ensures old(leases)[leaseId].status == Active ==> Valid()
    {
      hide Inv, Run;
      ghost var before := Snapshot();
      TaskIsKnown(before, leaseId);
      TwoSaves(before, leaseId, success, now);
      var lease := leases[leaseId];
      leases := leases[leaseId := lease.(status := Released)];
      outcomes := outcomes[leaseId := success];
      tasks := tasks[lease.task :=
        tasks[lease.task].(status := if success then Completed else Failed, attempt := lease.attempt)];
      outcomes := outcomes - {leaseId};
    }

    /** What `_reconcile_operation` does to tasks and operation, given the status that the projection arrived at. */
    method ReconcileOperation(operation: Id, outcome: OperationStatus)
      requires Valid()
      modifies this
      ensures Valid() && Snapshot() == Run(old(Snapshot()), ReconcileSteps(old(Snapshot()), operation, outcome))
      ensures tasks == if outcome == OperationFailed then Dropped(old(tasks), operation) else old(tasks)
    {
      hide Inv, Run, OperationOver, Saving, Saved, RowsOf, AsSet, Dropped, ReconcileSteps;
      ghost var before := Snapshot();
      NoSteps(before, 0);
      if outcome == OperationFailed {
        var ids := PendingIds(Snapshot(), operation);
        var read := RowsOf(Snapshot(), ids);
        doomed := doomed + AsSet(read);
        ghost var s := Snapshot();
        SavesBegin(before, operation);
        for i := 0 to |read|
          invariant Snapshot() == s.(tasks := tasks)
          invariant Saving(s, read, Snapshot(), i) && Saved(before, read, Snapshot(), i)
        {
          var row := read[i];
          SavesGoOn(before, s, read, Snapshot(), i);
          tasks := tasks[row.task := tasks[row.task].(status := Cancelled, attempt := row.attempt)];
        }
        SavesEnd(before, Snapshot(), operation);
      }
      PersistLast(before, Snapshot(), operation, outcome);
      operations := operations[operation := outcome];
    }
  }

  /** Some queued tasks have become cancelled, and nothing else has changed. */
  ghost predicate OnlyCancelled(a: map<Id, Task>, b: map<Id, Task>) {
    b.Keys == a.Keys && forall id :: id in a ==>
      b[id] == a[id] || (a[id].status == Queued && b[id] == a[id].(status := Cancelled))
  }

  function Dropped(tasks: map<Id, Task>, operation: Id): map<Id, Task> {
    map id | id in tasks ::
      if tasks[id].operation == operation && tasks[id].status == Queued then tasks[id].(status := Cancelled) else tasks[id]
  }

  /** A pass that started from `s`, with the rows read, has dealt with the first `i`. */
  ghost predicate Passing(s: State, read: seq<Row>, now: State, i: nat) {
    i <= |read| && AsSet(read) <= s.rows && now == s.(tasks := now.tasks, doomed := now.doomed)
    && now == Run(s, PassSteps(s, read[..i])) && Inv(now)
  }

  /** What it has made of the tasks. */
  ghost predicate Passed(before: State, read: seq<Row>, now: State, i: nat) {
    && OnlyCancelled(before.tasks, now.tasks) && AllRead(before, read)
    && (forall k :: i <= k < |read| ==> QueuedTask(now, read[k].task))
    && (forall k :: 0 <= k < i && k < |read| ==> QueuedTask(now, read[k].task) ==> !read[k].over)
  }

  /** Every row was read as the task was, and no task twice. */
  ghost predicate AllRead(before: State, read: seq<Row>) {
    && (forall k :: 0 <= k < |read| ==>
         QueuedTask(before, read[k].task) && read[k].attempt == before.tasks[read[k].task].attempt)
    && (forall j, k :: 0 <= j < k < |read| ==> read[j].task != read[k].task)
  }

  lemma RowsAreRead(s: State, ids: seq<Id>)
    requires AllQueued(s, ids) && Distinct(ids)
    ensures AllRead(s, RowsOf(s, ids))
  {
    hide OperationOver;
  }

  lemma PassingFrom(s: State, read: seq<Row>)
    requires Inv(s) && AsSet(read) <= s.rows
    ensures Passing(s, read, s, 0)
  {
    hide Inv, AsSet, Run;
    NoSteps(s, 0);
  }

  lemma PassedFrom(before: State, read: seq<Row>, now: State)
    requires AllRead(before, read) && now.tasks == before.tasks
    ensures Passed(before, read, now, 0)
  {
  }

  lemma PassBegins(before: State)
    requires Inv(before)
    ensures var read := RowsOf(before, QueuedIds(before));
      var s := before.(rows := before.rows + AsSet(read)); Passing(s, read, s, 0) && Passed(before, read, s, 0)
  {
    hide *;
    var ids := QueuedIds(before);
    QueuedRowsAreQueued(before);
    FreshRowsKeep(before, ids);
    RowsAreRead(before, ids);
    var read := RowsOf(before, ids);
    PassingFrom(before.(rows := before.rows + AsSet(read)), read);
    PassedFrom(before, read, before.(rows := before.rows + AsSet(read)));
  }

  function AfterVerdict(now: State, row: Row): State {
    if Rejects(now, row) then Rewritten(now, row.task, Cancelled, row.attempt).(doomed := now.doomed + {row}) else now
  }

  lemma PassRuns(before: State, s: State, read: seq<Row>, now: State, i: nat)
    requires Passing(s, read, now, i) && Passed(before, read, now, i) && i < |read|
    ensures Passing(s, read, AfterVerdict(now, read[i]), i + 1)
  {
    assert read[i] in AsSet(read);
    hide Passed, AllRead, OnlyCancelled;
    assert QueuedTask(now, read[i].task) by { QueuedNext(before, read, now, i); }
    OneMoreVerdict(s, read, i);
    VerdictRuns(now, read[i]);
    hide Inv, Run, PassSteps, Rejects, AsSet, Verdict;
  }

  lemma QueuedNext(before: State, read: seq<Row>, now: State, i: nat)
    requires Passed(before, read, now, i) && i < |read|
    ensures QueuedTask(now, read[i].task)
  {
  }

  lemma CancelledNext(before: State, read: seq<Row>, now: State, i: nat, next: State)
    requires Passed(before, read, now, i) && i < |read| && QueuedTask(now, read[i].task)
    requires next.tasks == now.tasks[read[i].task := now.tasks[read[i].task].(status := Cancelled, attempt := read[i].attempt)]
    ensures Passed(before, read, next, i + 1)
  {
    assert now.tasks[read[i].task] == before.tasks[read[i].task];
  }

  lemma KeptNext(before: State, read: seq<Row>, now: State, i: nat)
    requires Passed(before, read, now, i) && i < |read| && !read[i].over
    ensures Passed(before, read, now, i + 1)
  {
  }

  lemma PassGoesOn(before: State, read: seq<Row>, now: State, i: nat)
    requires Passed(before, read, now, i) && i < |read|
    ensures QueuedTask(now, read[i].task) && Passed(before, read, AfterVerdict(now, read[i]), i + 1)
  {
    QueuedNext(before, read, now, i);
    hide DependencyLost, Passed;
    if Rejects(now, read[i]) {
      CancelledNext(before, read, now, i, AfterVerdict(now, read[i]));
    } else {
      KeptNext(before, read, now, i);
    }
  }

  lemma PassEnds(before: State, now: State)
    requires Inv(before)
    requires var read := RowsOf(before, QueuedIds(before));
      Passing(before.(rows := before.rows + AsSet(read)), read, now, |read|) && Passed(before, read, now, |read|)
    ensures now == Run(before, CancelPass(before)) && Inv(now) && OnlyCancelled(before.tasks, now.tasks)
    ensures forall id :: id in now.tasks && now.tasks[id].status == Queued ==> !OperationOver(now, now.tasks[id])
  {
    var ids := QueuedIds(before);
    var read := RowsOf(before, ids);
    var s := before.(rows := before.rows + AsSet(read));
    assert Tables(before);
    PassedAll(s, read, now);
    hide *;
    WholePass(before);
    RunBoth(before, ReadSteps(ids), PassSteps(s, read));
    NothingOver(before, read, now, ids);
  }

  lemma WholePass(before: State)
    ensures var ids := QueuedIds(before);
      var s := before.(rows := before.rows + AsSet(RowsOf(before, ids)));
      Run(before, ReadSteps(ids)) == s && CancelPass(before) == ReadSteps(ids) + PassSteps(s, RowsOf(before, ids))
  {
    hide Run, PassSteps, ReadSteps, RowsOf, AsSet, QueuedIds;
    ReadingRows(before, QueuedIds(before));
  }

  lemma PassedAll(s: State, read: seq<Row>, now: State)
    requires Passing(s, read, now, |read|)
    ensures now == Run(s, PassSteps(s, read)) && Inv(now) && now.operations == s.operations
  {
    hide Inv, Run, PassSteps, AsSet;
    assert read[..|read|] == read;
  }

  lemma NothingOver(before: State, read: seq<Row>, now: State, ids: seq<Id>)
    requires Tables(before) && ids == QueuedIds(before) && now.operations == before.operations
    requires read == RowsOf(before, ids) && Passed(before, read, now, |read|)
    ensures OnlyCancelled(before.tasks, now.tasks)
    ensures forall id :: id in now.tasks && now.tasks[id].status == Queued ==> !OperationOver(now, now.tasks[id])
  {
    hide Tables, OnlyCancelled, AllRead, QueuedIds, OperationOver;
    assert forall k :: 0 <= k < |ids| ==> read[k] == RowOf(before, ids[k]);
    hide RowsOf;
    NoneOverLeft(before, now, ids);
  }

  /** The saves of a reconciliation have got as far as the first `i` rows. */
  ghost predicate Saving(s: State, read: seq<Row>, now: State, i: nat) {
    i <= |read| && AsSet(read) <= s.doomed && now == s.(tasks := now.tasks) && now == Run(s, SaveSteps(read[..i])) && Inv(now)
  }

  ghost predicate Saved(before: State, read: seq<Row>, now: State, i: nat) {
    && AllRead(before, read) && now.tasks.Keys == before.tasks.Keys
    && (forall k :: 0 <= k < i && k < |read| ==>
         now.tasks[read[k].task] == before.tasks[read[k].task].(status := Cancelled))
    && (forall id :: id in now.tasks && (forall k :: 0 <= k < i && k < |read| ==> read[k].task != id) ==>
         now.tasks[id] == before.tasks[id])
  }

  lemma SavingFrom(s: State, read: seq<Row>)
    requires Inv(s) && AsSet(read) <= s.doomed
    ensures Saving(s, read, s, 0)
  {
    hide Inv, AsSet, Run;
    NoSteps(s, 0);
  }

  lemma SavedFrom(before: State, read: seq<Row>, now: State)
    requires AllRead(before, read) && now.tasks == before.tasks
    ensures Saved(before, read, now, 0)
  {
  }

  lemma SavesBegin(before: State, operation: Id)
    requires Inv(before)
    ensures var read := RowsOf(before, PendingIds(before, operation));
      var s := before.(doomed := before.doomed + AsSet(read)); Saving(s, read, s, 0) && Saved(before, read, s, 0)
  {
    hide *;
    var ids := PendingIds(before, operation);
    PendingRows(before, operation);
    FreshRowsKeep(before, ids);
    RowsAreRead(before, ids);
    var read := RowsOf(before, ids);
    SavingFrom(before.(doomed := before.doomed + AsSet(read)), read);
    SavedFrom(before, read, before.(doomed := before.doomed + AsSet(read)));
  }

  lemma SavingNext(s: State, read: seq<Row>, now: State, i: nat)
    requires Saving(s, read, now, i) && i < |read| && QueuedTask(now, read[i].task)
    ensures Saving(s, read, Rewritten(now, read[i].task, Cancelled, read[i].attempt), i + 1)
  {
    assert read[i] in AsSet(read);
    CancelKeeps(now, read[i]);
    hide Inv, Run, AsSet;
    assert read[..i + 1][..i] == read[..i];
    RunOne(s, SaveSteps(read[..i]), SaveCancel(read[i]));
  }

  lemma SavesGoOn(before: State, s: State, read: seq<Row>, now: State, i: nat)
    requires Saving(s, read, now, i) && Saved(before, read, now, i) && i < |read|
    ensures QueuedTask(now, read[i].task)
    ensures var next := Rewritten(now, read[i].task, Cancelled, read[i].attempt);
      Saving(s, read, next, i + 1) && Saved(before, read, next, i + 1)
  {
    hide *;
    SavedOne(before, read, now, i);
    SavingNext(s, read, now, i);
  }

  lemma SavedOne(before: State, read: seq<Row>, now: State, i: nat)
    requires Saved(before, read, now, i) && i < |read|
    ensures QueuedTask(now, read[i].task)
    ensures Saved(before, read, Rewritten(now, read[i].task, Cancelled, read[i].attempt), i + 1)
  {
    assert now.tasks[read[i].task] == before.tasks[read[i].task];
  }

  lemma SavesEnd(before: State, now: State, operation: Id)
    requires Inv(before)
    requires var read := RowsOf(before, PendingIds(before, operation));
      Saving(before.(doomed := before.doomed + AsSet(read)), read, now, |read|) && Saved(before, read, now, |read|)
    ensures Inv(now) && now.tasks == Dropped(before.tasks, operation)
    ensures now
      == Run(before, CondemnSteps(PendingIds(before, operation)) + SaveSteps(RowsOf(before, PendingIds(before, operation))))
  {
    var ids := PendingIds(before, operation);
    var read := RowsOf(before, ids);
    var s := before.(doomed := before.doomed + AsSet(read));
    hide *;
    PendingRows(before, operation);
    SavesRun(s, read, now);
    SavedAll(before, ids, now, operation);
    CondemningRows(before, ids);
    RunBoth(before, CondemnSteps(ids), SaveSteps(read));
  }

  lemma SavesRun(s: State, read: seq<Row>, now: State)
    requires Saving(s, read, now, |read|)
    ensures Inv(now) && now == Run(s, SaveSteps(read))
  {
    hide Inv, Run, SaveSteps, AsSet;
    assert read[..|read|] == read;
  }

  lemma SavedAll(before: State, ids: seq<Id>, now: State, operation: Id)
    requires AllQueued(before, ids) && Saved(before, RowsOf(before, ids), now, |ids|)
    requires forall id :: id in before.tasks ==>
      (id in ids <==> before.tasks[id].operation == operation && before.tasks[id].status == Queued)
    ensures now.tasks == Dropped(before.tasks, operation)
  {
    hide AllRead, OperationOver;
    var read := RowsOf(before, ids);
    forall id | id in now.tasks ensures now.tasks[id] == Dropped(before.tasks, operation)[id] {
      if id in ids {
        var k :| 0 <= k < |ids| && ids[k] == id;
        assert read[k].task == id;
      }
    }
  }

  lemma PersistLast(s: State, r: State, operation: Id, outcome: OperationStatus)
    requires Inv(r) && r == Run(s, if outcome == OperationFailed then
      CondemnSteps(PendingIds(s, operation)) + SaveSteps(RowsOf(s, PendingIds(s, operation))) else [])
    ensures Inv(r.(operations := r.operations[operation := outcome]))
    ensures r.(operations := r.operations[operation := outcome]) == Run(s, ReconcileSteps(s, operation, outcome))
  {
    hide Inv, Run;
    NoteKeeps(r, Persist(operation, outcome));
    RunOne(s, if outcome == OperationFailed then
      CondemnSteps(PendingIds(s, operation)) + SaveSteps(RowsOf(s, PendingIds(s, operation))) else [],
      Persist(operation, outcome));
  }

  lemma TwoSteps(s: State, l: Id, success: bool, now: Instant)
    ensures Run(s, [Release(l, success, now), SaveOutcome(l)]) == Finished(s, l, success)
  {
    hide Closed, Settled, Run;
    NoSteps(s, 0);
    RunOne(s, [], Release(l, success, now));
    RunOne(s, [Release(l, success, now)], SaveOutcome(l));
    assert [] + [Release(l, success, now)] == [Release(l, success, now)];
    assert [Release(l, success, now)] + [SaveOutcome(l)] == [Release(l, success, now), SaveOutcome(l)];
  }

  lemma TwoSaves(s: State, l: Id, success: bool, now: Instant)
    requires Inv(s) && l in s.leases
    ensures Run(s, [Release(l, success, now), SaveOutcome(l)]) == Finished(s, l, success)
    ensures s.leases[l].status == Active ==> Inv(Finished(s, l, success))
  {
    hide Inv, Settled, Run;
    TwoSteps(s, l, success, now);
    if s.leases[l].status == Active {
      ReleaseKeeps(s, l, success);
      SettleKeeps(Closed(s, l, success), l);
    }
  }

  lemma PendingRows(s: State, operation: Id)
    requires Inv(s)
    ensures Distinct(PendingIds(s, operation))
    ensures forall id :: id in s.tasks ==>
      (id in PendingIds(s, operation) <==> s.tasks[id].operation == operation && s.tasks[id].status == Queued)
  {
    TaskRows(s);
    hide Inv;
    var pending := (id: Id) => QueuedTask(s, id) && s.tasks[id].operation == operation;
    assert PendingIds(s, operation) == Filter(s.taskIds, pending);
    FilterMembers(s.taskIds, pending);
    FilterDistinct(s.taskIds, pending);
  }

  /** The rows read before the pass were all the queued ones. */
  lemma NoneOverLeft(s: State, r: State, ids: seq<Id>)
    requires Tables(s) && ids == QueuedIds(s) && OnlyCancelled(s.tasks, r.tasks) && r.operations == s.operations
    requires forall k :: 0 <= k < |ids| ==> QueuedTask(r, ids[k]) ==> !OperationOver(s, s.tasks[ids[k]])
    ensures forall id :: id in r.tasks && r.tasks[id].status == Queued ==> !OperationOver(r, r.tasks[id])
  {
    hide Distinct;
    assert forall id :: id in s.tasks ==> id in Elements(s.taskIds);
    FilterMembers(s.taskIds, QueuedRow(s, {}));
    forall id | id in r.tasks && r.tasks[id].status == Queued ensures !OperationOver(r, r.tasks[id]) {
      assert id in s.taskIds && QueuedRow(s, {})(id);
      var k :| 0 <= k < |ids| && ids[k] == id;
    }
  }

  /** No unlocked task can be claimed. */
  ghost predicate NoClaim(s: State, agent: Id, locked: set<Id>) {
    forall id :: id in s.tasks && id !in locked ==> !Claimable(s, agent, id)
  }

  /** The task can be claimed, and no unlocked one that could has a higher priority, or the same and is older. */
  ghost predicate FirstClaim(s: State, agent: Id, locked: set<Id>, id: Id) {
    && id in s.tasks && id !in locked && Claimable(s, agent, id)
    && forall x :: x in s.tasks && x !in locked && Claimable(s, agent, x) ==>
         s.tasks[x].priority < s.tasks[id].priority
         || (s.tasks[x].priority == s.tasks[id].priority && s.tasks[id].created <= s.tasks[x].created)
  }

  lemma CandidatesAreCandidates(s: State, locked: set<Id>)
    requires Inv(s)
    ensures forall k :: 0 <= k < |Candidates(s, locked)| ==> Candidates(s, locked)[k] in s.tasks
  {
    CandidatesInOrder(s, locked);
    hide Candidates, Inv;
    var rows := Candidates(s, locked);
    assert forall k :: 0 <= k < |rows| ==> rows[k] in rows;
  }

  lemma ClaimableRow(s: State, agent: Id, locked: set<Id>, i: nat)
    requires Inv(s) && HasRoom(s, agent)
    requires i < |Candidates(s, locked)|
    ensures var id := Candidates(s, locked)[i];
      QueuedTask(s, id) && (Claimable(s, agent, id) <==> Matches(s, s.agents[agent], s.tasks[id]))
  {
    CandidatesInOrder(s, locked);
    hide Candidates, Inv, Matches, ActiveCount;
    assert Candidates(s, locked)[i] in Candidates(s, locked);
  }

  lemma ClaimIsFirst(s: State, agent: Id, locked: set<Id>, i: nat)
    requires Inv(s) && i < |Candidates(s, locked)| && Claimable(s, agent, Candidates(s, locked)[i])
    requires forall k :: 0 <= k < i ==> !Claimable(s, agent, Candidates(s, locked)[k])
    ensures FirstClaim(s, agent, locked, Candidates(s, locked)[i])
  {
    CandidatesInOrder(s, locked);
    var rows := Candidates(s, locked);
    hide Candidates, Inv, Claimable;
    assert rows[i] in rows;
    forall x | x in s.tasks && x !in locked && Claimable(s, agent, x) ensures ClaimOrder(s)(rows[i], x) {
      ClaimableIsQueued(s, agent, x);
      var k :| 0 <= k < |rows| && rows[k] == x;
      assert k >= i;
    }
  }

  lemma NothingToClaim(s: State, agent: Id, locked: set<Id>)
    requires Inv(s)
    requires forall k :: 0 <= k < |Candidates(s, locked)| ==> !Claimable(s, agent, Candidates(s, locked)[k])
    ensures NoClaim(s, agent, locked)
  {
    CandidatesInOrder(s, locked);
    var rows := Candidates(s, locked);
    hide Candidates, Inv, Claimable, ClaimOrder;
    forall x | x in s.tasks && x !in locked ensures !Claimable(s, agent, x) {
      if Claimable(s, agent, x) { ClaimableIsQueued(s, agent, x); }
      assert s.tasks[x].status == Queued ==> x in rows;
    }
  }

  lemma QueuedRowsAreQueued(s: State)
    requires Inv(s)
    ensures Distinct(QueuedIds(s))
  {
    hide Exclusive, DependenciesFirst, AttemptsInRange;
    FilterDistinct(s.taskIds, QueuedRow(s, {}));
  }

  lemma CandidatesInOrder(s: State, locked: set<Id>)
    requires Inv(s)
    ensures var rows := Candidates(s, locked);
      && (forall id :: id in rows <==> id !in locked && id in s.tasks && s.tasks[id].status == Queued)
      && (forall i, k :: 0 <= i <= k < |rows| ==> ClaimOrder(s)(rows[i], rows[k]))
  {
    hide Tables, Exclusive, DependenciesFirst, AttemptsInRange, Candidates;
    CandidatesAreQueued(s, locked);
    ClaimOrderIsOrder(s);
    hide ClaimOrder, Inv;
  }

  lemma SameLeasesSameCount(s: State, r: State, agent: Id)
    requires r.leases == s.leases && r.leaseIds == s.leaseIds
    ensures ActiveCount(r, agent) == ActiveCount(s, agent)
  {
    FilterAlike(s.leaseIds, HeldBy(s, agent), HeldBy(r, agent));
  }

  lemma TaskIsKnown(s: State, l: Id)
    requires Inv(s) && l in s.leases
    ensures s.leases[l].task in s.tasks
  {
    hide Exclusive, DependenciesFirst, AttemptsInRange;
  }

  lemma TaskRows(s: State)
    requires Inv(s)
    ensures Distinct(s.taskIds) && (forall k :: 0 <= k < |s.taskIds| ==> s.taskIds[k] in s.tasks)
    ensures forall id :: id in s.tasks ==> exists k :: 0 <= k < |s.taskIds| && s.taskIds[k] == id
  {
    hide Exclusive, DependenciesFirst, AttemptsInRange;
    forall k | 0 <= k < |s.taskIds| ensures s.taskIds[k] in s.tasks { assert s.taskIds[k] in Elements(s.taskIds); }
    forall id | id in s.tasks ensures exists k :: 0 <= k < |s.taskIds| && s.taskIds[k] == id {
      assert id in Elements(s.taskIds);
    }
  }

  lemma StaleRowsAreStale(s: State, locked: set<Id>, now: Instant)
    requires Inv(s)
    ensures var rows := Filter(s.leaseIds, StaleRow(s, locked, now));
      Distinct(rows) && forall k :: 0 <= k < |rows| ==> Stale(s, rows[k], now)
  {
    hide Exclusive, DependenciesFirst, AttemptsInRange, Stale;
    FilterMembers(s.leaseIds, StaleRow(s, locked, now));
    FilterDistinct(s.leaseIds, StaleRow(s, locked, now));
    var rows := Filter(s.leaseIds, StaleRow(s, locked, now));
    forall k | 0 <= k < |rows| ensures Stale(s, rows[k], now) { assert StaleRow(s, locked, now)(rows[k]); }
  }

  lemma StaleIsActive(s: State, l: Id, now: Instant)
    requires Stale(s, l, now)
    ensures l in s.leases && s.leases[l].status == Active && Apply(s, ExpireLease(l, now)) == Expired(s, l)
  {
  }

  lemma OthersStayStale(s: State, l: Id, k: Id, now: Instant)
    requires l in s.leases && k != l && Stale(s, k, now)
    ensures Stale(Expired(s, l), k, now)
  {
  }
}
