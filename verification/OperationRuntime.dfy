/**
 The sequential executor of an operation: authorize, take ready actions one at a time, journal after every step, and
 on failure stop, pause or roll back. Executors and policy are arbitrary functions.
 */
module OperationRuntime {
  import opened Basics
  import opened Operations
  import opened Journal
  import opened RunOrder
  import opened RollbackOrder
  import opened RunSteps
  import Sorting
  import Text

  /** What an executor does with one call: raise, or answer with a receipt about the action it was given. */
  datatype Response = Threw | Answered(status: ReceiptStatus, id: string, startedAt: int)

  function ReceiptFrom(a: Action, answer: Response): Receipt
    requires answer.Answered?
  {
    Receipt(answer.id, a.id, answer.status, a.key, answer.startedAt, false)
  }

  lemma MachineAt(op: Operation)
    ensures At(op) == Machine(op.receipts, op.current, None, Erased(op.actions))
  {
  }

  lemma SameErased(a: seq<Action>, b: seq<Action>)
    requires SamePlan(a, b)
    ensures Erased(a) == Erased(b)
  {
  }

  lemma NoteStatuses()
    ensures StatusOf(Reopening) == Created && StatusOf(Starting) == StatusOf(Marking) == StatusOf(Tolerating) == Running
    ensures StatusOf(Pausing) == Paused && StatusOf(EndingRollback) == StatusOf(Failing) == OperationStatus.Failed
    ensures forall passed :: StatusOf(Sealing(passed)) == if passed then OperationStatus.Completed else OperationStatus.Failed
  {
  }

  lemma JudgedStep(op: Operation, judged: Operation, evaluate: Action -> Verdict)
    requires judged == AuthorizationOf(op, evaluate)
    ensures Step(At(op), Saved(judged, Authorizing(Worst(judged.decisions)))) == Some(At(op))
  {
    AuthorizedMeansAllPermitted(op, evaluate);
    hide Any, Erased;
    SameErased(op.actions, judged.actions);
  }

  lemma BegunKeeps(op: Operation, id: Id)
    ensures Begun(op, id) == op.(actions := Begun(op, id).actions, current := [id])
    ensures SamePlan(op.actions, Begun(op, id).actions) && Erased(Begun(op, id).actions) == Erased(op.actions)
  {
    WithStatusSamePlan(op.actions, id, InProgress);
  }

  lemma CheckpointedKeeps(op: Operation)
    ensures Checkpointed(op) == op.(checkpoints := Checkpointed(op).checkpoints)
  {
  }

  lemma PreparedIs(op: Operation, id: Id)
    requires FirstDecision(op.decisions, id).Some?
    ensures Prepared(op, id) ==
      if FirstDecision(op.decisions, id).value.checkpoint then Checkpointed(Begun(op, id)) else Begun(op, id)
  {
  }

  lemma DueWhenCurrent(m: Machine, a: Action)
    requires Fresh(m, a) && m.current == [a.id]
    ensures Due(m, a, false)
  {
  }

  lemma UndoIsDue(m: Machine, a: Action)
    ensures Due(m, a, true)
  {
  }

  lemma SettledKeeps(op: Operation, r: Receipt)
    ensures var s := Settled(op, r);
      && s == op.(actions := s.actions, receipts := op.receipts + [r], current := s.current)
      && SamePlan(op.actions, s.actions) && Erased(s.actions) == Erased(op.actions)
  {
    WithStatusSamePlan(op.actions, r.action, StatusFor(r.status));
  }

  lemma GuardReceiptIs(a: Action, at: int)
    ensures var r := GuardReceipt(a, at);
      r.action == a.id && r.key == a.key && r.status == AlreadySatisfied && r.guard
  {
  }

  lemma ReceiptFromIs(a: Action, r: Receipt)
    ensures (exists answer: Response :: answer.Answered? && r == ReceiptFrom(a, answer)) ==>
      r.action == a.id && r.key == a.key && !r.guard
  {
  }

  /** The machine after an executor's answer; an exception leaves none. */
  function Told(m: Machine, a: Action, undo: bool, answer: Response): Machine {
    m.(answer := if answer.Answered? then Some(Answer(ReceiptFrom(a, answer), undo)) else None)
  }

  /** The action may be handed to an executor: it is to be taken back, or it is due and journaled as current. */
  ghost predicate Due(m: Machine, a: Action, undo: bool) { undo || (Fresh(m, a) && m.current == [a.id]) }

  lemma InvocationStep(m: Machine, a: Action, undo: bool, answer: Response)
    requires Due(m, a, undo) && MayAsk(m, a, undo)
    ensures Step(m, Invoked(a, undo, if answer.Answered? then Some(ReceiptFrom(a, answer)) else None))
      == Some(Told(m, a, undo, answer))
  {
    hide Fresh, MayAsk;
  }

  lemma StillDue(m: Machine, n: Machine, a: Action, undo: bool)
    requires Due(m, a, undo) && n == m.(answer := n.answer)
    ensures Due(n, a, undo)
  {
    ClearedIsOfReceipts(m, n);
    hide Fresh;
  }

  lemma MayAskFirst(m: Machine, a: Action, undo: bool)
    requires m.answer == None
    ensures MayAsk(m, a, undo)
  {
  }

  lemma MayAskAgain(m: Machine, a: Action, undo: bool, answer: Response)
    requires answer.Answered? && !Success(ReceiptFrom(a, answer))
    ensures MayAsk(Told(m, a, undo, answer), a, undo)
  {
    hide Success;
  }

  class OperationRuntime {
    const catalog: Catalog
    const executors: set<Id>
    const acceptable: Action -> bool
    const executor: (nat, Id, Action, nat) -> Response
    /** The time at which the receipt after the i-th one is made. */
    const clock: nat -> int
    var journal: Option<Operation>
    var calls: nat
    ghost var trace: seq<Entry>

    /** The trace accounts for every executor call and ends in what the journal holds. */
    ghost predicate Valid()
      reads this
    {
      && (forall t :: t in catalog ==> catalog[t].maxAttempts >= 1)
      && calls == Invocations(trace) && journal == LastSaved(trace)
    }

    constructor (
      catalog: Catalog, executors: set<Id>, acceptable: Action -> bool, executor: (nat, Id, Action, nat) -> Response,
      clock: nat -> int, journal: Option<Operation>)
      requires forall t :: t in catalog ==> catalog[t].maxAttempts >= 1
      ensures Valid() && this.journal == journal
    {
      this.catalog, this.executors, this.acceptable, this.executor := catalog, executors, acceptable, executor;
      this.clock, this.journal, this.calls := clock, journal, 0;
      this.trace := if journal.Some? then [Saved(journal.value, Stored)] else [];
    }

    method Save(op: Operation, ghost note: Note, ghost m: Machine)
      requires Valid() && Step(m, Saved(op, note)).Some?
      modifies this
      ensures Valid() && journal == Some(op) && calls == old(calls) && trace == old(trace) + [Saved(op, note)]
      ensures Leads(old(trace), trace, m, Step(m, Saved(op, note)).value)
    {
      hide Step, Leads;
      LeadsBy(trace, Saved(op, note), m);
      journal := Some(op);
      trace := trace + [Saved(op, note)];
      assert trace[..|trace| - 1] == old(trace);
    }

    method Call(name: Id, a: Action, attempt: nat, undo: bool, ghost m: Machine) returns (answer: Response)
      requires Valid() && Due(m, a, undo) && MayAsk(m, a, undo)
      modifies this
      ensures Valid() && journal == old(journal) && calls == old(calls) + 1
      ensures answer == executor(old(calls), name, a, attempt)
      ensures Leads(old(trace), trace, m, Told(m, a, undo, answer))
    {
      hide Leads, Due, MayAsk, Step, Told;
      answer := executor(calls, name, a, attempt);
      calls := calls + 1;
      ghost var entry := Invoked(a, undo, if answer.Answered? then Some(ReceiptFrom(a, answer)) else None);
      InvocationStep(m, a, undo, answer);
      LeadsBy(trace, entry, m);
      trace := trace + [entry];
      assert trace[..|trace| - 1] == old(trace);
    }

    // ---- one action ----

    function Validation(a: Action): Option<Error> {
      if a.typeId !in catalog then Some(ValueError) else if !acceptable(a) then Some(ValueError) else None
    }

    /** The error that the i-th action raises, if it is the first that raises one. */
    function FirstInvalid(actions: seq<Action>, i: nat): Option<Error>
      requires i < |actions|
    {
      if forall k :: 0 <= k < i ==> Validation(actions[k]).None? then Validation(actions[i]) else None
    }

    function ExecutorFor(op: Operation, a: Action, mode: string): Id
      requires a.typeId in catalog
    {
      if op.dryRun then "dry_run" else if mode == "simulation" then "simulation" else catalog[a.typeId].executorId
    }

    /** Why an action is not handed to any executor. */
    function Obstacle(op: Operation, a: Action, mode: string): Option<Error> {
      if Validation(a).Some? then Validation(a)
      else if !op.dryRun && mode != "dry_run" && mode !in catalog[a.typeId].modes then Some(PermissionError)
      else if ExecutorFor(op, a, mode) !in executors then Some(KeyError)
      else None
    }

    /** `_execute_action`: attempts until the first success, at most as many as the action's type allows. */
    method ExecuteAction(op: Operation, a: Action, mode: string, undo: bool, ghost m: Machine)
      returns (r: Result<Receipt>)
      requires Valid() && m.answer == None && Due(m, a, undo)
      modifies this
      ensures Valid() && journal == old(journal)
      ensures Obstacle(op, a, mode).Some? ==> r == Err(Obstacle(op, a, mode).value) && calls == old(calls)
      ensures Obstacle(op, a, mode).None? ==> old(calls) < calls <= old(calls) + catalog[a.typeId].maxAttempts
      ensures r.Ok? && !Success(r.value) ==> calls == old(calls) + catalog[a.typeId].maxAttempts
      ensures r.Ok? ==>
        var answer := executor(calls - 1, ExecutorFor(op, a, mode), a, calls - old(calls));
        answer.Answered? && r.value == ReceiptFrom(a, answer)
      ensures Leads(old(trace), trace, m, if r.Ok? then m.(answer := Some(Answer(r.value, undo))) else m)
    {
      hide Leads, Due, MayAsk, Success, Step;
      LeadsNowhere(trace, m);
      if Obstacle(op, a, mode).Some? {
        return Err(Obstacle(op, a, mode).value);
      }
      var name, definition := ExecutorFor(op, a, mode), catalog[a.typeId];
      MayAskFirst(m, a, undo);
      r := Err(ExecutorError);
      ghost var now := m;
      for attempt := 1 to definition.maxAttempts + 1
        invariant Valid() && journal == old(journal) && calls == old(calls) + (attempt - 1)
        invariant Leads(old(trace), trace, m, now) && MayAsk(now, a, undo) && now == m.(answer := now.answer)
        invariant attempt > 1 ==>
          var answer := executor(calls - 1, name, a, attempt - 1);
          answer.Answered? && r == Ok(ReceiptFrom(a, answer)) && !Success(r.value) && now == Told(m, a, undo, answer)
      {
        ghost var before := trace;
        StillDue(m, now, a, undo);
        var answer := Call(name, a, attempt, undo, now);
        LeadsOn(old(trace), before, trace, m, now, Told(now, a, undo, answer));
        now := Told(m, a, undo, answer);
        if answer.Threw? {
          return Err(ExecutorError);
        }
        r := Ok(ReceiptFrom(a, answer));
        if Success(r.value) {
          return;
        }
        MayAskAgain(m, a, undo, answer);
      }
    }

    /** `_append_receipt` */
    method AppendReceipt(op: Operation, receipt: Receipt, ghost note: Note, ghost m: Machine) returns (r: Operation)
      requires Valid() && Step(m, Saved(Settled(op, receipt), note)).Some?
      modifies this
      ensures Valid() && r == Settled(op, receipt) && journal == Some(r) && calls == old(calls)
      ensures Leads(old(trace), trace, m, Step(m, Saved(r, note)).value)
    {
      hide Leads, Step;
      r := op.(
        actions := WithStatus(op.actions, receipt.action, StatusFor(receipt.status)), receipts := op.receipts + [receipt],
        current := Filter(op.current, (id: Id) => id != receipt.action));
      Save(r, note, m);
    }

    /** One turn of the loop in `run`: mark the action, checkpoint if asked to, execute it or not, and record it. */
    method Perform(op: Operation, a: Action, keys: set<string>, mode: string)
      returns (r: Operation, receipt: Receipt, error: Option<Error>)
      requires Valid() && op.status == Running && FirstDecision(op.decisions, a.id).Some?
      requires a.(status := Proposed) in Erased(op.actions)
      requires a.id !in SuccessIds(op.receipts) && a.deps <= Cleared(At(op))
      requires if AlreadyDone(a, keys) then AlreadyDone(a, SuccessKeys(op.receipts)) else Fresh(At(op), a)
      modifies this
      ensures Valid() && journal == Some(r)
      ensures r == if error.None? then Settled(Prepared(op, a.id), receipt) else Prepared(op, a.id)
      ensures r.status == Running && r.dryRun == op.dryRun && r.decisions == op.decisions && SamePlan(op.actions, r.actions)
      ensures error.None? ==> r.receipts == op.receipts + [receipt] && receipt.action == a.id && receipt.key == a.key
      ensures error.None? ==> (receipt.guard <==> AlreadyDone(a, keys))
      ensures error.Some? ==> r.receipts == op.receipts && !AlreadyDone(a, keys)
      ensures AlreadyDone(a, keys) ==> calls == old(calls)
      ensures Leads(old(trace), trace, At(op), At(r))
    {
      hide *;
      NoteStatuses();
      ghost var start := At(op);
      MachineAt(op);
      PreparedIs(op, a.id);
      BegunKeeps(op, a.id);
      r := Begun(op, a.id);
      QuietStep(start, r, Marking);
      Save(r, Marking, start);
      MachineAt(r);
      var decision := FirstDecision(op.decisions, a.id).value;
      if decision.checkpoint {
        ghost var before, last := trace, At(r);
        CheckpointedKeeps(r);
        r := Checkpointed(r);
        QuietStep(last, r, Marking);
        Save(r, Marking, last);
        MachineAt(r);
        LeadsOn(old(trace), before, trace, start, last, At(r));
      }
      ghost var m, now, begun := At(r), At(r), trace;
      ClearedIsOfReceipts(start, m);
      error := None;
      if AlreadyDone(a, keys) {
        receipt := GuardReceipt(a, clock(|op.receipts|));
        GuardReceiptIs(a, clock(|op.receipts|));
        LeadsNowhere(trace, m);
      } else {
        DueWhenCurrent(m, a);
        var executed := ExecuteAction(r, a, mode, false, m);
        LeadsOn(old(trace), begun, trace, start, m,
          if executed.Ok? then m.(answer := Some(Answer(executed.value, false))) else m);
        if executed.Err? {
          receipt := GuardReceipt(a, 0);
          return r, receipt, Some(executed.error);
        }
        receipt := executed.value;
        ReceiptFromIs(a, receipt);
        now := m.(answer := Some(Answer(receipt, false)));
        ClearedIsOfReceipts(start, now);
      }
      ghost var ran := trace;
      SettledKeeps(r, receipt);
      RecordedStep(now, r, a, receipt);
      SamePlanTransitive(op.actions, r.actions, Settled(r, receipt).actions);
      r := AppendReceipt(r, receipt, Recorded(a), now);
      MachineAt(r);
      LeadsOn(old(trace), ran, trace, start, now, At(r));
    }

    /** `authorize`: no state changes unless every action names a known type and suits it. */
    method Authorize(op: Operation, evaluate: Action -> Verdict, ghost m: Machine) returns (r: Result<Operation>)
      requires Valid() && m == At(op)
      modifies this
      ensures Valid() && calls == old(calls) && Leads(old(trace), trace, m, m)
      ensures r.Ok? <==> forall a :: a in op.actions ==> Validation(a).None?
      ensures r.Ok? ==> r.value == AuthorizationOf(op, evaluate) && journal == Some(r.value)
      ensures r.Err? ==> journal == old(journal) && trace == old(trace)
      ensures r.Err? ==> exists i :: 0 <= i < |op.actions| && FirstInvalid(op.actions, i) == Some(r.error)
    {
      hide Leads, Step, Validation, Any;
      LeadsNowhere(trace, m);
      var decisions: seq<PolicyDecision> := [];
      for i := 0 to |op.actions|
        invariant forall k :: 0 <= k < i ==> Validation(op.actions[k]).None?
        invariant decisions == Decisions(op.actions[..i], evaluate)
      {
        if Validation(op.actions[i]).Some? {
          assert FirstInvalid(op.actions, i) == Validation(op.actions[i]);
          return Err(Validation(op.actions[i]).value);
        }
        decisions := decisions + [DecisionOn(op.actions[i], evaluate)];
      }
      assert op.actions[..|op.actions|] == op.actions;
      var judged := op.(
        status := if Any(decisions, Deny) then OperationStatus.Blocked
                  else if Any(decisions, RequireApproval) then AwaitingApproval else Authorized,
        actions := Judged(op.actions, evaluate), decisions := decisions);
      JudgedStep(op, judged, evaluate);
      Save(judged, Authorizing(Worst(decisions)), m);
      r := Ok(judged);
    }

    /** The loop of `run`. The exits other than `Sealed` are the ways out of it; `Sealed` stands for its normal end. */
    method Drive(op: Operation, mode: string, start: string)
      returns (r: Operation, exit: Exit, behaviour: string, ghost picked: seq<Action>, ghost fwd: seq<Receipt>)
      requires Valid() && op.status == Running && start != "continue"
      requires forall a :: a in op.actions ==> FirstDecision(op.decisions, a.id).Some?
      modifies this
      ensures Valid() && exit != Refused
      ensures r.receipts == op.receipts + fwd && r.dryRun == op.dryRun && SamePlan(op.actions, r.actions)
      ensures Records(picked, fwd) && Greedy(op.actions, SuccessIds(op.receipts), picked)
      ensures Course(start, op.actions, SuccessIds(op.receipts), picked, fwd, exit)
      ensures !exit.Raised? ==> behaviour == Behaviour(start, picked, fwd)
      ensures !exit.Raised? ==> r == Ending(Worked(op, picked, fwd), r.status, r.failure, op.certificate)
      ensures exit.Sealed? ==> r.status == Running && r.failure == op.failure
      ensures exit.PausedAt? ==> r.status == Paused && r.failure == Some(ActionFailed(exit.action)) && journal == Some(r)
      ensures exit.FailedAt? ==> r.status == OperationStatus.Failed && r.failure == Some(ActionFailed(exit.action))
      ensures exit.Stuck? ==> r.status == OperationStatus.Failed && r.failure == Some(GraphBlocked)
      ensures Leads(old(trace), trace, At(op), At(r))
    {
      hide *;
      ghost var plan, done := op.actions, SuccessIds(op.receipts);
      picked, fwd, behaviour, r := [], [], start, op;
      var completed, keys := SuccessIds(op.receipts), FulfilledKeys(op.receipts);
      var pending := Filter(op.actions, IsPending(completed));
      LoopStarts(plan, done);
      MachineAt(op);
      MirrorsAtStart(At(op));
      RunStarts(start, plan, done);
      SamePlanReflexive(plan);
      NothingWorked(op);
      NoteStatuses();
      LeadsNowhere(trace, At(op));
      while pending != []
        invariant Valid() && r.status == Running
        invariant Loop(plan, done, picked, pending, completed) && Mirrors(At(r), completed, keys)
        invariant r.receipts == op.receipts + fwd && r.dryRun == op.dryRun && r.decisions == op.decisions
        invariant SamePlan(plan, r.actions) && Records(picked, fwd) && |picked| == |fwd|
        invariant Flows(start, picked, fwd) && behaviour == Behaviour(start, picked, fwd)
        invariant r == Worked(op, picked, fwd)
        invariant Leads(old(trace), trace, At(op), At(r))
        decreases |pending|
      {
        WorkedKeeps(op, picked, fwd);
        var ready := Filter(pending, ReadyAfter(completed));
        if ready == [] {
          NoneReady(plan, done, picked, pending, completed);
          OpenCourse(start, plan, done, picked, fwd, Stuck);
          LoopIsGreedy(plan, done, picked, pending, completed);
          MachineAt(r);
          EndingIs(r, OperationStatus.Failed, Some(GraphBlocked), r.certificate);
          r := r.(status := OperationStatus.Failed, failure := Some(GraphBlocked));
          MachineAt(r);
          exit := Stuck;
          return;
        }
        SortedFirst(ready);
        var a := Sorting.Sort(ready, ById())[0];
        EarliestIsFirstReady(plan, done, picked, pending, completed, a);
        MachineAt(r);
        SameErased(plan, r.actions);
        PickIsFresh(At(r), plan, completed, keys, a);
        var before := r;
        ghost var begun := trace;
        MachineAt(before);
        var receipt, error;
        r, receipt, error := Perform(before, a, keys, mode);
        MachineAt(r);
        LeadsOn(old(trace), begun, trace, At(op), At(before), At(r));
        SamePlanTransitive(plan, before.actions, r.actions);
        SameErased(plan, r.actions);
        if error.Some? {
          OpenCourse(start, plan, done, picked, fwd, Raised(error.value));
          LoopIsGreedy(plan, done, picked, pending, completed);
          exit := Raised(error.value);
          return;
        }
        Turn(
          start, plan, done, picked, fwd, pending, completed, keys, At(before), At(r), a, receipt);
        WorkedOn(op, picked, fwd, a, receipt);
        picked, fwd := picked + [a], fwd + [receipt];
        WorkedKeeps(op, picked, fwd);
        pending := Filter(pending, Except(a.id));
        if Success(receipt) {
          completed := completed + {a.id};
          if Keyed(receipt.key) {
            keys := keys + {KeyOf(receipt)};
          }
        } else if a.optional {
          completed := completed + {a.id};
        } else {
          behaviour := if a.onFailure.Some? then a.onFailure.value else behaviour;
          ghost var failed := trace;
          if behaviour == "continue" {
            completed := completed + {a.id};
            QuietStep(At(r), r, Tolerating);
            Save(r, Tolerating, At(r));
            LeadsOn(old(trace), failed, trace, At(op), At(r), At(r));
          } else if behaviour == "pause" {
            ghost var m := At(r);
            EndingIs(r, Paused, Some(ActionFailed(a.id)), r.certificate);
            r := r.(status := Paused, failure := Some(ActionFailed(a.id)));
            MachineAt(r);
            QuietStep(m, r, Pausing);
            Save(r, Pausing, m);
            LeadsOn(old(trace), failed, trace, At(op), m, m);
            StoppedCourse(start, plan, done, picked, fwd, a.id, PausedAt(a.id));
            exit := PausedAt(a.id);
            return;
          } else {
            EndingIs(r, OperationStatus.Failed, Some(ActionFailed(a.id)), r.certificate);
            r := r.(status := OperationStatus.Failed, failure := Some(ActionFailed(a.id)));
            MachineAt(r);
            StoppedCourse(start, plan, done, picked, fwd, a.id, FailedAt(a.id));
            exit := FailedAt(a.id);
            return;
          }
        }
      }
      WorkedKeeps(op, picked, fwd);
      EndingIs(r, r.status, r.failure, r.certificate);
      NonePending(plan, done, picked, completed);
      LoopIsGreedy(plan, done, picked, pending, completed);
      OpenCourse(start, plan, done, picked, fwd, Sealed);
      exit := Sealed;
    }

    /** `rollback`: take back the completed actions, the latest first. */
    method Rollback(op: Operation, mode: string)
      returns (r: Operation, error: Option<Error>, ghost undone: seq<Receipt>)
      requires Valid()
      modifies this
      ensures Valid()
      ensures r.receipts == op.receipts + undone && SamePlan(op.actions, r.actions)
      ensures forall u :: u in undone ==> u.status in {RolledBack, Unsuccessful}
      ensures ActionsOf(undone) <= UndoIds(op.actions, catalog, op.receipts)
      ensures error.None? ==> ActionsOf(undone) == UndoIds(op.actions, catalog, op.receipts)
      ensures error.None? ==>
        r == Ending(TakenBack(op, undone), OperationStatus.Failed, op.failure, Some(RollbackCompleted)) && journal == Some(r)
      ensures Leads(old(trace), trace, At(op), At(r))
    {
      hide *;
      ghost var start := At(op);
      var completed := Filter(op.receipts, IsCompleted());
      var i := |completed|;
      r, error, undone := op.(status := RollingBack), None, [];
      MachineAt(op);
      MachineAt(r);
      SamePlanReflexive(op.actions);
      UndoStarts(op.actions, catalog, completed);
      NothingWorked(op);
      EndingIs(op, RollingBack, op.failure, op.certificate);
      LeadsNowhere(trace, start);
      while i > 0
        invariant 0 <= i <= |completed|
        invariant Valid() && r.receipts == op.receipts + undone && SamePlan(op.actions, r.actions)
        invariant UndoneDownTo(op.actions, catalog, completed, i, undone)
        invariant r == Ending(TakenBack(op, undone), RollingBack, op.failure, op.certificate)
        invariant Leads(old(trace), trace, start, At(r))
        invariant error.None?
      {
        UndoRecorded(op.actions, catalog, op.receipts, completed, i, undone);
        i := i - 1;
        var receipt := completed[i];
        UndoableNow(op.actions, r.actions, catalog, op.receipts, i);
        var original := Find(r.actions, receipt.action);
        if original.None? {
          return r, Some(StopIteration), undone;
        }
        if original.value.typeId !in catalog {
          return r, Some(ValueError), undone;
        }
        var rollback := catalog[original.value.typeId].rollback;
        if rollback.None? {
          UndoSkips(op.actions, catalog, completed, i, undone);
          continue;
        }
        if rollback.value !in catalog {
          return r, Some(ValueError), undone;
        }
        var undo := UndoAction(original.value, rollback.value);
        UndoActionIs(original.value, rollback.value);
        ghost var m, before := At(r), trace;
        MachineAt(r);
        UndoIsDue(m, undo);
        var executed := ExecuteAction(r, undo, mode, true, m);
        ghost var now := if executed.Ok? then m.(answer := Some(Answer(executed.value, true))) else m;
        LeadsOn(old(trace), before, trace, start, m, now);
        if executed.Err? {
          return r, Some(executed.error), undone;
        }
        ReceiptFromIs(undo, executed.value);
        UndoReceiptIs(executed.value);
        var taken := UndoReceipt(executed.value);
        SettledKeeps(r, taken);
        EndingIs(TakenBack(op, undone), RollingBack, op.failure, op.certificate);
        UndoneStep(now, r, executed.value);
        SamePlanTransitive(op.actions, r.actions, Settled(r, taken).actions);
        UndoRecords(op.actions, catalog, completed, i, undone, taken);
        ghost var ran := trace;
        r := AppendReceipt(r, taken, Undone, now);
        MachineAt(r);
        LeadsOn(old(trace), ran, trace, start, now, At(r));
        TakenBackOn(op, undone, taken);
        SettledEnding(TakenBack(op, undone), taken, RollingBack, op.failure, op.certificate);
        undone := undone + [taken];
      }
      UndoRecorded(op.actions, catalog, op.receipts, completed, i, undone);
      ghost var m, before := At(r), trace;
      MachineAt(r);
      EndingIs(TakenBack(op, undone), RollingBack, op.failure, op.certificate);
      EndingIs(TakenBack(op, undone), OperationStatus.Failed, op.failure, Some(RollbackCompleted));
      r := r.(status := OperationStatus.Failed, certificate := Some(RollbackCompleted));
      MachineAt(r);
      NoteStatuses();
      QuietStep(m, r, EndingRollback);
      Save(r, EndingRollback, m);
      LeadsOn(old(trace), before, trace, start, m, m);
    }

    /** `run` */
    method Run(
      op: Operation, mode: string, evaluate: Action -> Verdict, verification: Verification, rollbackOnFailure: bool)
      returns (r: Operation, exit: Exit, ghost picked: seq<Action>, ghost fwd: seq<Receipt>, ghost undone: seq<Receipt>)
      requires Valid()
      modifies this
      ensures Valid() && SamePlan(op.actions, r.actions) && r.receipts == op.receipts + fwd + undone
      // The history is sound: nothing recorded is repeated, nothing is recorded that did not happen.
      ensures Leads(old(trace), trace, At(op), At(r))
      // What was taken, in which order, and why it ended.
      ensures Records(picked, fwd) && Greedy(Judged(op.actions, evaluate), SuccessIds(op.receipts), picked)
      ensures Course(
        Mood(rollbackOnFailure), Judged(op.actions, evaluate), SuccessIds(op.receipts), picked, fwd, exit)
      ensures exit.Refused? ==> r == AuthorizationOf(op, evaluate) && r.status != Authorized && calls == old(calls)
      // What the operation has become.
      ensures !exit.Refused? && !exit.Raised? ==>
        r == Ending(
          TakenBack(Worked(Started(op, evaluate), picked, fwd), undone), r.status, r.failure, r.certificate)
      ensures exit.Sealed? ==> undone == [] && r.status == SealStatus(op.dryRun, verification)
      ensures exit.Sealed? ==> r.certificate == Some(SealCertificate(op.dryRun, mode, verification))
      // Completed means a passed verification or a dry run; fully recovered means verified outside dry run and simulation.
      ensures exit.Sealed? ==>
        (r.status == OperationStatus.Completed <==>
           op.dryRun || (verification.successful && !verification.protectedViolation))
      ensures exit.Sealed? ==>
        (r.certificate == Some(Recovered) <==>
           !op.dryRun && mode != "simulation" && verification.successful && !verification.protectedViolation)
      ensures exit.PausedAt? ==> undone == [] && r.status == Paused && r.failure == Some(ActionFailed(exit.action))
      ensures exit.FailedAt? ==> r.status == OperationStatus.Failed && r.failure == Some(ActionFailed(exit.action))
      ensures exit.Stuck? ==> r.status == OperationStatus.Failed && r.failure == Some(GraphBlocked)
      ensures !exit.Raised? ==> journal == Some(r)
      // What was taken back.
      ensures ActionsOf(undone) <= UndoIds(op.actions, catalog, op.receipts + fwd)
      ensures exit.FailedAt? || exit.Stuck? ==>
        ActionsOf(undone) ==
          if rollbackOnFailure && Behaviour(Mood(rollbackOnFailure), picked, fwd) == "rollback"
          then UndoIds(op.actions, catalog, op.receipts + fwd) else []
      ensures forall u :: u in undone ==> u.status in {RolledBack, Unsuccessful}
    {
      hide *;
      ghost var start, plan, done := Mood(rollbackOnFailure), Judged(op.actions, evaluate), SuccessIds(op.receipts);
      ghost var m := At(op);
      MachineAt(op);
      picked, fwd, undone := [], [], [];
      NothingTaken(start, plan, done, KeyError);
      SamePlanReflexive(op.actions);
      NothingUndone(catalog, op.actions, op.receipts);
      StartedIs(op, evaluate);
      var authorized := Authorize(op, evaluate, m);
      if authorized.Err? {
        r, exit := op, Raised(authorized.error);
        NothingTaken(start, plan, done, authorized.error);
        return;
      }
      r := authorized.value;
      AuthorizationIs(op, evaluate);
      MachineAt(r);
      if r.status != Authorized {
        exit := Refused;
        return;
      }
      r := r.(status := Running);
      MachineAt(r);
      NoteStatuses();
      SameErased(op.actions, r.actions);
      QuietStep(m, r, Starting);
      ghost var before := trace;
      Save(r, Starting, m);
      LeadsOn(old(trace), before, trace, m, m, m);
      MoodIsNotContinue(rollbackOnFailure);
      var running := r;
      before := trace;
      var behaviour;
      r, exit, behaviour, picked, fwd := Drive(running, mode, Mood(rollbackOnFailure));
      LeadsOn(old(trace), before, trace, m, m, At(r));
      SamePlanTransitive(op.actions, running.actions, r.actions);
      MachineAt(r);
      before := trace;
      NothingUndone(catalog, op.actions, op.receipts + fwd);
      RecordsLength(picked, fwd);
      ghost var work := Worked(running, picked, fwd);
      NothingWorked(work);
      if !exit.Raised? { EndingIs(work, r.status, r.failure, op.certificate); }
      if exit.FailedAt? || exit.Stuck? {
        if rollbackOnFailure && behaviour == "rollback" {
          ghost var failed := r;
          var error;
          r, error, undone := Rollback(r, mode);
          LeadsOn(old(trace), before, trace, m, At(failed), At(r));
          SamePlanTransitive(op.actions, failed.actions, r.actions);
          UndoIdsSamePlan(op.actions, failed.actions, catalog, op.receipts + fwd);
          if error.Some? {
            CourseAfterError(start, plan, done, picked, fwd, exit, error.value);
            exit := Raised(error.value);
            return;
          }
          before := trace;
          MachineAt(r);
          TakenBackEnding(work, undone, failed.status, failed.failure, op.certificate);
          EndingIs(TakenBack(work, undone), failed.status, failed.failure, op.certificate);
          EndingIs(TakenBack(failed, undone), OperationStatus.Failed, failed.failure, Some(RollbackCompleted));
          EndingIs(TakenBack(work, undone), OperationStatus.Failed, failed.failure, Some(RollbackCompleted));
        }
        MachineAt(r);
        QuietStep(At(r), r, Failing);
        Save(r, Failing, At(r));
        LeadsOn(old(trace), before, trace, m, At(r), At(r));
      } else if exit.Sealed? {
        ghost var last := At(r);
        r := r.(
          status := SealStatus(op.dryRun, verification),
          certificate := Some(SealCertificate(op.dryRun, mode, verification)));
        EndingIs(work, r.status, r.failure, r.certificate);
        MachineAt(r);
        SealsAreEarned(op.dryRun, mode, verification);
        QuietStep(last, r, Sealing(Passes(op.dryRun, verification)));
        Save(r, Sealing(Passes(op.dryRun, verification)), last);
        LeadsOn(old(trace), before, trace, m, last, last);
      }
    }

    /** `resume`: load the journal, check that the operation can go on, and run it again. */
    method Resume(mode: string, evaluate: Action -> Verdict, verification: Verification)
      returns (r: Option<Operation>, exit: Exit, ghost picked: seq<Action>, ghost fwd: seq<Receipt>, ghost undone: seq<Receipt>)
      requires Valid()
      modifies this
      ensures Valid()
      ensures ResumeError(old(journal)).Some? ==>
        exit == Raised(ResumeError(old(journal)).value) && r == None
        && journal == old(journal) && calls == old(calls) && trace == old(trace)
      ensures ResumeError(old(journal)).None? ==>
        var op := old(journal).value;
        && r.Some? && Leads(old(trace), trace, At(op), At(r.value))
        && |old(trace)| < |trace| && trace[|old(trace)|] == Saved(op.(status := Created, failure := None), Reopening)
        && r.value.receipts == op.receipts + fwd + undone
        && Records(picked, fwd) && Greedy(Judged(op.actions, evaluate), SuccessIds(op.receipts), picked)
        && Course("rollback", Judged(op.actions, evaluate), SuccessIds(op.receipts), picked, fwd, exit)
        && (!exit.Refused? && !exit.Raised? ==>
              r.value == Ending(
                TakenBack(Worked(Started(op.(status := Created, failure := None), evaluate), picked, fwd), undone),
                r.value.status, r.value.failure, r.value.certificate))
    {
      hide Leads, Step, Greedy, SuccessIds, Course, Tolerant, Loadable, UndoIds, SamePlan, Ending, TakenBack, Worked;
      picked, fwd, undone := [], [], [];
      if ResumeError(journal).Some? {
        return None, Raised(ResumeError(journal).value), [], [], [];
      }
      var op := journal.value;
      ghost var m := At(op);
      var created := op.(status := Created, failure := None);
      QuietStep(m, created, Reopening);
      Save(created, Reopening, m);
      ghost var before := trace;
      var done;
      done, exit, picked, fwd, undone := Run(created, mode, evaluate, verification, true);
      LeadsOn(old(trace), before, trace, m, m, At(done));
      LeadsExtends(before, trace, m, At(done));
      r := Some(done);
    }
  }
}
