/** The operation after each step of a run, how a failure steers the loop, and what the loop keeps. */
module RunSteps {
  import opened Basics
  import opened Operations
  import opened Journal
  import opened RunOrder
  import opened RollbackOrder
  import Sorting
  import Text

  datatype Verdict = Verdict(outcome: PolicyOutcome, checkpoint: bool)

  datatype Verification = Verification(hasConditions: bool, successful: bool, protectedViolation: bool)

  datatype Exit = Refused | Sealed | PausedAt(action: Id) | FailedAt(action: Id) | Stuck | Raised(error: Error)

  // ---- authorization ----

  function Permission(outcome: PolicyOutcome): ActionStatus {
    match outcome
    case Permit => Permitted
    case RequireApproval => NeedsApproval
    case Deny => Forbidden
  }

  function DecisionOn(a: Action, evaluate: Action -> Verdict): PolicyDecision {
    PolicyDecision(a.id, evaluate(a).outcome, evaluate(a).checkpoint)
  }

  function Decisions(actions: seq<Action>, evaluate: Action -> Verdict): seq<PolicyDecision> {
    seq(|actions|, i requires 0 <= i < |actions| => DecisionOn(actions[i], evaluate))
  }

  function Judged(actions: seq<Action>, evaluate: Action -> Verdict): seq<Action> {
    seq(|actions|, i requires 0 <= i < |actions| => actions[i].(status := Permission(evaluate(actions[i]).outcome)))
  }

  predicate Any(decisions: seq<PolicyDecision>, outcome: PolicyOutcome) {
    exists i :: 0 <= i < |decisions| && decisions[i].outcome == outcome
  }

  function AuthorizationOf(op: Operation, evaluate: Action -> Verdict): Operation {
    var decisions := Decisions(op.actions, evaluate);
    op.(
      status := if Any(decisions, Deny) then OperationStatus.Blocked
                else if Any(decisions, RequireApproval) then AwaitingApproval else Authorized,
      actions := Judged(op.actions, evaluate), decisions := decisions)
  }

  /** Execution starts only if every action is allowed; one denied action blocks the operation, whatever the others. */
  lemma AuthorizedMeansAllPermitted(op: Operation, evaluate: Action -> Verdict)
    ensures var r := AuthorizationOf(op, evaluate);
      && (r.status == Authorized <==> forall a :: a in op.actions ==> evaluate(a).outcome == Permit)
      && (r.status == OperationStatus.Blocked <==> exists a :: a in op.actions && evaluate(a).outcome == Deny)
      && SamePlan(op.actions, r.actions)
  {
    var decisions := Decisions(op.actions, evaluate);
    forall o ensures Any(decisions, o) <==> exists a :: a in op.actions && evaluate(a).outcome == o {
      if a :| a in op.actions && evaluate(a).outcome == o {
        var i :| 0 <= i < |op.actions| && op.actions[i] == a;
        assert decisions[i].outcome == o;
      }
      if i :| 0 <= i < |decisions| && decisions[i].outcome == o { assert op.actions[i] in op.actions; }
    }
    assert SamePlan(op.actions, Judged(op.actions, evaluate));
    forall a | a in op.actions && AuthorizationOf(op, evaluate).status == Authorized
      ensures evaluate(a).outcome == Permit
    {
      assert !Any(decisions, Deny) && !Any(decisions, RequireApproval);
      assert evaluate(a).outcome in {Permit, Deny, RequireApproval};
    }
  }

  // ---- the steps of one action ----

  function Begun(op: Operation, id: Id): Operation {
    op.(actions := WithStatus(op.actions, id, InProgress), current := [id])
  }

  function Checkpointed(op: Operation): Operation {
    var done := SuccessIds(op.receipts);
    op.(checkpoints := op.checkpoints + [Checkpoint(done, PlanIds(op.actions) - done)])
  }

  /** The operation as it is when an action's executor is called. */
  function Prepared(op: Operation, id: Id): Operation {
    var decision := FirstDecision(op.decisions, id);
    if decision.Some? && decision.value.checkpoint then Checkpointed(Begun(op, id)) else Begun(op, id)
  }

  function StatusFor(s: ReceiptStatus): ActionStatus {
    match s
    case RolledBack => Reverted
    case Succeeded => Done
    case AlreadySatisfied => Done
    case Skipped => Passed
    case Unsuccessful => Broken
  }

  function Settled(op: Operation, r: Receipt): Operation {
    op.(
      actions := WithStatus(op.actions, r.action, StatusFor(r.status)), receipts := op.receipts + [r],
      current := Filter(op.current, (id: Id) => id != r.action))
  }

  /** The operation after these actions were taken and these receipts recorded for them. */
  function Worked(op: Operation, picked: seq<Action>, fwd: seq<Receipt>): Operation
    requires |picked| == |fwd|
  {
    if picked == [] then op
    else
      var n := |picked| - 1;
      Settled(Prepared(Worked(op, picked[..n], fwd[..n]), picked[n].id), fwd[n])
  }

  lemma WorkedOn(op: Operation, picked: seq<Action>, fwd: seq<Receipt>, a: Action, r: Receipt)
    requires |picked| == |fwd|
    ensures Worked(op, picked + [a], fwd + [r]) == Settled(Prepared(Worked(op, picked, fwd), a.id), r)
    ensures Worked(op, [], []) == op
  {
    hide Settled, Prepared;
    assert (picked + [a])[..|picked|] == picked && (fwd + [r])[..|fwd|] == fwd;
  }

  /** The operation after these receipts of a rollback. */
  function TakenBack(op: Operation, undone: seq<Receipt>): Operation {
    if undone == [] then op else Settled(TakenBack(op, undone[..|undone| - 1]), undone[|undone| - 1])
  }

  lemma TakenBackOn(op: Operation, undone: seq<Receipt>, r: Receipt)
    ensures TakenBack(op, undone + [r]) == Settled(TakenBack(op, undone), r)
    ensures TakenBack(op, []) == op
  {
    hide Settled;
    assert (undone + [r])[..|undone|] == undone;
  }

  /** How an operation ended: its status, failure and certificate. */
  function Ending(op: Operation, status: OperationStatus, failure: Option<Failure>, certificate: Option<Certificate>): Operation {
    op.(status := status, failure := failure, certificate := certificate)
  }

  function GuardReceipt(a: Action, at: int): Receipt {
    Receipt("receipt:" + a.id + ":idempotent", a.id, AlreadySatisfied, a.key, at, true)
  }

  function UndoAction(original: Action, typeId: Id): Action {
    Action(UndoId(original.id), typeId, {}, false,
      if Keyed(original.key) then Some("rollback:" + original.key.value) else None, None, Permitted)
  }

  function KeyOf(r: Receipt): string { if r.key.Some? then r.key.value else "" }

  /** The action's idempotency key is among the keys of earlier successes. */
  predicate AlreadyDone(a: Action, keys: set<string>) { Keyed(a.key) && a.key.value in keys }

  function FirstDecision(decisions: seq<PolicyDecision>, id: Id): (r: Option<PolicyDecision>)
    ensures r.Some? ==> r.value in decisions && r.value.action == id
    ensures r.None? ==> forall i :: 0 <= i < |decisions| ==> decisions[i].action != id
  {
    if decisions == [] then None
    else if decisions[0].action == id then Some(decisions[0]) else FirstDecision(decisions[1..], id)
  }

  lemma DecisionsCover(actions: seq<Action>, evaluate: Action -> Verdict, a: Action)
    requires a in actions
    ensures FirstDecision(Decisions(actions, evaluate), a.id).Some?
  {
    var i :| 0 <= i < |actions| && actions[i] == a;
    assert Decisions(actions, evaluate)[i].action == a.id;
  }

  // ---- how the steps move the machine ----

  /** The most severe of the decisions. */
  function Worst(decisions: seq<PolicyDecision>): PolicyOutcome {
    if Any(decisions, Deny) then Deny else if Any(decisions, RequireApproval) then RequireApproval else Permit
  }

  lemma QuietStep(m: Machine, op: Operation, note: Note)
    requires m.answer == None && op.receipts == m.receipts && Erased(op.actions) == m.plan
    requires !note.Stored? && !note.Recorded? && !note.Undone? && op.status == StatusOf(note)
    ensures Step(m, Saved(op, note)) == Some(m.(current := op.current))
  {
    hide Erased;
  }

  lemma ClearedIsOfReceipts(m: Machine, n: Machine)
    requires m.receipts == n.receipts && m.plan == n.plan
    ensures Cleared(m) == Cleared(n) && forall a :: Fresh(m, a) == Fresh(n, a)
  {
    hide SuccessIds, ReceiptIds, FulfilledKeys, Tolerant;
  }

  lemma RecordedStep(m: Machine, op: Operation, a: Action, r: Receipt)
    requires op.receipts == m.receipts && op.status == Running && r.action == a.id && r.key == a.key
    requires Erased(Settled(op, r).actions) == m.plan
    requires a.(status := Proposed) in m.plan && a.id !in SuccessIds(m.receipts) && a.deps <= Cleared(m)
    requires match m.answer
      case Some(x) => x == Answer(r, false)
      case None => r.guard && r.status == AlreadySatisfied && AlreadyDone(a, SuccessKeys(m.receipts))
    ensures var s := Settled(op, r);
      Step(m, Saved(s, Recorded(a))) == Some(m.(receipts := m.receipts + [r], current := s.current, answer := None))
  {
    hide Success, SuccessIds, SuccessKeys, Cleared, Erased;
    var after := Settled(op, r).receipts;
    assert after[..|m.receipts|] == m.receipts && after[|m.receipts|] == r;
  }

  lemma UndoneStep(m: Machine, op: Operation, r: Receipt)
    requires op.receipts == m.receipts && op.status == RollingBack && m.answer == Some(Answer(r, true))
    requires Erased(Settled(op, UndoReceipt(r)).actions) == m.plan
    ensures var s := Settled(op, UndoReceipt(r));
      Step(m, Saved(s, Undone))
        == Some(m.(receipts := m.receipts + [UndoReceipt(r)], current := s.current, answer := None))
  {
    hide UndoReceipt, Erased;
    var after := Settled(op, UndoReceipt(r)).receipts;
    assert after[..|m.receipts|] == m.receipts && after[|m.receipts|] == UndoReceipt(r);
  }

  // ---- how failures steer the loop ----

  /** The failure behaviour after these actions: the last one that a failed action named, if any did. */
  function Behaviour(start: string, picked: seq<Action>, fwd: seq<Receipt>): string
    requires |picked| == |fwd|
  {
    if picked == [] then start
    else
      var n := |picked| - 1;
      var before := Behaviour(start, picked[..n], fwd[..n]);
      if Success(fwd[n]) || picked[n].optional || picked[n].onFailure.None? then before else picked[n].onFailure.value
  }

  /** The last action failed and nothing tolerates it. */
  predicate Halts(start: string, picked: seq<Action>, fwd: seq<Receipt>)
    requires |picked| == |fwd|
  {
    picked != [] && !Success(fwd[|fwd| - 1]) && !picked[|picked| - 1].optional && Behaviour(start, picked, fwd) != "continue"
  }

  predicate Flows(start: string, picked: seq<Action>, fwd: seq<Receipt>)
    requires |picked| == |fwd|
  {
    picked == []
    || (Flows(start, picked[..|picked| - 1], fwd[..|fwd| - 1]) && !Halts(start, picked, fwd))
  }

  lemma FlowsOn(start: string, picked: seq<Action>, fwd: seq<Receipt>, a: Action, r: Receipt)
    requires |picked| == |fwd|
    ensures Behaviour(start, picked + [a], fwd + [r]) ==
      var before := Behaviour(start, picked, fwd);
      if Success(r) || a.optional || a.onFailure.None? then before else a.onFailure.value
    ensures Halts(start, picked + [a], fwd + [r]) <==>
      !Success(r) && !a.optional && Behaviour(start, picked + [a], fwd + [r]) != "continue"
    ensures Flows(start, picked + [a], fwd + [r]) <==> Flows(start, picked, fwd) && !Halts(start, picked + [a], fwd + [r])
  {
    assert (picked + [a])[..|picked|] == picked && (fwd + [r])[..|fwd|] == fwd;
  }

  /**
   The behaviour is sticky: once a failed action asked to continue, every later failure that names no behaviour of its
   own is tolerated too, although the run may have started with another behaviour.
   */
  lemma {:induction false} ContinueSticks(start: string, picked: seq<Action>, fwd: seq<Receipt>, k: nat)
    requires |picked| == |fwd| && k <= |picked| && Flows(start, picked[..k], fwd[..k])
    requires Behaviour(start, picked[..k], fwd[..k]) == "continue"
    requires forall i :: k <= i < |picked| ==> picked[i].onFailure.None?
    ensures Flows(start, picked, fwd) && Behaviour(start, picked, fwd) == "continue"
    decreases |picked|
  {
    if k == |picked| {
      assert picked[..k] == picked && fwd[..k] == fwd;
    } else {
      var n := |picked| - 1;
      assert picked[..n][..k] == picked[..k] && fwd[..n][..k] == fwd[..k];
      ContinueSticks(start, picked[..n], fwd[..n], k);
    }
  }

  lemma {:induction false} ContinueWasAsked(plan: seq<Action>, start: string, picked: seq<Action>, fwd: seq<Receipt>)
    requires |picked| == |fwd| && start != "continue" && forall k :: 0 <= k < |picked| ==> picked[k] in plan
    ensures Behaviour(start, picked, fwd) == "continue" ==> Lenient(plan)
  {
    if picked != [] { ContinueWasAsked(plan, start, picked[..|picked| - 1], fwd[..|fwd| - 1]); }
  }

  // ---- what the loop keeps ----

  ghost predicate Loop(
    plan: seq<Action>, done: set<Id>, picked: seq<Action>, pending: seq<Action>, completed: set<Id>)
  {
    && Greedy(plan, done, picked) && completed == DoneAfter(done, picked)
    && (forall a :: a in pending <==> a in plan && a.id !in completed)
    && (forall k :: 0 <= k < |picked| ==> picked[k] in plan)
  }

  function IsPending(completed: set<Id>): Action -> bool { (a: Action) => a.id !in completed }

  function ReadyAfter(completed: set<Id>): Action -> bool { (a: Action) => a.deps <= completed }

  function Except(id: Id): Action -> bool { (a: Action) => a.id != id }

  lemma LoopStarts(plan: seq<Action>, done: set<Id>)
    ensures Loop(plan, done, [], Filter(plan, IsPending(done)), done)
  {
    FilterMembers(plan, IsPending(done));
  }

  ghost predicate Earliest(ready: seq<Action>, a: Action) {
    a in ready && forall b :: b in ready ==> Text.Leq(a.id, b.id)
  }

  lemma EarliestIsFirstReady(
    plan: seq<Action>, done: set<Id>, picked: seq<Action>, pending: seq<Action>, completed: set<Id>, a: Action)
    requires Loop(plan, done, picked, pending, completed) && Earliest(Filter(pending, ReadyAfter(completed)), a)
    ensures a in pending && a in plan && a.id !in completed && a.deps <= completed
    ensures FirstReady(plan, completed, a)
  {
    hide Greedy, DoneAfter;
    FilterMembers(pending, ReadyAfter(completed));
    forall b | b in plan && IsReady(b, completed) ensures Text.Leq(a.id, b.id) {
      assert b in pending && ReadyAfter(completed)(b);
    }
  }

  lemma LoopAdvances(
    plan: seq<Action>, done: set<Id>, picked: seq<Action>, pending: seq<Action>, completed: set<Id>, a: Action)
    requires Loop(plan, done, picked, pending, completed) && FirstReady(plan, completed, a) && a in pending
    ensures Loop(plan, done, picked + [a], Filter(pending, Except(a.id)), completed + {a.id})
    ensures Greedy(plan, done, picked + [a])
    ensures |Filter(pending, Except(a.id))| < |pending|
  {
    GreedyStep(plan, done, picked, a);
    FilterMembers(pending, Except(a.id));
    FilterShortens(pending, Except(a.id), a);
    hide Greedy, DoneAfter;
  }

  lemma NoneReady(
    plan: seq<Action>, done: set<Id>, picked: seq<Action>, pending: seq<Action>, completed: set<Id>)
    requires Loop(plan, done, picked, pending, completed) && Filter(pending, ReadyAfter(completed)) == [] && pending != []
    ensures NothingReady(plan, DoneAfter(done, picked)) && !(PlanIds(plan) <= DoneAfter(done, picked))
  {
    hide Greedy, DoneAfter;
    FilterMembers(pending, ReadyAfter(completed));
    assert forall a :: a in pending ==> !ReadyAfter(completed)(a);
    var i :| 0 <= i < |plan| && plan[i] == pending[0];
    assert plan[i].id in PlanIds(plan);
  }

  lemma NonePending(plan: seq<Action>, done: set<Id>, picked: seq<Action>, completed: set<Id>)
    requires Loop(plan, done, picked, [], completed)
    ensures PlanIds(plan) <= DoneAfter(done, picked)
  {
    hide Greedy, DoneAfter;
    forall i | 0 <= i < |plan| ensures plan[i].id in completed { assert plan[i] in plan; }
  }

  /** What the loop's two sets say about the receipts. */
  ghost predicate Mirrors(m: Machine, completed: set<Id>, keys: set<string>) {
    && SuccessIds(m.receipts) <= completed <= Cleared(m)
    && FulfilledKeys(m.receipts) <= keys <= SuccessKeys(m.receipts)
  }

  lemma MirrorsAtStart(m: Machine)
    ensures Mirrors(m, SuccessIds(m.receipts), FulfilledKeys(m.receipts))
  {
    FulfilledIsSuccess(m.receipts);
  }

  lemma PickIsFresh(m: Machine, plan: seq<Action>, completed: set<Id>, keys: set<string>, a: Action)
    requires Mirrors(m, completed, keys) && a.id !in completed && a.deps <= completed
    requires a in plan && m.plan == Erased(plan)
    ensures a.(status := Proposed) in m.plan && a.id !in SuccessIds(m.receipts) && a.deps <= Cleared(m)
    ensures if AlreadyDone(a, keys) then AlreadyDone(a, SuccessKeys(m.receipts)) else Fresh(m, a)
  {
    ErasedIsSamePlan(plan);
    hide SuccessIds, FulfilledKeys, SuccessKeys, Cleared, Erased;
  }

  lemma MirrorsOn(m: Machine, n: Machine, completed: set<Id>, keys: set<string>, a: Action, r: Receipt)
    requires Mirrors(m, completed, keys) && r.action == a.id && (Success(r) || a.id in Tolerant(m.plan))
    requires n.receipts == m.receipts + [r] && n.plan == m.plan
    ensures Mirrors(n, completed + {a.id}, if Success(r) && Keyed(r.key) then keys + {KeyOf(r)} else keys)
  {
    Snoc(m.receipts, r);
    hide SuccessIds, FulfilledKeys, SuccessKeys, ReceiptIds, Tolerant;
  }

  // ---- how a run ends ----

  /** The last action taken is the one that stopped the run, under the behaviour `mood`. */
  ghost predicate StoppedBy(start: string, picked: seq<Action>, fwd: seq<Receipt>, id: Id)
    requires |picked| == |fwd|
  {
    && picked != [] && picked[|picked| - 1].id == id && Halts(start, picked, fwd)
    && Flows(start, picked[..|picked| - 1], fwd[..|fwd| - 1])
  }

  /** What the way a run ended says about the actions it took. */
  ghost predicate Course(
    start: string, plan: seq<Action>, done: set<Id>, picked: seq<Action>, fwd: seq<Receipt>, exit: Exit)
    requires |picked| == |fwd|
  {
    match exit
    case Refused => picked == []
    case Sealed => Flows(start, picked, fwd) && PlanIds(plan) <= DoneAfter(done, picked)
    case Stuck =>
      Flows(start, picked, fwd) && NothingReady(plan, DoneAfter(done, picked)) && !(PlanIds(plan) <= DoneAfter(done, picked))
    case PausedAt(id) => StoppedBy(start, picked, fwd, id) && Behaviour(start, picked, fwd) == "pause"
    case FailedAt(id) => StoppedBy(start, picked, fwd, id) && Behaviour(start, picked, fwd) != "pause"
    case Raised(_) => picked == [] || Flows(start, picked[..|picked| - 1], fwd[..|fwd| - 1])
  }

  lemma Stops(start: string, picked: seq<Action>, fwd: seq<Receipt>, a: Action, r: Receipt)
    requires |picked| == |fwd| && Flows(start, picked, fwd) && Halts(start, picked + [a], fwd + [r])
    ensures StoppedBy(start, picked + [a], fwd + [r], a.id)
  {
    assert (picked + [a])[..|picked|] == picked && (fwd + [r])[..|fwd|] == fwd;
  }

  // ---- the earliest ready action ----

  function ById(): (Action, Action) -> bool { (a: Action, b: Action) => Text.Leq(a.id, b.id) }

  lemma SortedFirst(ready: seq<Action>)
    requires ready != []
    ensures Sorting.Sort(ready, ById()) != [] && Earliest(ready, Sorting.Sort(ready, ById())[0])
  {
    var leq := ById();
    forall x, y ensures leq(x, y) || leq(y, x) { Text.LeqTotal(x.id, y.id); }
    forall x, y, z | leq(x, y) && leq(y, z) ensures leq(x, z) { Text.LeqTransitive(x.id, y.id, z.id); }
    Sorting.SortKeeps(ready, leq);
    Sorting.SortAscends(ready, leq);
    var r := Sorting.Sort(ready, leq);
    forall b | b in ready ensures Text.Leq(r[0].id, b.id) {
      var i :| 0 <= i < |r| && r[i] == b;
      Text.LeqReflexive(b.id);
      assert i > 0 ==> leq(r[0], r[i]);
    }
  }

  lemma RunStarts(start: string, plan: seq<Action>, done: set<Id>)
    ensures Records([], []) && Flows(start, [], []) && Behaviour(start, [], []) == start
  {
  }

  lemma StoppedCourse(
    start: string, plan: seq<Action>, done: set<Id>, picked: seq<Action>, fwd: seq<Receipt>, id: Id, exit: Exit)
    requires |picked| == |fwd| && StoppedBy(start, picked, fwd, id)
    requires exit == if Behaviour(start, picked, fwd) == "pause" then PausedAt(id) else FailedAt(id)
    ensures Course(start, plan, done, picked, fwd, exit)
  {
  }

  lemma OpenCourse(start: string, plan: seq<Action>, done: set<Id>, picked: seq<Action>, fwd: seq<Receipt>, exit: Exit)
    requires |picked| == |fwd| && Flows(start, picked, fwd)
    requires match exit
      case Stuck => NothingReady(plan, DoneAfter(done, picked)) && !(PlanIds(plan) <= DoneAfter(done, picked))
      case Sealed => PlanIds(plan) <= DoneAfter(done, picked)
      case Raised(_) => true
      case _ => false
    ensures Course(start, plan, done, picked, fwd, exit)
  {
    hide Halts, Behaviour, NothingReady, PlanIds, DoneAfter;
  }

  lemma RecordsOn(picked: seq<Action>, fwd: seq<Receipt>, a: Action, r: Receipt)
    requires Records(picked, fwd) && r.action == a.id && r.key == a.key
    ensures Records(picked + [a], fwd + [r])
  {
  }

  lemma PickedOf(
    plan: seq<Action>, done: set<Id>, picked: seq<Action>, pending: seq<Action>, completed: set<Id>, k: nat)
    requires Loop(plan, done, picked, pending, completed) && k < |picked|
    ensures picked[k] in plan
  {
    hide Greedy, DoneAfter;
  }

  lemma RecordsLength(picked: seq<Action>, fwd: seq<Receipt>)
    requires Records(picked, fwd)
    ensures |picked| == |fwd|
  {
  }

  /** What one turn of the loop leads to, given the action it took and the receipt it recorded for it. */
  lemma Turn(
    start: string, plan: seq<Action>, done: set<Id>, picked: seq<Action>, fwd: seq<Receipt>, pending: seq<Action>,
    completed: set<Id>, keys: set<string>, m: Machine, n: Machine, a: Action, r: Receipt)
    requires start != "continue" && m.plan == n.plan == Erased(plan) && r.action == a.id && r.key == a.key
    requires n.receipts == m.receipts + [r]
    requires Loop(plan, done, picked, pending, completed) && Mirrors(m, completed, keys)
    requires FirstReady(plan, completed, a) && a in pending && a in plan
    requires Records(picked, fwd) && |picked| == |fwd| && Flows(start, picked, fwd)
    ensures Records(picked + [a], fwd + [r]) && Greedy(plan, done, picked + [a])
    ensures |Filter(pending, Except(a.id))| < |pending|
    ensures Behaviour(start, picked + [a], fwd + [r]) ==
      if Success(r) || a.optional || a.onFailure.None? then Behaviour(start, picked, fwd) else a.onFailure.value
    ensures
      if Success(r) || a.optional || Behaviour(start, picked + [a], fwd + [r]) == "continue" then
        && Flows(start, picked + [a], fwd + [r])
        && Loop(plan, done, picked + [a], Filter(pending, Except(a.id)), completed + {a.id})
        && Mirrors(n, completed + {a.id}, if Success(r) && Keyed(r.key) then keys + {KeyOf(r)} else keys)
      else StoppedBy(start, picked + [a], fwd + [r], a.id)
  {
    hide *;
    ErasedIsSamePlan(plan);
    TolerantSamePlan(plan, Erased(plan));
    FlowsOn(start, picked, fwd, a, r);
    RecordsOn(picked, fwd, a, r);
    LoopAdvances(plan, done, picked, pending, completed, a);
    if Success(r) {
      MirrorsOn(m, n, completed, keys, a, r);
    } else if a.optional {
      ToleratedIsTolerant(plan, a);
      MirrorsOn(m, n, completed, keys, a, r);
    } else if Behaviour(start, picked + [a], fwd + [r]) == "continue" {
      forall k | 0 <= k < |picked + [a]| ensures (picked + [a])[k] in plan {
        if k < |picked| { PickedOf(plan, done, picked, pending, completed, k); }
      }
      ContinueWasAsked(plan, start, picked + [a], fwd + [r]);
      ToleratedIsTolerant(plan, a);
      MirrorsOn(m, n, completed, keys, a, r);
    } else {
      Stops(start, picked, fwd, a, r);
    }
  }

  lemma LoopIsGreedy(
    plan: seq<Action>, done: set<Id>, picked: seq<Action>, pending: seq<Action>, completed: set<Id>)
    requires Loop(plan, done, picked, pending, completed)
    ensures Greedy(plan, done, picked)
  {
  }

  lemma SamePlanReflexive(plan: seq<Action>)
    ensures SamePlan(plan, plan)
  {
  }

  // ---- rollback ----

  /** Whether the checks after the actions count as passed; a dry run with nothing to check passes. */
  predicate Verified(dryRun: bool, v: Verification) {
    ((dryRun && !v.hasConditions) || v.successful) && !v.protectedViolation
  }

  /** Whether the operation is sealed as completed. */
  predicate Passes(dryRun: bool, v: Verification) { Verified(dryRun, v) || dryRun }

  function SealStatus(dryRun: bool, v: Verification): OperationStatus {
    if Passes(dryRun, v) then OperationStatus.Completed else OperationStatus.Failed
  }

  function SealCertificate(dryRun: bool, mode: string, v: Verification): Certificate {
    if dryRun || mode == "simulation" then PartiallyRecovered else if Verified(dryRun, v) then Recovered else RecoveryFailed
  }

  /** `completed` is sealed only on a passed verification or for a dry run, and a full recovery only outside both. */
  lemma SealsAreEarned(dryRun: bool, mode: string, v: Verification)
    ensures SealStatus(dryRun, v) == OperationStatus.Completed <==> dryRun || (v.successful && !v.protectedViolation)
    ensures SealCertificate(dryRun, mode, v) == Recovered <==>
      !dryRun && mode != "simulation" && v.successful && !v.protectedViolation
    ensures SealCertificate(dryRun, mode, v) == PartiallyRecovered <==> dryRun || mode == "simulation"
    ensures SealStatus(dryRun, v) == StatusOf(Sealing(Passes(dryRun, v)))
    ensures SealCertificate(dryRun, mode, v) in {Recovered, PartiallyRecovered, RecoveryFailed}
  {
  }

  /** The failure behaviour a run starts with. */
  function Mood(rollbackOnFailure: bool): string { if rollbackOnFailure then "rollback" else "stop" }

  lemma CourseAfterError(
    start: string, plan: seq<Action>, done: set<Id>, picked: seq<Action>, fwd: seq<Receipt>, exit: Exit, e: Error)
    requires |picked| == |fwd| && Course(start, plan, done, picked, fwd, exit)
    ensures Course(start, plan, done, picked, fwd, Raised(e))
  {
    hide NothingReady, PlanIds, DoneAfter, Halts, Behaviour;
  }

  lemma NothingTaken(start: string, plan: seq<Action>, done: set<Id>, e: Error)
    ensures Records([], []) && Greedy(plan, done, [])
    ensures Course(start, plan, done, [], [], Raised(e)) && Course(start, plan, done, [], [], Refused)
  {
  }

  /** What a rollback has recorded by the time it has worked its way down to the i-th completed receipt. */
  ghost predicate UndoneDownTo(
    plan: seq<Action>, catalog: Catalog, completed: seq<Receipt>, i: nat, undone: seq<Receipt>)
    requires i <= |completed|
  {
    && ActionsOf(undone) == UndoIds(plan, catalog, completed[i..])
    && forall u :: u in undone ==> u.status in {RolledBack, Unsuccessful}
  }

  lemma UndoStarts(plan: seq<Action>, catalog: Catalog, completed: seq<Receipt>)
    ensures UndoneDownTo(plan, catalog, completed, |completed|, [])
  {
    assert completed[|completed|..] == [];
  }

  lemma UndoSkips(plan: seq<Action>, catalog: Catalog, completed: seq<Receipt>, i: nat, undone: seq<Receipt>)
    requires i < |completed| && UndoneDownTo(plan, catalog, completed, i + 1, undone)
    requires !Undoable(plan, catalog, completed[i])
    ensures UndoneDownTo(plan, catalog, completed, i, undone)
  {
    UndoOne(plan, catalog, completed, i);
    hide UndoIds, Undoable;
    assert UndoIds(plan, catalog, completed[i + 1..]) + [] == UndoIds(plan, catalog, completed[i + 1..]);
  }

  lemma UndoRecords(
    plan: seq<Action>, catalog: Catalog, completed: seq<Receipt>, i: nat, undone: seq<Receipt>, u: Receipt)
    requires i < |completed| && UndoneDownTo(plan, catalog, completed, i + 1, undone)
    requires Undoable(plan, catalog, completed[i])
    requires u.action == UndoId(completed[i].action) && u.status in {RolledBack, Unsuccessful}
    ensures UndoneDownTo(plan, catalog, completed, i, undone + [u])
  {
    UndoOne(plan, catalog, completed, i);
    hide UndoIds, Undoable, UndoId;
    assert ActionsOf(undone + [u]) == ActionsOf(undone) + [u.action];
  }

  /** The completed receipt's action can be taken back, read off the plan as it is during the rollback. */
  lemma UndoableNow(plan: seq<Action>, now: seq<Action>, catalog: Catalog, rs: seq<Receipt>, i: nat)
    requires SamePlan(plan, now) && i < |Filter(rs, IsCompleted())|
    ensures var r := Filter(rs, IsCompleted())[i];
      && (Undoable(plan, catalog, r) <==>
           var original := Find(now, r.action);
           original.Some? && original.value.typeId in catalog && catalog[original.value.typeId].rollback.Some?)
      && (Find(now, r.action).Some? ==> Find(now, r.action).value.id == r.action)
  {
    var r := Filter(rs, IsCompleted())[i];
    FilterMembers(rs, IsCompleted());
    assert IsCompleted()(r);
    SamePlanFind(plan, now, r.action);
  }

  lemma UndoRecorded(
    plan: seq<Action>, catalog: Catalog, rs: seq<Receipt>, completed: seq<Receipt>, i: nat, undone: seq<Receipt>)
    requires completed == Filter(rs, IsCompleted()) && i <= |completed| && UndoneDownTo(plan, catalog, completed, i, undone)
    ensures ActionsOf(undone) <= UndoIds(plan, catalog, rs)
    ensures i == 0 ==> ActionsOf(undone) == UndoIds(plan, catalog, rs)
    ensures forall u :: u in undone ==> u.status in {RolledBack, Unsuccessful}
  {
    UndoSuffix(plan, catalog, rs, completed, i);
  }

  lemma UndoReceiptIs(r: Receipt)
    ensures UndoReceipt(r) == r.(status := UndoReceipt(r).status) && UndoReceipt(r).status in {RolledBack, Unsuccessful}
  {
  }

  lemma UndoActionIs(original: Action, typeId: Id)
    ensures UndoAction(original, typeId).id == UndoId(original.id)
  {
  }

  lemma NothingUndone(catalog: Catalog, plan: seq<Action>, rs: seq<Receipt>)
    ensures ActionsOf([]) == [] && ActionsOf([]) <= UndoIds(plan, catalog, rs)
  {
  }

  lemma MoodIsNotContinue(rollbackOnFailure: bool)
    ensures Mood(rollbackOnFailure) != "continue"
  {
  }

  lemma AuthorizationIs(op: Operation, evaluate: Action -> Verdict)
    ensures var r := AuthorizationOf(op, evaluate);
      && r == op.(status := r.status, actions := Judged(op.actions, evaluate), decisions := r.decisions)
      && SamePlan(op.actions, r.actions)
      && forall a :: a in r.actions ==> FirstDecision(r.decisions, a.id).Some?
  {
    var r := AuthorizationOf(op, evaluate);
    AuthorizedMeansAllPermitted(op, evaluate);
    forall a | a in r.actions ensures FirstDecision(r.decisions, a.id).Some? {
      var i :| 0 <= i < |r.actions| && r.actions[i] == a;
      DecisionsCover(op.actions, evaluate, op.actions[i]);
    }
  }

  lemma {:induction false} UndoIdsSamePlan(a: seq<Action>, b: seq<Action>, catalog: Catalog, rs: seq<Receipt>)
    requires SamePlan(a, b)
    ensures UndoIds(a, catalog, rs) == UndoIds(b, catalog, rs)
  {
    if rs != [] {
      UndoIdsSamePlan(a, b, catalog, rs[1..]);
      SamePlanFind(a, b, rs[0].action);
    }
  }

  // ---- resumption ----

  /** Why a stored operation cannot be resumed. */
  function ResumeError(journal: Option<Operation>): Option<Error> {
    if journal.None? then Some(FileNotFoundError)
    else if !Loadable(journal.value) then Some(ValueError)
    else if journal.value.status !in {Paused, OperationStatus.Failed, AwaitingApproval, Authorized, Running} then Some(ValueError)
    else None
  }

  /** Status, failure and certificate do not matter to what a rollback does. */
  lemma {:induction false} TakenBackEnding(
    op: Operation, undone: seq<Receipt>, status: OperationStatus, failure: Option<Failure>, certificate: Option<Certificate>)
    ensures TakenBack(Ending(op, status, failure, certificate), undone)
      == Ending(TakenBack(op, undone), status, failure, certificate)
  {
    if undone != [] {
      TakenBackEnding(op, undone[..|undone| - 1], status, failure, certificate);
      hide WithStatus, Filter, StatusFor;
    }
  }

  lemma {:induction false} WorkedKeeps(op: Operation, picked: seq<Action>, fwd: seq<Receipt>)
    requires |picked| == |fwd|
    ensures Worked(op, picked, fwd).certificate == op.certificate && Worked(op, picked, fwd).failure == op.failure
  {
    if picked != [] {
      WorkedKeeps(op, picked[..|picked| - 1], fwd[..|fwd| - 1]);
      hide WithStatus, Filter, StatusFor, PlanIds, SuccessIds, FirstDecision;
    }
  }

  lemma EndingIs(op: Operation, status: OperationStatus, failure: Option<Failure>, certificate: Option<Certificate>)
    ensures Ending(op, status, failure, certificate)
      == op.(status := status, failure := failure, certificate := certificate)
    ensures Ending(op, op.status, op.failure, op.certificate) == op
  {
  }

  /** The operation when its loop starts. */
  function Started(op: Operation, evaluate: Action -> Verdict): Operation {
    AuthorizationOf(op, evaluate).(status := Running)
  }

  lemma StartedIs(op: Operation, evaluate: Action -> Verdict)
    ensures Started(op, evaluate) == AuthorizationOf(op, evaluate).(status := Running)
    ensures Started(op, evaluate).certificate == op.certificate
  {
  }

  lemma NothingWorked(op: Operation)
    ensures Worked(op, [], []) == op && TakenBack(op, []) == op
  {
  }

  lemma SettledEnding(
    op: Operation, r: Receipt, status: OperationStatus, failure: Option<Failure>, certificate: Option<Certificate>)
    ensures Settled(Ending(op, status, failure, certificate), r) == Ending(Settled(op, r), status, failure, certificate)
  {
    hide WithStatus, Filter, StatusFor;
  }
}
