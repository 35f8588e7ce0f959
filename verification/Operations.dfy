/** Operations, their plans, and the receipts that record what was executed. */
module Operations {
  import opened Basics
  import PlanGraph

  datatype OperationStatus =
    | Created | AwaitingApproval | Authorized | Running | Paused | Verifying | RollingBack
    | Completed | Failed | Cancelled | Blocked

  datatype ActionStatus =
    | Proposed | NeedsApproval | Permitted | InProgress | Done | Broken | Passed | Reverted | Forbidden

  datatype ReceiptStatus = Succeeded | Unsuccessful | Skipped | AlreadySatisfied | RolledBack

  datatype Action = Action(
    id: Id, typeId: Id, deps: set<Id>, optional: bool, key: Option<string>, onFailure: Option<string>,
    status: ActionStatus)

  /** `guard` marks the receipts that the idempotency guard writes without executing anything. */
  datatype Receipt = Receipt(
    id: string, action: Id, status: ReceiptStatus, key: Option<string>, startedAt: int, guard: bool)

  datatype PolicyOutcome = Permit | Deny | RequireApproval

  datatype PolicyDecision = PolicyDecision(action: Id, outcome: PolicyOutcome, checkpoint: bool)

  datatype Checkpoint = Checkpoint(completed: set<Id>, pending: set<Id>)

  datatype Failure = GraphBlocked | ActionFailed(action: Id) | DistributedFailures(count: nat)

  datatype Certificate = Recovered | PartiallyRecovered | RecoveryFailed | RollbackCompleted

  datatype Operation = Operation(
    status: OperationStatus, dryRun: bool, actions: seq<Action>, decisions: seq<PolicyDecision>,
    receipts: seq<Receipt>, current: seq<Id>, checkpoints: seq<Checkpoint>, failure: Option<Failure>,
    certificate: Option<Certificate>)

  predicate Success(r: Receipt) { r.status in {Succeeded, AlreadySatisfied, Skipped} }

  /** A key that Python takes for true. */
  predicate Keyed(key: Option<string>) { key.Some? && key.value != "" }

  /** The actions that some receipt reports as done. */
  function SuccessIds(rs: seq<Receipt>): set<Id> {
    if rs == [] then {}
    else SuccessIds(rs[..|rs| - 1]) + if Success(rs[|rs| - 1]) then {rs[|rs| - 1].action} else {}
  }

  predicate Fulfils(r: Receipt) { r.status in {Succeeded, AlreadySatisfied} && Keyed(r.key) }

  /** The idempotency keys that count as fulfilled when a run starts. */
  function FulfilledKeys(rs: seq<Receipt>): set<string> {
    if rs == [] then {}
    else FulfilledKeys(rs[..|rs| - 1]) + if Fulfils(rs[|rs| - 1]) then {rs[|rs| - 1].key.value} else {}
  }

  /** The idempotency keys of every receipt that reports success, the skipped ones included. */
  function SuccessKeys(rs: seq<Receipt>): set<string> {
    if rs == [] then {}
    else
      SuccessKeys(rs[..|rs| - 1])
      + if Success(rs[|rs| - 1]) && Keyed(rs[|rs| - 1].key) then {rs[|rs| - 1].key.value} else {}
  }

  lemma {:induction false} FulfilledIsSuccess(rs: seq<Receipt>)
    ensures FulfilledKeys(rs) <= SuccessKeys(rs)
  {
    if rs != [] { FulfilledIsSuccess(rs[..|rs| - 1]); }
  }

  function ReceiptIds(rs: seq<Receipt>): set<Id> {
    if rs == [] then {} else ReceiptIds(rs[..|rs| - 1]) + {rs[|rs| - 1].action}
  }

  lemma Snoc(rs: seq<Receipt>, r: Receipt)
    ensures SuccessIds(rs + [r]) == SuccessIds(rs) + if Success(r) then {r.action} else {}
    ensures FulfilledKeys(rs + [r]) == FulfilledKeys(rs) + if Fulfils(r) then {r.key.value} else {}
    ensures SuccessKeys(rs + [r]) == SuccessKeys(rs) + if Success(r) && Keyed(r.key) then {r.key.value} else {}
    ensures ReceiptIds(rs + [r]) == ReceiptIds(rs) + {r.action}
  {
    assert (rs + [r])[..|rs|] == rs;
  }

  lemma {:induction false} SuccessHasReceipt(rs: seq<Receipt>)
    ensures SuccessIds(rs) <= ReceiptIds(rs)
    ensures forall id :: id in SuccessIds(rs) <==> exists r :: r in rs && Success(r) && r.action == id
  {
    if rs != [] {
      var n := |rs| - 1;
      SuccessHasReceipt(rs[..n]);
      assert rs == rs[..n] + [rs[n]];
      assert rs[n] in rs && forall r :: r in rs <==> r in rs[..n] || r == rs[n];
    }
  }

  function PlanIds(actions: seq<Action>): set<Id> { set i | 0 <= i < |actions| :: actions[i].id }

  ghost predicate UniqueIds(actions: seq<Action>) {
    forall i, j :: 0 <= i < j < |actions| ==> actions[i].id != actions[j].id
  }

  /** What the plan's data model validates besides acyclicity: identifiers are unique and dependencies known. */
  ghost predicate WellFormed(actions: seq<Action>) {
    && UniqueIds(actions)
    && (forall i, d :: 0 <= i < |actions| && d in actions[i].deps ==> d in PlanIds(actions))
  }

  ghost function Graph(actions: seq<Action>): PlanGraph.Graph
    requires UniqueIds(actions)
  {
    map i | 0 <= i < |actions| :: actions[i].id := actions[i].deps
  }

  lemma GraphAt(actions: seq<Action>, a: Action)
    requires UniqueIds(actions)
    requires a in actions
    ensures a.id in Graph(actions) && Graph(actions)[a.id] == a.deps && a.id in PlanIds(actions)
  {
    var i :| 0 <= i < |actions| && actions[i] == a;
    assert actions[i].id in Graph(actions);
  }

  lemma GraphKeys(actions: seq<Action>)
    requires UniqueIds(actions)
    ensures Graph(actions).Keys == PlanIds(actions)
  {
  }

  lemma PlanIdOf(actions: seq<Action>, id: Id) returns (a: Action)
    requires id in PlanIds(actions)
    ensures a in actions && a.id == id
  {
    var i :| 0 <= i < |actions| && actions[i].id == id;
    a := actions[i];
  }

  lemma DepsAreKnown(actions: seq<Action>, a: Action)
    requires WellFormed(actions) && a in actions
    ensures a.deps <= PlanIds(actions)
  {
    hide PlanIds;
  }

  /** A plan that passes its validation. */
  ghost predicate ValidPlan(actions: seq<Action>) { WellFormed(actions) && PlanGraph.Acyclic(Graph(actions)) }

  function Erased(actions: seq<Action>): seq<Action> {
    seq(|actions|, i requires 0 <= i < |actions| => actions[i].(status := Proposed))
  }

  /** The same plan up to the actions' statuses. */
  predicate SamePlan(a: seq<Action>, b: seq<Action>) { Erased(a) == Erased(b) }

  lemma SamePlanPointwise(a: seq<Action>, b: seq<Action>)
    ensures SamePlan(a, b) <==> |a| == |b| && forall i :: 0 <= i < |a| ==> a[i].(status := b[i].status) == b[i]
  {
    if SamePlan(a, b) {
      assert |Erased(a)| == |Erased(b)|;
      forall i | 0 <= i < |a| ensures a[i].(status := b[i].status) == b[i] {
        assert Erased(a)[i] == Erased(b)[i];
      }
    }
  }

  lemma SamePlanTransitive(a: seq<Action>, b: seq<Action>, c: seq<Action>)
    requires SamePlan(a, b) && SamePlan(b, c)
    ensures SamePlan(a, c)
  {
  }

  lemma ErasedIsSamePlan(plan: seq<Action>)
    ensures SamePlan(plan, Erased(plan)) && PlanIds(Erased(plan)) == PlanIds(plan)
    ensures forall a :: a in plan ==> a.(status := Proposed) in Erased(plan)
  {
    var e := Erased(plan);
    assert Erased(e) == e;
    forall a | a in plan ensures a.(status := Proposed) in e {
      var i :| 0 <= i < |plan| && plan[i] == a;
      assert e[i] == a.(status := Proposed);
    }
    forall i | 0 <= i < |plan| ensures e[i].id == plan[i].id {
    }
  }

  lemma SamePlanIds(a: seq<Action>, b: seq<Action>)
    requires SamePlan(a, b)
    ensures PlanIds(a) == PlanIds(b)
  {
    ErasedIsSamePlan(a);
    ErasedIsSamePlan(b);
  }

  ghost predicate Lenient(plan: seq<Action>) { exists a :: a in plan && a.onFailure == Some("continue") }

  /** The actions whose failure can be passed over: the optional ones, or all if some action says to continue. */
  ghost function Tolerant(plan: seq<Action>): set<Id> {
    set id | id in PlanIds(plan) && (Lenient(plan) || exists a :: a in plan && a.id == id && a.optional)
  }

  lemma ToleratedIsTolerant(plan: seq<Action>, a: Action)
    requires a in plan && (a.optional || Lenient(plan))
    ensures a.id in Tolerant(plan)
  {
    var i :| 0 <= i < |plan| && plan[i] == a;
    assert plan[i].id in PlanIds(plan);
  }

  /** A plan without optional actions and without `continue`: dependents then wait for successes only. */
  lemma StrictPlansTolerateNothing(plan: seq<Action>)
    requires forall a :: a in plan ==> !a.optional && a.onFailure != Some("continue")
    ensures Tolerant(plan) == {}
  {
    hide PlanIds;
  }

  lemma TolerantSamePlan(a: seq<Action>, b: seq<Action>)
    requires SamePlan(a, b)
    ensures Tolerant(a) == Tolerant(b)
  {
    TolerantWithin(a, b);
    TolerantWithin(b, a);
  }

  lemma SamePlanMember(a: seq<Action>, b: seq<Action>, x: Action) returns (y: Action)
    requires SamePlan(a, b) && x in a
    ensures y in b && x.(status := y.status) == y
  {
    SamePlanPointwise(a, b);
    var i :| 0 <= i < |a| && a[i] == x;
    y := b[i];
  }

  lemma TolerantWithin(a: seq<Action>, b: seq<Action>)
    requires SamePlan(a, b)
    ensures Tolerant(a) <= Tolerant(b)
  {
    hide SamePlan, PlanIds;
    forall id | id in Tolerant(a) ensures id in Tolerant(b) {
      var x := PlanIdOf(a, id);
      if y :| y in a && y.onFailure == Some("continue") {
        var z := SamePlanMember(a, b, y);
        var w := SamePlanMember(a, b, x);
        ToleratedIsTolerant(b, w);
      } else {
        var y :| y in a && y.id == id && y.optional;
        var z := SamePlanMember(a, b, y);
        ToleratedIsTolerant(b, z);
      }
    }
  }

  function WithStatus(actions: seq<Action>, id: Id, status: ActionStatus): seq<Action> {
    seq(|actions|, i requires 0 <= i < |actions| =>
      if actions[i].id == id then actions[i].(status := status) else actions[i])
  }

  lemma WithStatusSamePlan(actions: seq<Action>, id: Id, status: ActionStatus)
    ensures SamePlan(actions, WithStatus(actions, id, status))
  {
  }

  /** What loading an operation from its store validates. */
  predicate Loadable(op: Operation) { ReceiptIds(op.receipts) <= PlanIds(op.actions) }
}
