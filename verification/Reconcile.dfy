/** Projecting the receipts of distributed executors back into an operation. */
module Reconcile {
  import opened Basics
  import opened Operations
  import opened ReceiptMerge
  import Sorting
  import Text

  // ---- what an action's receipts make of its status ----

  function LastFor(merged: seq<Receipt>, action: Id): Option<Receipt> {
    if merged == [] then None
    else if merged[|merged| - 1].action == action then Some(merged[|merged| - 1])
    else LastFor(merged[..|merged| - 1], action)
  }

  predicate Gated(s: ActionStatus) { s in {NeedsApproval, Forbidden} }

  function NextStatus(s: ActionStatus, last: Option<Receipt>, running: bool): ActionStatus {
    if running then InProgress
    else match last
      case None => if Gated(s) then s else Permitted
      case Some(r) =>
        match r.status
        case Succeeded => Done
        case AlreadySatisfied => Done
        case Skipped => Passed
        case RolledBack => Reverted
        case Unsuccessful => Broken
  }

  function Statuses(actions: seq<Action>, merged: seq<Receipt>, current: set<Id>): seq<Action> {
    seq(|actions|, i requires 0 <= i < |actions| =>
      actions[i].(status := NextStatus(actions[i].status, LastFor(merged, actions[i].id), actions[i].id in current)))
  }

  function FailedRequired(): Action -> bool { (a: Action) => a.status == Broken && !a.optional }

  predicate AllTerminal(actions: seq<Action>) { forall a :: a in actions ==> a.status in {Done, Passed, Reverted, Broken} }

  function Overall(actions: seq<Action>): OperationStatus {
    if Filter(actions, FailedRequired()) != [] then OperationStatus.Failed
    else if AllTerminal(actions) then Verifying else Running
  }

  function FailureOf(actions: seq<Action>): Option<Failure> {
    var failed := Filter(actions, FailedRequired());
    if failed != [] then Some(DistributedFailures(|failed|)) else None
  }

  /** The operation after a projection. */
  function Project(op: Operation, batch: seq<Receipt>, current: set<Id>): Operation {
    var merged := Merged(op.receipts + batch);
    var actions := Statuses(op.actions, merged, current);
    op.(
      status := Overall(actions), actions := actions, receipts := merged, current := Text.Sorted(current),
      failure := FailureOf(actions))
  }

  // ---- the digest that recognizes a projection already made ----

  datatype Summary = Summary(receiptIds: seq<string>, current: seq<Id>, status: OperationStatus)

  function IdsOf(rs: seq<Receipt>): seq<string> { seq(|rs|, i requires 0 <= i < |rs| => rs[i].id) }

  function SummaryOf(op: Operation): Summary { Summary(IdsOf(op.receipts), op.current, op.status) }

  /** An operation with the digest of its latest projection. */
  datatype Synced = Synced(op: Operation, digest: Option<string>)

  function Reconciled(s: Synced, batch: seq<Receipt>, current: set<Id>, h: Summary -> string): Synced {
    var p := Project(s.op, batch, current);
    if s.digest == Some(h(SummaryOf(p))) then s else Synced(p, Some(h(SummaryOf(p))))
  }

  /** `reconcile_external_receipts` */
  method ReconcileExternalReceipts(s: Synced, batch: seq<Receipt>, current: set<Id>, h: Summary -> string)
    returns (r: Synced, saved: bool)
    ensures r == Reconciled(s, batch, current, h)
    ensures !saved ==> r == s
    ensures saved ==> r.digest != s.digest
  {
    hide Sorting.Sort, Text.Sorted, NextStatus, FailedRequired, AllTerminal, Filter;
    var all, values: seq<Receipt> := s.op.receipts + batch, [];
    for i := 0 to |all|
      invariant values == Values(all[..i])
    {
      assert all[..i + 1][..i] == all[..i];
      values := Put(values, all[i]);
    }
    assert all[..|all|] == all;
    var merged := Sorting.Sort(values, ByStart());
    var latest: map<Id, Receipt> := map[];
    for i := 0 to |merged|
      invariant forall id :: LastFor(merged[..i], id) == if id in latest then Some(latest[id]) else None
    {
      assert merged[..i + 1][..i] == merged[..i];
      latest := latest[merged[i].action := merged[i]];
    }
    assert merged[..|merged|] == merged;
    var actions: seq<Action> := [];
    for i := 0 to |s.op.actions|
      invariant |actions| == i && forall k :: 0 <= k < i ==> actions[k] == Statuses(s.op.actions, merged, current)[k]
    {
      var action := s.op.actions[i];
      var last := if action.id in latest then Some(latest[action.id]) else None;
      actions := actions + [action.(status := NextStatus(action.status, last, action.id in current))];
    }
    assert actions == Statuses(s.op.actions, merged, current);
    var failed := Filter(actions, FailedRequired());
    var status, failure;
    if failed != [] {
      status, failure := OperationStatus.Failed, Some(DistributedFailures(|failed|));
    } else {
      status, failure := if AllTerminal(actions) then Verifying else Running, None;
    }
    var digest := h(Summary(IdsOf(merged), Text.Sorted(current), status));
    if s.digest == Some(digest) {
      return s, false;
    }
    var updated := s.op.(
      status := status, actions := actions, receipts := merged, current := Text.Sorted(current), failure := failure);
    return Synced(updated, Some(digest)), true;
  }
}
