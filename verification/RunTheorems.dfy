/** What runs, interruptions, resumptions and rollbacks guarantee together. */
module RunTheorems {
  import opened Basics
  import opened Operations
  import opened Journal
  import opened RunOrder
  import opened RollbackOrder
  import opened RunSteps
  import PlanGraph

  // ---- crash safety ----

  /**
   Crash safety. `run` and `resume` promise that the trace they add tracks from the operation on disk, and so does any
   beginning of it. Let an operation live through any number of such attempts, each cut off after any journal write or
   executor call and taken up from what it left on disk: then no action whose success is on disk is executed again,
   nor one whose key is fulfilled there, and no key is completed twice.
   */
  lemma RecordedWorkIsNeverRepeated(op: Operation, attempts: seq<seq<Entry>>, i: nat, j: nat)
    requires OneSuccessPerKey(op.receipts) && Lifetime(op, attempts)
    requires i < j < |Session(attempts)| && Session(attempts)[i].Saved?
    requires Session(attempts)[j].Invoked? && !Session(attempts)[j].undo
    ensures var disk, a := Session(attempts)[i].op, Session(attempts)[j].action;
      && a.id !in SuccessIds(disk.receipts)
      && (Keyed(a.key) ==> a.key.value !in FulfilledKeys(disk.receipts))
      && OneSuccessPerKey(disk.receipts)
  {
    AtIsSound(op);
    hide *;
    LifetimesAreHistories(op, attempts);
    RecordedWorkIsNotRepeated(At(op), Session(attempts), i, j);
  }

  lemma AtIsSound(op: Operation)
    requires OneSuccessPerKey(op.receipts)
    ensures Sound(At(op))
  {
    hide OneSuccessPerKey;
  }

  /** A run or resumption that starts from what is on disk, cut after any of its entries, is the next attempt. */
  lemma CutRunsAreAttempts(
    op: Operation, attempts: seq<seq<Entry>>, before: seq<Entry>, after: seq<Entry>, n: Machine, k: nat)
    requires Lifetime(op, attempts) && Leads(before, after, At(OnDisk(op, Session(attempts))), n)
    requires k <= |after| - |before|
    ensures Lifetime(op, attempts + [after[|before|..][..k]])
  {
    hide Track, Session, OnDisk, At;
    PrefixesTrack(At(OnDisk(op, Session(attempts))), after[|before|..], k);
    var more := attempts + [after[|before|..][..k]];
    assert more[..|attempts|] == attempts;
  }

  /** With a valid plan the run never gets blocked: it takes every action unless one of them stops it. */
  lemma ValidPlansAreNotStuck(start: string, plan: seq<Action>, done: set<Id>, picked: seq<Action>, fwd: seq<Receipt>)
    requires ValidPlan(plan) && |picked| == |fwd|
    ensures !Course(start, plan, done, picked, fwd, Stuck)
  {
    hide ValidPlan, Greedy, Flows, PlanIds;
    if Course(start, plan, done, picked, fwd, Stuck) {
      ValidPlansAreNeverBlocked(plan, DoneAfter(done, picked));
    }
  }

  /** A plan with a cycle among its unrecorded actions never gets as far as verification. */
  lemma CyclicPlansAreNeverSealed(
    start: string, plan: seq<Action>, done: set<Id>, picked: seq<Action>, fwd: seq<Receipt>, w: seq<Id>)
    requires UniqueIds(plan) && Greedy(plan, done, picked) && |picked| == |fwd|
    requires PlanGraph.Cycle(Graph(plan), w) && Elements(w) !! done
    ensures !Course(start, plan, done, picked, fwd, Sealed)
  {
    hide UniqueIds, Greedy, PlanIds, Graph, PlanGraph.Cycle, DoneAfter, Flows;
    CyclesAreNeverFinished(plan, done, picked, w);
  }

  /** A run that reaches verification has a receipt for every action of the plan. */
  lemma SealedRunsRecordEverything(
    start: string, plan: seq<Action>, earlier: seq<Receipt>, picked: seq<Action>, fwd: seq<Receipt>, id: Id)
    requires Records(picked, fwd) && id in PlanIds(plan)
    requires Course(start, plan, SuccessIds(earlier), picked, fwd, Sealed)
    ensures exists r :: r in earlier + fwd && r.action == id
  {
    hide Flows, PlanIds;
    var done := SuccessIds(earlier);
    DoneAfterHolds(done, picked, id);
    if id in done {
      SuccessHasReceipt(earlier);
      var r :| r in earlier && Success(r) && r.action == id;
      assert r in earlier + fwd;
    } else {
      var j :| 0 <= j < |picked| && picked[j].id == id;
      assert fwd[j] in earlier + fwd;
    }
  }

  ghost predicate Strict(plan: seq<Action>) {
    forall a :: a in plan ==> !a.optional && a.onFailure != Some("continue")
  }

  lemma {:induction false} StrictFlowsSucceed(
    start: string, plan: seq<Action>, earlier: seq<Receipt>, picked: seq<Action>, fwd: seq<Receipt>)
    requires Strict(plan) && start != "continue" && Records(picked, fwd) && Flows(start, picked, fwd)
    requires forall k :: 0 <= k < |picked| ==> picked[k] in plan
    ensures DoneAfter(SuccessIds(earlier), picked) == SuccessIds(earlier + fwd)
  {
    if picked == [] {
      assert earlier + fwd == earlier;
    } else {
      var n := |picked| - 1;
      StrictFlowsSucceed(start, plan, earlier, picked[..n], fwd[..n]);
      ContinueWasAsked(plan, start, picked, fwd);
      assert earlier + fwd == (earlier + fwd[..n]) + [fwd[n]];
      Snoc(earlier + fwd[..n], fwd[n]);
      assert picked[n] in plan;
    }
  }

  /** Without optional actions and `continue`, reaching verification means that every action has succeeded. */
  lemma StrictRunsSealOnlySuccess(
    start: string, plan: seq<Action>, earlier: seq<Receipt>, picked: seq<Action>, fwd: seq<Receipt>)
    requires Strict(plan) && start != "continue" && Records(picked, fwd) && Greedy(plan, SuccessIds(earlier), picked)
    requires Course(start, plan, SuccessIds(earlier), picked, fwd, Sealed)
    ensures PlanIds(plan) <= SuccessIds(earlier + fwd)
  {
    hide Strict, Greedy, Flows, DoneAfter, PlanIds, SuccessIds;
    forall k | 0 <= k < |picked| ensures picked[k] in plan { LinearExtension(plan, SuccessIds(earlier), picked, k); }
    StrictFlowsSucceed(start, plan, earlier, picked, fwd);
  }

  lemma {:induction false} PlanIsFixed(op: Operation, es: seq<Entry>)
    requires Track(At(op), es).Some?
    ensures Track(At(op), es).value.plan == Erased(op.actions)
  {
    if es != [] {
      PlanIsFixed(op, es[..|es| - 1]);
      hide Allowed, Fresh, MayAsk, Erased;
    }
  }

  /** In such a plan no action is handed to an executor before the successes of all its dependencies are journaled. */
  lemma StrictPlansWaitForSuccess(op: Operation, es: seq<Entry>, j: nat)
    requires Strict(op.actions) && Track(At(op), es).Some?
    requires j < |es| && es[j].Invoked? && !es[j].undo
    ensures es[j].action.deps <= SuccessIds(OnDisk(op, es[..j]).receipts)
  {
    ErasedIsSamePlan(op.actions);
    TolerantSamePlan(op.actions, Erased(op.actions));
    StrictPlansTolerateNothing(op.actions);
    hide Step, Track, Tolerant, Strict, SuccessIds, ReceiptIds, Erased, OnDisk;
    LastStep(At(op), es, j);
    InvokedIsFresh(Track(At(op), es[..j]).value, es[j]);
    PlanIsFixed(op, es[..j]);
    JournalHoldsTheState(op, es[..j]);
  }

  // ---- which crash points can be resumed ----

  /** What the last journal write was for. */
  function LastNote(es: seq<Entry>): Option<Note> {
    if es == [] then None
    else if es[|es| - 1].Saved? then Some(es[|es| - 1].note)
    else LastNote(es[..|es| - 1])
  }

  /**
   The journal writes after which an operation can be taken up: any but resume's own first one, a refusal by policy,
   the undo receipts of a rollback still going on, and the sealing of a completed operation.
   */
  predicate TakesUp(note: Note) {
    match note
    case Stored => false
    case Reopening => false
    case Authorizing(worst) => worst != Deny
    case Undone => false
    case Sealing(passed) => !passed
    case _ => true
  }

  predicate ForeignUndo(plan: seq<Action>, e: Entry) {
    e.Saved? && e.note.Undone? && e.op.receipts != [] && e.op.receipts[|e.op.receipts| - 1].action !in PlanIds(plan)
  }

  /** No undo receipt was recorded that names an action outside the plan. */
  predicate NoForeignUndo(plan: seq<Action>, es: seq<Entry>) {
    es == [] || (NoForeignUndo(plan, es[..|es| - 1]) && !ForeignUndo(plan, es[|es| - 1]))
  }

  lemma ErasedMember(plan: seq<Action>, a: Action)
    requires a.(status := Proposed) in Erased(plan)
    ensures a.id in PlanIds(plan)
  {
    var i :| 0 <= i < |plan| && Erased(plan)[i] == a.(status := Proposed);
    assert plan[i].id == a.id;
  }

  lemma OneMoreKnown(plan: seq<Action>, m: Machine, e: Entry)
    requires m.plan == Erased(plan) && Step(m, e).Some?
    ensures var n := Step(m, e).value;
      n.plan == m.plan
      && (ReceiptIds(n.receipts) <= PlanIds(plan) <==> ReceiptIds(m.receipts) <= PlanIds(plan) && !ForeignUndo(plan, e))
  {
    var n := Step(m, e).value;
    if AddsOne(m.receipts, n.receipts) {
      var rs := n.receipts;
      assert rs[..|rs| - 1] == m.receipts;
      if e.Saved? && e.note.Recorded? { ErasedMember(plan, e.note.action); }
    }
    hide PlanIds, Erased, SuccessIds, Cleared, Fresh, MayAsk;
  }

  lemma {:induction false} ReceiptsAreKnown(op: Operation, es: seq<Entry>)
    requires Track(At(op), es).Some?
    ensures var n := Track(At(op), es).value;
      n.plan == Erased(op.actions)
      && (ReceiptIds(n.receipts) <= PlanIds(op.actions) <==> Loadable(op) && NoForeignUndo(op.actions, es))
  {
    hide Step, PlanIds, ReceiptIds, Erased, ForeignUndo;
    if es != [] {
      var n := |es| - 1;
      ReceiptsAreKnown(op, es[..n]);
      OneMoreKnown(op.actions, Track(At(op), es[..n]).value, es[n]);
    }
  }

  lemma {:induction false} StatusOnDisk(op: Operation, es: seq<Entry>)
    requires Track(At(op), es).Some?
    ensures LastNote(es).None? ==> OnDisk(op, es) == op
    ensures LastNote(es).Some? ==> !LastNote(es).value.Stored? && OnDisk(op, es).status == StatusOf(LastNote(es).value)
  {
    if es != [] {
      StatusOnDisk(op, es[..|es| - 1]);
      hide StatusOf, Fresh, MayAsk, RecordsOne, RecordsUndo, Erased;
    }
  }

  /** The statuses from which an operation can be resumed. */
  predicate Open(status: OperationStatus) {
    status in {Paused, OperationStatus.Failed, AwaitingApproval, Authorized, Running}
  }

  lemma OpenNotes(note: Note)
    requires !note.Stored?
    ensures Open(StatusOf(note)) <==> TakesUp(note)
  {
  }

  /**
   The crash points from which an operation can be resumed, for every cut of every run, resumption and life of it: the
   operation loaded to begin with, no undo receipt for an action outside the plan is on disk, and the last journal
   write is one of those after which it can be taken up.
   */
  lemma ResumableExactly(op: Operation, es: seq<Entry>, k: nat)
    requires Track(At(op), es).Some? && k <= |es|
    ensures ResumeError(Some(OnDisk(op, es[..k]))).None? <==>
      && Loadable(op) && NoForeignUndo(op.actions, es[..k])
      && match LastNote(es[..k])
         case Some(note) => TakesUp(note)
         case None => Open(op.status)
  {
    hide Track, PlanIds, ReceiptIds, Erased, StatusOf, NoForeignUndo, TakesUp;
    PrefixesTrack(At(op), es, k);
    var cut := es[..k];
    ReceiptsAreKnown(op, cut);
    JournalHoldsTheState(op, cut);
    StatusOnDisk(op, cut);
    SamePlanIds(op.actions, OnDisk(op, cut).actions);
    if LastNote(cut).Some? { OpenNotes(LastNote(cut).value); }
  }

  /** Resume's own first write is such a cut: an operation that could be resumed no longer can if it dies right there. */
  lemma ResumptionCutShort(op: Operation, es: seq<Entry>)
    requires ResumeError(Some(op)).None? && Track(At(op), es).Some?
    requires es != [] && es[0] == Saved(op.(status := Created, failure := None), Reopening)
    ensures ResumeError(Some(OnDisk(op, es[..1]))).Some?
  {
    ResumableExactly(op, es, 1);
    hide Track, ResumeError, OnDisk;
    assert es[..1] == [es[0]];
  }

  const PAUSED: Operation := Operation(Paused, false, [], [], [], [], [], None, None)

  /** The least operation that it happens to. */
  lemma PausedOperationIsLost()
    ensures ResumeError(Some(PAUSED)).None?
    ensures var es := [Saved(PAUSED.(status := Created, failure := None), Reopening)];
      Track(At(PAUSED), es).Some? && ResumeError(Some(OnDisk(PAUSED, es))).Some?
  {
    var e := Saved(PAUSED.(status := Created, failure := None), Reopening);
    assert Step(At(PAUSED), e).Some?;
    TrackOne(At(PAUSED), [], e);
    assert [] + [e] == [e];
    hide Step;
    ResumptionCutShort(PAUSED, [e]);
    assert [e][..1] == [e];
  }

  lemma {:induction false} ReceiptIdsConcat(a: seq<Receipt>, b: seq<Receipt>)
    ensures ReceiptIds(a + b) == ReceiptIds(a) + ReceiptIds(b)
  {
    if b == [] {
      assert a + b == a;
    } else {
      var n := |b| - 1;
      assert (a + b)[..|a + b| - 1] == a + b[..n];
      ReceiptIdsConcat(a, b[..n]);
    }
  }

  lemma {:induction false} ReceiptIdsWithin(rs: seq<Receipt>, ids: set<Id>)
    ensures ReceiptIds(rs) <= ids <==> forall r :: r in rs ==> r.action in ids
  {
    if rs != [] {
      var n := |rs| - 1;
      ReceiptIdsWithin(rs[..n], ids);
      assert rs == rs[..n] + [rs[n]];
    }
  }

  lemma TakenAreKnown(
    op: Operation, evaluate: Action -> Verdict, done: set<Id>, picked: seq<Action>, fwd: seq<Receipt>)
    requires Records(picked, fwd) && Greedy(Judged(op.actions, evaluate), done, picked)
    ensures ReceiptIds(fwd) <= PlanIds(op.actions)
  {
    AuthorizedMeansAllPermitted(op, evaluate);
    SamePlanIds(op.actions, Judged(op.actions, evaluate));
    hide Greedy, ReceiptIds, Judged, PlanIds;
    forall r | r in fwd ensures r.action in PlanIds(op.actions) {
      var k :| 0 <= k < |fwd| && fwd[k] == r;
      LinearExtension(Judged(op.actions, evaluate), done, picked, k);
      MemberId(Judged(op.actions, evaluate), picked[k]);
    }
    ReceiptIdsWithin(fwd, PlanIds(op.actions));
  }

  lemma MemberId(plan: seq<Action>, a: Action)
    requires a in plan
    ensures a.id in PlanIds(plan)
  {
    var i :| 0 <= i < |plan| && plan[i] == a;
  }

  /**
   What `run` leaves behind after a failure can be resumed if and only if the operation loaded before and every undo
   receipt names an action of the plan; undo actions get names of their own, so a rollback that did anything rules it out
   unless the plan happens to use those names.
   */
  lemma FailedRunsResume(
    op: Operation, evaluate: Action -> Verdict, r: Operation, picked: seq<Action>, fwd: seq<Receipt>, undone: seq<Receipt>)
    requires r.receipts == op.receipts + fwd + undone && SamePlan(op.actions, r.actions)
    requires Records(picked, fwd) && Greedy(Judged(op.actions, evaluate), SuccessIds(op.receipts), picked)
    requires r.status == OperationStatus.Failed
    ensures ResumeError(Some(r)).None? <==>
      Loadable(op) && forall u :: u in undone ==> u.action in PlanIds(op.actions)
  {
    hide Greedy, ReceiptIds, Judged, PlanIds, SamePlan, SuccessIds, Records;
    TakenAreKnown(op, evaluate, SuccessIds(op.receipts), picked, fwd);
    SamePlanIds(op.actions, r.actions);
    ReceiptIdsConcat(op.receipts, fwd);
    ReceiptIdsConcat(op.receipts + fwd, undone);
    ReceiptIdsWithin(undone, PlanIds(op.actions));
  }
}
