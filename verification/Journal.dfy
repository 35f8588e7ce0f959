/**
 The history of one operation across runs, crashes and resumptions: what was written to its durable journal and what
 was handed to an executor, in order. `Track` replays a history and rejects it at the first step that repeats
 recorded work or records something that did not happen.
 */
module Journal {
  import opened Basics
  import opened Operations

  /** What a journal write is for. `Stored` marks what the store held to begin with. */
  datatype Note =
    | Stored | Reopening | Authorizing(worst: PolicyOutcome) | Starting | Marking | Recorded(action: Action)
    | Tolerating | Pausing | Undone | EndingRollback | Failing | Sealing(passed: bool)

  /** The status that the operation has on disk after such a write. */
  function StatusOf(note: Note): OperationStatus
    requires !note.Stored?
  {
    match note
    case Reopening => Created
    case Authorizing(worst) =>
      (match worst
       case Permit => Authorized
       case RequireApproval => AwaitingApproval
       case Deny => OperationStatus.Blocked)
    case Pausing => Paused
    case Undone => RollingBack
    case EndingRollback => OperationStatus.Failed
    case Failing => OperationStatus.Failed
    case Sealing(passed) => if passed then OperationStatus.Completed else OperationStatus.Failed
    case _ => Running
  }

  datatype Entry =
    | Saved(op: Operation, note: Note)
    | Invoked(action: Action, undo: bool, result: Option<Receipt>)
    | Crashed

  /** What an executor last answered, and whether it was asked to take an action back. */
  datatype Answer = Answer(receipt: Receipt, undo: bool)

  /**
   The journaled receipts and current actions, the executor's answer that is not journaled yet, and the plan up to the
   actions' statuses.
   */
  datatype Machine = Machine(receipts: seq<Receipt>, current: seq<Id>, answer: Option<Answer>, plan: seq<Action>)

  /** The machine that stands at an operation, nothing executed since. */
  function At(op: Operation): Machine { Machine(op.receipts, op.current, None, Erased(op.actions)) }

  predicate AddsOne(before: seq<Receipt>, after: seq<Receipt>) {
    |after| == |before| + 1 && after[..|before|] == before
  }

  /** The actions a dependent may build on: the successful ones, and the tolerated ones that were at least tried. */
  ghost function Cleared(m: Machine): set<Id> { SuccessIds(m.receipts) + ReceiptIds(m.receipts) * Tolerant(m.plan) }

  /**
   The receipt that may be recorded for `a`: the executor's last answer, or without one the idempotency guard's, and
   that one only under a key that an earlier successful receipt carries.
   */
  predicate Justified(m: Machine, a: Action, r: Receipt) {
    && r.action == a.id && r.key == a.key
    && match m.answer
       case Some(x) => !x.undo && r == x.receipt
       case None => r.guard && r.status == AlreadySatisfied && Keyed(a.key) && a.key.value in SuccessKeys(m.receipts)
  }

  /** The receipt of an undo: what the executor answered, as taken back if it completed and as failed otherwise. */
  function UndoReceipt(r: Receipt): Receipt { r.(status := if r.status == Succeeded then RolledBack else Unsuccessful) }

  /** The action is the plan's and due, and neither it nor its key is recorded as done. */
  ghost predicate Fresh(m: Machine, a: Action) {
    && a.(status := Proposed) in m.plan && a.id !in SuccessIds(m.receipts) && a.deps <= Cleared(m)
    && (Keyed(a.key) ==> a.key.value !in FulfilledKeys(m.receipts))
  }

  /** An executor may be asked again only after a failed answer about the same action. */
  predicate MayAsk(m: Machine, a: Action, undo: bool) {
    m.answer.Some? ==> !Success(m.answer.value.receipt) && m.answer.value.undo == undo && m.answer.value.receipt.action == a.id
  }

  /** Every write keeps the plan and carries the status it stands for. */
  predicate Proper(m: Machine, op: Operation, note: Note) {
    !note.Stored? && op.status == StatusOf(note) && Erased(op.actions) == m.plan
  }

  /** The write adds the receipt of an action of the plan that is due and that the executor or the guard answers for. */
  ghost predicate RecordsOne(m: Machine, op: Operation, a: Action) {
    && AddsOne(m.receipts, op.receipts) && Justified(m, a, op.receipts[|m.receipts|])
    && a.(status := Proposed) in m.plan && a.id !in SuccessIds(m.receipts) && a.deps <= Cleared(m)
  }

  /** The write adds the receipt of the undo that the executor has just answered for. */
  predicate RecordsUndo(m: Machine, op: Operation) {
    && AddsOne(m.receipts, op.receipts) && m.answer.Some? && m.answer.value.undo
    && op.receipts[|m.receipts|] == UndoReceipt(m.answer.value.receipt)
  }

  ghost predicate Allowed(m: Machine, op: Operation, note: Note) {
    && Proper(m, op, note)
    && match note
       case Recorded(a) => RecordsOne(m, op, a)
       case Undone => RecordsUndo(m, op)
       case _ => m.answer == None && op.receipts == m.receipts
  }

  ghost function Step(m: Machine, e: Entry): Option<Machine> {
    match e
    case Saved(op, note) =>
      if Allowed(m, op, note) then Some(m.(receipts := op.receipts, current := op.current, answer := None)) else None
    case Invoked(a, undo, result) =>
      if MayAsk(m, a, undo) && (undo || (Fresh(m, a) && m.current == [a.id]))
         && (result.Some? ==> result.value.action == a.id && result.value.key == a.key && !result.value.guard)
      then Some(m.(answer := if result.Some? then Some(Answer(result.value, undo)) else None)) else None
    case Crashed => Some(m.(answer := None))
  }

  ghost function Track(m: Machine, es: seq<Entry>): Option<Machine> {
    if es == [] then Some(m)
    else
      var before := Track(m, es[..|es| - 1]);
      if before.Some? then Step(before.value, es[|es| - 1]) else None
  }

  lemma TrackOne(m: Machine, es: seq<Entry>, e: Entry)
    ensures Track(m, es + [e]) == if Track(m, es).Some? then Step(Track(m, es).value, e) else None
  {
    assert (es + [e])[..|es|] == es;
  }

  /** A history cut off anywhere, as a crash does, is a history. */
  lemma {:induction false} PrefixesTrack(m: Machine, es: seq<Entry>, k: nat)
    requires k <= |es| && Track(m, es).Some?
    ensures Track(m, es[..k]).Some?
    decreases |es|
  {
    if k < |es| {
      assert es[..|es| - 1][..k] == es[..k];
      PrefixesTrack(m, es[..|es| - 1], k);
    } else {
      assert es[..k] == es;
    }
  }

  /** Histories compose: what happens after a crash continues from what was journaled before it. */
  lemma {:induction false} Continue(m: Machine, es: seq<Entry>, more: seq<Entry>)
    requires Track(m, es).Some?
    ensures Track(m, es + more) == Track(Track(m, es).value, more)
    decreases |more|
  {
    if more == [] {
      assert es + more == es;
    } else {
      var n := |more| - 1;
      assert (es + more)[..|es + more| - 1] == es + more[..n];
      Continue(m, es, more[..n]);
    }
  }

  /** The operation as last saved. */
  function LastSaved(es: seq<Entry>): Option<Operation> {
    if es == [] then None
    else if es[|es| - 1].Saved? then Some(es[|es| - 1].op)
    else LastSaved(es[..|es| - 1])
  }

  /** What a resumption loads after these entries, if `op` was on disk before them. */
  function OnDisk(op: Operation, es: seq<Entry>): Operation {
    var last := LastSaved(es);
    if last.Some? then last.value else op
  }

  lemma {:induction false} JournalHoldsTheState(op: Operation, es: seq<Entry>)
    requires Track(At(op), es).Some?
    ensures var n := Track(At(op), es).value; At(OnDisk(op, es)) == n.(answer := None)
  {
    if es != [] {
      JournalHoldsTheState(op, es[..|es| - 1]);
      hide MayAsk, Fresh, RecordsOne, RecordsUndo;
    }
  }

  // ---- interruptions ----

  /** The entries of attempts each of which died after its last entry. */
  function Session(attempts: seq<seq<Entry>>): seq<Entry> {
    if attempts == [] then []
    else Session(attempts[..|attempts| - 1]) + attempts[|attempts| - 1] + [Crashed]
  }

  /** The life of an operation: each attempt starts from what the one before it left on disk. */
  ghost predicate Lifetime(op: Operation, attempts: seq<seq<Entry>>) {
    attempts == []
    || (var n := |attempts| - 1;
        Lifetime(op, attempts[..n]) && Track(At(OnDisk(op, Session(attempts[..n]))), attempts[n]).Some?)
  }

  /** However often an operation is interrupted and taken up again, the whole is one history. */
  lemma {:induction false} LifetimesAreHistories(op: Operation, attempts: seq<seq<Entry>>)
    requires Lifetime(op, attempts)
    ensures Track(At(op), Session(attempts)).Some? && Track(At(op), Session(attempts)).value.answer == None
  {
    if attempts != [] {
      hide Step, At, OnDisk;
      var n := |attempts| - 1;
      var before, last := Session(attempts[..n]), attempts[n];
      LifetimesAreHistories(op, attempts[..n]);
      JournalHoldsTheState(op, before);
      Continue(At(op), before, last);
      TrackOne(At(op), before + last, Crashed);
      CrashStep(Track(At(op), before + last).value);
    } else {
      NothingHappened(op);
    }
  }

  lemma NothingHappened(op: Operation)
    ensures Track(At(op), []) == Some(At(op)) && At(op).answer == None
  {
  }

  lemma CrashStep(m: Machine)
    ensures Step(m, Crashed) == Some(m.(answer := None))
  {
  }

  function Invocations(es: seq<Entry>): nat {
    if es == [] then 0 else Invocations(es[..|es| - 1]) + if es[|es| - 1].Invoked? then 1 else 0
  }

  /** What happened between two moments takes the machine from `m` to `n`. */
  ghost predicate Leads(before: seq<Entry>, after: seq<Entry>, m: Machine, n: Machine) {
    before <= after && Track(m, after[|before|..]) == Some(n)
  }

  lemma LeadsNowhere(es: seq<Entry>, m: Machine)
    ensures Leads(es, es, m, m)
  {
  }

  lemma LeadsExtends(before: seq<Entry>, after: seq<Entry>, m: Machine, n: Machine)
    requires Leads(before, after, m, n)
    ensures before <= after
  {
  }

  lemma LeadsBy(es: seq<Entry>, e: Entry, m: Machine)
    requires Step(m, e).Some?
    ensures Leads(es, es + [e], m, Step(m, e).value)
  {
    hide Step;
    assert (es + [e])[|es|..] == [e];
    TrackOne(m, [], e);
    assert [] + [e] == [e];
  }

  lemma LeadsOn(a: seq<Entry>, b: seq<Entry>, c: seq<Entry>, m: Machine, n: Machine, o: Machine)
    requires Leads(a, b, m, n) && Leads(b, c, n, o)
    ensures Leads(a, c, m, o)
  {
    hide Step;
    assert c[|a|..] == b[|a|..] + c[|b|..];
    Continue(m, b[|a|..], c[|b|..]);
  }

  // ---- what every history guarantees ----

  ghost predicate OneSuccessPerKey(rs: seq<Receipt>) {
    forall i, j :: 0 <= i < j < |rs| && rs[i].status == Succeeded && rs[j].status == Succeeded && Keyed(rs[i].key) ==>
      rs[i].key != rs[j].key
  }

  ghost predicate Sound(m: Machine) {
    OneSuccessPerKey(m.receipts)
    && (m.answer.Some? && !m.answer.value.undo && Keyed(m.answer.value.receipt.key) ==>
         m.answer.value.receipt.key.value !in FulfilledKeys(m.receipts))
  }

  lemma {:induction false} SucceededIsFulfilled(rs: seq<Receipt>, i: nat)
    requires i < |rs| && Fulfils(rs[i])
    ensures rs[i].key.value in FulfilledKeys(rs)
  {
    if i < |rs| - 1 {
      assert rs[..|rs| - 1][i] == rs[i];
      SucceededIsFulfilled(rs[..|rs| - 1], i);
    }
  }

  lemma StepIsSound(m: Machine, e: Entry)
    requires Sound(m) && Step(m, e).Some?
    ensures Sound(Step(m, e).value)
    ensures m.receipts <= Step(m, e).value.receipts
  {
    var n := Step(m, e).value;
    if AddsOne(m.receipts, n.receipts) {
      var rs, r := m.receipts, n.receipts[|m.receipts|];
      forall i | 0 <= i < |rs| && rs[i].status == Succeeded && r.status == Succeeded && Keyed(rs[i].key)
        ensures rs[i].key != r.key
      {
        SucceededIsFulfilled(rs, i);
      }
      assert forall i :: 0 <= i < |rs| ==> n.receipts[i] == rs[i];
    }
  }

  lemma {:induction false} HistoryIsSound(m: Machine, es: seq<Entry>)
    requires Sound(m) && Track(m, es).Some?
    ensures Sound(Track(m, es).value)
    ensures m.receipts <= Track(m, es).value.receipts
  {
    if es != [] {
      hide Sound, Step;
      HistoryIsSound(m, es[..|es| - 1]);
      StepIsSound(Track(m, es[..|es| - 1]).value, es[|es| - 1]);
    }
  }

  lemma {:induction false} SuccessIdsGrow(a: seq<Receipt>, b: seq<Receipt>)
    requires a <= b
    ensures SuccessIds(a) <= SuccessIds(b) && FulfilledKeys(a) <= FulfilledKeys(b)
    decreases |b|
  {
    if a != b {
      var n := |b| - 1;
      assert a <= b[..n];
      SuccessIdsGrow(a, b[..n]);
    }
  }

  lemma SaveSetsReceipts(m: Machine, e: Entry)
    requires e.Saved? && Step(m, e).Some?
    ensures Step(m, e).value.receipts == e.op.receipts
  {
  }

  lemma InvokedIsFresh(m: Machine, e: Entry)
    requires e.Invoked? && !e.undo && Step(m, e).Some?
    ensures Fresh(m, e.action) && m.current == [e.action.id]
  {
  }

  lemma LastStep(m: Machine, es: seq<Entry>, i: nat)
    requires i < |es| && Track(m, es).Some?
    ensures Track(m, es[..i]).Some? && Track(m, es[..i + 1]).Some?
    ensures Step(Track(m, es[..i]).value, es[i]) == Track(m, es[..i + 1])
  {
    hide Step;
    PrefixesTrack(m, es, i);
    PrefixesTrack(m, es, i + 1);
    assert es[..i + 1][..i] == es[..i];
  }

  lemma ReceiptsGrow(m: Machine, es: seq<Entry>, i: nat, j: nat)
    requires Sound(m) && Track(m, es).Some? && i <= j <= |es|
    ensures Track(m, es[..i]).Some? && Track(m, es[..j]).Some?
    ensures Sound(Track(m, es[..i]).value)
    ensures Track(m, es[..i]).value.receipts <= Track(m, es[..j]).value.receipts
  {
    hide Step, Sound, Track;
    PrefixesTrack(m, es, i);
    PrefixesTrack(m, es, j);
    HistoryIsSound(m, es[..i]);
    assert es[..j] == es[..i] + es[i..j];
    Continue(m, es[..i], es[i..j]);
    HistoryIsSound(Track(m, es[..i]).value, es[i..j]);
  }

  /**
   Crash-safe at-most-once recording. Over any history, crashes included: once a success of an action is in the
   journal, that action is never handed to an executor again, nor is any action with a key that is fulfilled there;
   and no idempotency key gets two `completed` receipts.
   */
  lemma RecordedWorkIsNotRepeated(m: Machine, es: seq<Entry>, i: nat, j: nat)
    requires Sound(m) && Track(m, es).Some?
    requires i < j < |es| && es[i].Saved? && es[j].Invoked? && !es[j].undo
    ensures es[j].action.id !in SuccessIds(es[i].op.receipts)
    ensures Keyed(es[j].action.key) ==> es[j].action.key.value !in FulfilledKeys(es[i].op.receipts)
    ensures OneSuccessPerKey(es[i].op.receipts)
  {
    hide Step, Track, Cleared;
    LastStep(m, es, i);
    LastStep(m, es, j);
    SaveSetsReceipts(Track(m, es[..i]).value, es[i]);
    InvokedIsFresh(Track(m, es[..j]).value, es[j]);
    ReceiptsGrow(m, es, i + 1, j);
    SuccessIdsGrow(es[i].op.receipts, Track(m, es[..j]).value.receipts);
  }

  /** Write-ahead: when an executor is handed an action, the journal already names that action as the current one. */
  lemma ExecutionsAreAnnounced(op: Operation, es: seq<Entry>, j: nat)
    requires Track(At(op), es).Some? && j < |es| && es[j].Invoked? && !es[j].undo
    ensures OnDisk(op, es[..j]).current == [es[j].action.id]
  {
    hide Step;
    LastStep(At(op), es, j);
    InvokedIsFresh(Track(At(op), es[..j]).value, es[j]);
    JournalHoldsTheState(op, es[..j]);
    hide Track, OnDisk;
  }

  // ---- conservation of executions ----

  /** Receipts of executions that succeeded, as opposed to the guard's. */
  function Performed(rs: seq<Receipt>): nat {
    if rs == [] then 0 else Performed(rs[..|rs| - 1]) + if Success(rs[|rs| - 1]) && !rs[|rs| - 1].guard then 1 else 0
  }

  predicate Executes(e: Entry) { e.Invoked? && !e.undo && e.result.Some? && Success(e.result.value) }

  function Executions(es: seq<Entry>): nat {
    if es == [] then 0 else Executions(es[..|es| - 1]) + if Executes(es[|es| - 1]) then 1 else 0
  }

  function Crashes(es: seq<Entry>): nat {
    if es == [] then 0 else Crashes(es[..|es| - 1]) + if es[|es| - 1].Crashed? then 1 else 0
  }

  /** An answer that reports a success and is not journaled yet. */
  function Pending(m: Machine): nat {
    if m.answer.Some? && !m.answer.value.undo && Success(m.answer.value.receipt) then 1 else 0
  }

  ghost predicate AnswersAreReal(m: Machine) { m.answer.Some? ==> !m.answer.value.receipt.guard }

  lemma StepConserves(m: Machine, e: Entry)
    requires Step(m, e).Some? && AnswersAreReal(m)
    ensures var n := Step(m, e).value;
      && AnswersAreReal(n)
      && Performed(m.receipts) + Pending(m) + (if Executes(e) then 1 else 0)
           <= Performed(n.receipts) + Pending(n) + (if e.Crashed? then 1 else 0)
      && Performed(n.receipts) + Pending(n) <= Performed(m.receipts) + Pending(m) + (if Executes(e) then 1 else 0)
  {
    var n := Step(m, e).value;
    if AddsOne(m.receipts, n.receipts) {
      assert n.receipts[..|n.receipts| - 1] == m.receipts;
    }
  }

  /**
   Every successful execution is recorded exactly once, except that each crash may lose the record of the one
   execution it interrupted: executions lie between the newly recorded ones and those plus the crashes.
   */
  lemma {:induction false} ExecutionsAreConserved(m: Machine, es: seq<Entry>)
    requires m.answer == None && Track(m, es).Some?
    ensures var n := Track(m, es).value;
      && AnswersAreReal(n)
      && Performed(n.receipts) + Pending(n) <= Performed(m.receipts) + Executions(es)
           <= Performed(n.receipts) + Pending(n) + Crashes(es)
  {
    if es != [] {
      hide Step, Performed, Executes;
      ExecutionsAreConserved(m, es[..|es| - 1]);
      StepConserves(Track(m, es[..|es| - 1]).value, es[|es| - 1]);
    }
  }
}
