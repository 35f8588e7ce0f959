# KubeOps: a verified model of the control plane's core

KubeOps plans, authorizes, executes and audits operations on Kubernetes environments. This project models the parts of it
in which an interleaving, a crash or a cycle can go wrong, and proves what they guarantee:

- **Lease dispatcher** (`Dispatch*.dfy`): agents, tasks and leases in three dictionaries. Each call is a method of a class,
  proved equal to a state function; runs are arbitrary sequences of calls, refused ones included.
- **Fleet wave planner** (`Fleet*.dfy`): the batched topological sort, with its scheduling bound and exact cycle report.
- **Governance limiters** (`Limiter*.dfy`, `GovernanceStore.dfy`): the in-memory sliding window, the durable usage table,
  and where the two agree.
- **Audit chain** (`AuditChain.dfy`): an append-only hash chain whose head commits to the history.
- **Operation runtime** (`Operations.dfy`, `PlanGraph.dfy`, `Journal.dfy`, `Run*.dfy`, `RollbackOrder.dfy`,
  `OperationRuntime.dfy`): authorization, the dependency-ordered loop, checkpoints, pause, rollback and resumption over a
  durable journal. `Journal.dfy` replays histories of journal writes and executor calls; every method of the runtime is
  proved to extend the history soundly, whatever the executors answer.
- **Receipt reconciliation** (`ReceiptMerge.dfy`, `Reconcile*.dfy`): the projection of externally executed work.
- **Executor agents** (`Agent*.dfy`, `ExecutorAgent.dfy`): claim, execute, expire and cancel on shared tables, with every
  read and save that is not inside a transaction a step of its own.
- **JSON trees and snapshots** (`JsonTree.dfy`, `Snapshots.dfy`, `SnapshotDiff.dfy`) and the **greedy evidence planner**
  (`Evidence*.dfy`).

`Basics.dfy`, `Text.dfy` and `Sorting.dfy` hold what they share: filtering, Python's string order and its stable sort.

Conventions. Instants are integers in microseconds. Identifiers are strings. Fresh lease identifiers, nonces and the time
are parameters. Policy, executors, verification results, digests and the receipts' clock are arbitrary functions or inputs,
so every theorem holds for all of them; where a digest must not collide, the statement says so. An executor's answer is
taken to carry the identifier and key of the action it was given. Equality of field values in Python, for which 1, 1.0 and
True are the same, is an arbitrary reflexive and symmetric relation, so that NaN is not among the values. Validation that
the data models perform (identifiers unique, dependencies known, `attempt <= max_attempts`, positive limits) is assumed of
their instances. A trace or a log kept only for proofs is `ghost`.

Where the code and its documentation differ, the code is followed. An operation whose rollback has recorded anything can
not be resumed, since its journal names actions outside the plan and no longer loads; only a direct `run` of the operation
in memory would still count the old receipts. A crash between the first save of `resume` and the authorization after it
leaves a status that `resume` refuses; which crash points can be resumed is settled by `RunTheorems.ResumableExactly`. The
status `verifying` is never on disk during a run: it is set in memory and the next save already carries the outcome.
Executor agents save a cancelled task from a row read earlier, and end an execution by two saves without a transaction:
what goes wrong when a claim or a death comes between is shown, with the exact condition, in `AgentRaces.dfy` and
`AgentProgress.dfy`. The stopping condition `all_collectors` has no effect on evidence planning: an
intent's pass stops as soon as its facts are covered.

## Model

| member | source | states |
|---|---|---|
| `Dispatcher.DistributedDispatcher.RegisterAgent` | packages/kubeops_core/kubeops_core/distributed/dispatcher.py:38-55 | A known agent may come back only under the same tenant and public identity; otherwise nothing changes. The invariant is kept. |
| `Dispatcher.DistributedDispatcher.RecordHeartbeat` | packages/kubeops_core/kubeops_core/distributed/dispatcher.py:57-72 | The whole new state of the agent, with the capability set only ever growing; an unknown agent is refused without a change. |
| `Dispatcher.DistributedDispatcher.Enqueue` | packages/kubeops_core/kubeops_core/distributed/dispatcher.py:74-82 | A known task is never overwritten, and a re-enqueue under another payload hash is refused. |
| `Dispatcher.DistributedDispatcher.Dispatch` | packages/kubeops_core/kubeops_core/distributed/dispatcher.py:97-154 | Exactly one of: refusal, a task left queued, a deadline turning the task to expired, or a lease for the first of the sorted eligible agents; the whole new state in each case. |
| `Dispatcher.DistributedDispatcher.ActiveLease` | packages/kubeops_core/kubeops_core/distributed/dispatcher.py:156-163 | A live lease is returned without a change; a lease that has run out sweeps every stale lease before the call fails. |
| `Dispatcher.DistributedDispatcher.Renew` | packages/kubeops_core/kubeops_core/distributed/dispatcher.py:165-174 | Succeeds if and only if the lease is held live under its nonce; the whole new state, failing calls included. |
| `Dispatcher.DistributedDispatcher.Complete` | packages/kubeops_core/kubeops_core/distributed/dispatcher.py:176-183 | Succeeds if and only if the lease is held live under its nonce; then lease and task are decided together, otherwise only the sweep happens. |
| `Dispatcher.DistributedDispatcher.Expire` | packages/kubeops_core/kubeops_core/distributed/dispatcher.py:185-202 | One pass expires exactly the stale leases and requeues or ends exactly their tasks. |
| `DispatchRuns.EveryRunIsExclusive` | packages/kubeops_core/kubeops_core/distributed/dispatcher.py:97-202 | Lease exclusivity over every run of calls: at most one active lease a task, which is then leased and assigned to that lease's agent; every lease names a known task and agent. |
| `DispatchRuns.LeastLoadedEligibleAgent` | packages/kubeops_core/kubeops_core/distributed/dispatcher.py:119-149 | A dispatchable task is assigned if and only if some agent is eligible, and then to an eligible one with the fewest live leases, ties by identifier. |
| `DispatchRuns.CallSpends` | packages/kubeops_core/kubeops_core/distributed/dispatcher.py:143-202 | Every call leaves a task alone or strictly lowers 2*(max - attempt) + status rank; a terminal task is left alone. |
| `DispatchRuns.ChangesAreBounded` | packages/kubeops_core/kubeops_core/distributed/dispatcher.py:143-202 | However long the run, a task changes at most as often as its remaining budget allows. |
| `DispatchRuns.TerminalTasksNeverChange` | packages/kubeops_core/kubeops_core/distributed/dispatcher.py:74-183 | Completed, failed, expired and cancelled tasks never change again in any run, re-enqueue included. |
| `DispatchRuns.OnlyTheHolderDecides` | packages/kubeops_core/kubeops_core/distributed/dispatcher.py:156-183 | A task becomes completed or failed only by its current holder completing a live lease with the right nonce. |
| `DispatchRuns.ClosedLeaseIsPowerless` | packages/kubeops_core/kubeops_core/distributed/dispatcher.py:156-183 | Fencing: with an expired, released or superseded lease nothing can be completed or renewed, ever again. |
| `DispatchRuns.AtMostOneRelease` | packages/kubeops_core/kubeops_core/distributed/dispatcher.py:176-183 | At most one lease of a task is ever released. |
| `DispatchCapacity.CallKeepsCapacity` | packages/kubeops_core/kubeops_core/distributed/dispatcher.py:84-95 | A call no earlier than the one before keeps every agent within its concurrency if and only if it is not an accepted re-registration that allows less than the agent holds live. |
| `DispatchCapacity.StaysWithinExactly` | packages/kubeops_core/kubeops_core/distributed/dispatcher.py:38-95 | Over a run on time the bound holds after every call if and only if no accepted re-registration allows less than is held. |
| `DispatchCapacity.CapacityIsNeverExceeded` | packages/kubeops_core/kubeops_core/distributed/dispatcher.py:84-95 | Capacity over whole runs: with the clock not going back and no re-registration undercutting what is held, an agent's unexpired active leases never exceed its maximum, at the last call or at any later instant. |
| `DispatchCapacity.CapacityNeedsTheClock` | packages/kubeops_core/kubeops_core/distributed/dispatcher.py:84-95 | Without the nondecreasing clock the bound fails: a run in which an agent limited to one lease holds two live ones. |
| `DispatchCapacity.LoweringBreaksTheBound` | packages/kubeops_core/kubeops_core/distributed/dispatcher.py:48-55 | A run on time in which an agent that allows two leases, and holds two, registers again for one: it is then over its limit. |
| `DispatchAttempts.RunBalances` | packages/kubeops_core/kubeops_core/distributed/dispatcher.py:185-202 | The books of every task balance over every run: expired leases, attempts used and the final expiry agree. |
| `DispatchAttempts.AttemptsAreConserved` | packages/kubeops_core/kubeops_core/distributed/dispatcher.py:143-202 | A task's expired leases are exactly the attempts it has used plus one if an expiry ended it, and it gets at most max - first attempt + 1 leases ever. |
| `FleetPlan.BuildGraph` | packages/kubeops_core/kubeops_core/fleet/service.py:90-100 | The adjacency sets hold exactly the directed edges and the in-degrees count exactly the distinct prerequisites, repeated dependencies included. |
| `FleetPlan.PlanOperation` | packages/kubeops_core/kubeops_core/fleet/service.py:89-129 | Every automatic wave is a bounded batch of ready members and is full unless it takes all of them, the batches are fair, and planning goes on until nothing is ready. |
| `FleetTheorems.EveryMemberOnce` | packages/kubeops_core/kubeops_core/fleet/service.py:104-129 | Every member is in exactly one wave, once; waves hold nothing else; automatic waves hold 1 to the maximum. |
| `FleetTheorems.PrerequisitesComeFirst` | packages/kubeops_core/kubeops_core/fleet/service.py:90-115 | A planned member's prerequisites are in strictly earlier waves. |
| `FleetTheorems.ShutdownReverses` | packages/kubeops_core/kubeops_core/fleet/service.py:92-120 | A shutdown plan and any other plan of one fleet: both warn of a cycle or neither does, and a chain of dependencies without manual ordering is spread over the waves of the two in opposite directions, over at least as many waves as it has steps. |
| `FleetTheorems.WarningIsExact` | packages/kubeops_core/kubeops_core/fleet/service.py:116-120 | The warning is issued if and only if the fleet has a cycle, and names exactly the members on or reachable from one. |
| `FleetTheorems.UnplacedIsEntangled` | packages/kubeops_core/kubeops_core/fleet/service.py:101-120 | What the loops leave unplaced is on a cycle or behind one; with its converse this makes the leftover wave exact. |
| `FleetTheorems.WaveBound` | packages/kubeops_core/kubeops_core/fleet/service.py:101-115 | A fleet of n members with chains of at most L members has at most n / m + L waves. |
| `FleetTheorems.WavesAreNeeded` | packages/kubeops_core/kubeops_core/fleet/service.py:101-115 | The plan has at least as many waves as any chain has members and as n / m demands: the lower bound beside it. |
| `LimiterSpec.RateIsBounded` | packages/kubeops_core/kubeops_core/governance/limits.py:36-52 | At every instant, evaluated or not, the allowed matching requests of the last window are at most limit + burst. |
| `LimiterSpec.AllowedWhenNoReason` | packages/kubeops_core/kubeops_core/governance/limits.py:32-52 | The decision is allow if and only if no matching rate rule is used up and no matching concurrency rule is reached. |
| `LimiterSpec.RetryIsExact` | packages/kubeops_core/kubeops_core/governance/limits.py:39-41 | Retrying exactly the hinted seconds later succeeds if and only if the remaining wait was a whole number of seconds; the hint is cut down to seconds. |
| `Limiter.GovernanceLimiter.PruneAndCount` | packages/kubeops_core/kubeops_core/governance/limits.py:32-41 | The pruned buckets yield the reasons, hint and matches that counting the full log yields. |
| `Limiter.GovernanceLimiter.CheckConcurrency` | packages/kubeops_core/kubeops_core/governance/limits.py:42-47 | Exactly the matching concurrency rules are listed, and the reached ones are given as reasons. |
| `Limiter.GovernanceLimiter.Evaluate` | packages/kubeops_core/kubeops_core/governance/limits.py:15-56 | The decision equals the one computed from the full log of allowed requests, and the buckets keep tracking that log. |
| `GovernanceStore.AllowMeansFree` | control_plane/api/governance.py:36-73 | The durable decision is allow if and only if rates, concurrency and target serialization all permit it. |
| `GovernanceStore.DurableRateIsBounded` | control_plane/api/governance.py:36-55 | The rate bound of the durable limiter, at every instant and for every operation a rule applies to. |
| `GovernanceStore.JudgeKeepsRates` | control_plane/api/governance.py:36-94 | Every call keeps the usage table within all rate rules. |
| `GovernanceStore.JudgeKeepsSerial` | control_plane/api/governance.py:57-94 | Every call keeps serialized targets exclusive: no two open usages of one operation and target. |
| `GovernanceStore.MarkKeeps` | control_plane/api/governance.py:97-103 | Closing usages keeps both. |
| `GovernanceStore.WorkspaceGovernance.CheckRates` | control_plane/api/governance.py:36-55 | Exactly the rules whose window is used up give a reason, and the hint is the longest of theirs. |
| `GovernanceStore.WorkspaceGovernance.CheckLimits` | control_plane/api/governance.py:57-71 | Exactly the reached rules, and the serializing ones with an open usage of the target, give a reason. |
| `GovernanceStore.WorkspaceGovernance.Evaluate` | control_plane/api/governance.py:19-94 | The verdict and the whole new usage table, with a row inserted only for an allowed, recorded and matched call. |
| `GovernanceStore.WorkspaceGovernance.MarkTerminal` | control_plane/api/governance.py:97-103 | Exactly the open usages of the operation and target are closed, and their number is returned. |
| `LimiterAgreement.CountsAgree` | control_plane/api/governance.py:36-55 | Buckets and usage table count the same after any history in the common scope. |
| `LimiterAgreement.LimitersAgree` | control_plane/api/governance.py:36-94 | With no `*` rate rule and no target serialization in play, both limiters allow and delay the same requests of every history. |
| `LimiterAgreement.Replay` | control_plane/api/governance.py:19-94 | Both limiters, run on the same history, the one with its pruned buckets and the other with its usage table, give the same outcomes, and those of the full log. |
| `LimiterAgreement.WildcardsDisagree` | control_plane/api/governance.py:42-47 | With a `*` rule they do not: a history on which one allows and the other delays. |
| `AuditChain.AuditChain.Append` | packages/kubeops_core/kubeops_core/governance/audit.py:19-56 | The new event links to the chain, and the longer chain verifies if and only if the old one did. |
| `AuditChain.AuditChain.Verify` | packages/kubeops_core/kubeops_core/governance/audit.py:58-78 | Valid if and only if every event is in place, points at its predecessor and carries its own digest; the errors are exactly the faults, in order. |
| `AuditChain.NoFaultsMeansVerified` | packages/kubeops_core/kubeops_core/governance/audit.py:58-78 | An empty fault list is the same as every link being right. |
| `AuditChain.PrefixesVerify` | packages/kubeops_core/kubeops_core/governance/audit.py:58-78 | Every prefix of a verified chain verifies, so a truncation is not seen from inside. |
| `AuditChain.HeadCommits` | packages/kubeops_core/kubeops_core/governance/audit.py:15-78 | Two verified chains with the same head hash are identical event for event, or exhibit a digest collision. |
| `AuditChain.TamperingIsDetected` | packages/kubeops_core/kubeops_core/governance/audit.py:15-78 | Any alteration under an unchanged head is detected, unless the digest collides. |
| `PlanGraph.AssertAcyclic` | packages/kubeops_core/kubeops_core/models/planning.py:142-156 | The check passes exactly for the acyclic graphs, and when it fails the unvisited actions each wait for another one of them. |
| `PlanGraph.AcyclicHasNoKnot` | packages/kubeops_core/kubeops_core/models/planning.py:142-156 | An acyclic graph has no set of actions that all wait inside the set. |
| `PlanGraph.CycleIsKnot` | packages/kubeops_core/kubeops_core/models/planning.py:142-156 | The actions of a cycle are such a set. |
| `Journal.RecordedWorkIsNotRepeated` | packages/kubeops_core/kubeops_core/execution/runtime.py:324-354 | Over any history with crashes: an action whose success is journaled, or whose key is fulfilled there, is never handed to an executor again, and no key is completed twice. |
| `Journal.ExecutionsAreAnnounced` | packages/kubeops_core/kubeops_core/execution/runtime.py:340-342 | Write-ahead: when an executor is called, the journal already names that action as the current one. |
| `Journal.ExecutionsAreConserved` | packages/kubeops_core/kubeops_core/execution/runtime.py:532-590 | Successful executions are recorded once each, except that every crash may lose the one record it interrupted. |
| `Journal.LifetimesAreHistories` | packages/kubeops_core/kubeops_core/execution/runtime.py:490-496 | Any number of attempts, each a run or resumption cut off anywhere and taken up from what it left on disk, make one valid history, whose last state is what is on disk. |
| `RunTheorems.CutRunsAreAttempts` | packages/kubeops_core/kubeops_core/execution/runtime.py:301-456 | The trace that `run` or `resume` adds from what is on disk, cut after any journal write or executor call, is the next attempt of such a life. |
| `RunTheorems.RecordedWorkIsNeverRepeated` | packages/kubeops_core/kubeops_core/execution/runtime.py:324-354 | Crash safety, for every sequence of runs, resumptions and crashes: no action whose success is on disk, or whose key is fulfilled there, is handed to an executor again, and no key is completed twice. |
| `OperationRuntime.OperationRuntime.Authorize` | packages/kubeops_core/kubeops_core/execution/runtime.py:78-122 | Raises without a change if any action is of an unknown type or does not suit it; otherwise the whole authorized operation, journaled; the error is that of the first such action. |
| `RunSteps.AuthorizedMeansAllPermitted` | packages/kubeops_core/kubeops_core/execution/runtime.py:91-111 | Authorized if and only if every action is allowed, blocked if and only if one is denied; the plan is unchanged but for statuses. |
| `OperationRuntime.OperationRuntime.ExecuteAction` | packages/kubeops_core/kubeops_core/execution/runtime.py:532-546 | Attempts end at the first success and number at most the type's maximum; a failure means all were used; what is returned is the last answer; nothing is called if mode, type or executor forbids it. |
| `OperationRuntime.OperationRuntime.AppendReceipt` | packages/kubeops_core/kubeops_core/execution/runtime.py:548-590 | The whole operation after a receipt, journaled. |
| `OperationRuntime.OperationRuntime.Perform` | packages/kubeops_core/kubeops_core/execution/runtime.py:341-349 | One turn of the loop: journaled as current, checkpointed if asked, executed or short-cut by the idempotency guard, recorded; no executor call exactly when the key was already done. |
| `OperationRuntime.OperationRuntime.Drive` | packages/kubeops_core/kubeops_core/execution/runtime.py:330-401 | The loop ends, having taken the first ready action each time; its exit says exactly why it ended. |
| `OperationRuntime.OperationRuntime.Rollback` | packages/kubeops_core/kubeops_core/execution/runtime.py:498-530 | Undo receipts are exactly those of the undoable completed actions in reverse, each showing what its executor answered; the whole final operation; an error on the way leaves a prefix. |
| `OperationRuntime.OperationRuntime.Run` | packages/kubeops_core/kubeops_core/execution/runtime.py:301-456 | Receipts are the old ones, then those of the actions taken, then those of the rollback; order, exit, the whole final operation and what is rolled back are fixed; completed is sealed exactly for a passed verification or a dry run, and a full recovery certified exactly for a passed verification outside dry run and simulation; every save keeps the plan and carries the status of its place in the run; the history is sound for every executor and policy. |
| `OperationRuntime.OperationRuntime.Resume` | packages/kubeops_core/kubeops_core/execution/runtime.py:490-496 | Refused without a change unless the journal loads and its status is resumable; otherwise a first save as `created` and then a run from the journal, each save carrying the status of its place. |
| `RunSteps.ContinueSticks` | packages/kubeops_core/kubeops_core/execution/runtime.py:358-377 | Failure behaviour is sticky: after one failed action asked to continue, later failures that name nothing are tolerated. |
| `RunOrder.LinearExtension` | packages/kubeops_core/kubeops_core/execution/runtime.py:330-354 | The actions taken are a linear extension of the dependencies: each dependency was recorded before the run or taken strictly earlier; none is taken twice. |
| `RunOrder.OrderIsDetermined` | packages/kubeops_core/kubeops_core/execution/runtime.py:331-340 | Plan and journal alone fix the order: whatever executors answer, two runs agree for as long as both go on. |
| `RunOrder.BlockedIsKnot` | packages/kubeops_core/kubeops_core/execution/runtime.py:335-338 | When nothing is ready, the actions left each wait for another one of them. |
| `RunTheorems.ValidPlansAreNotStuck` | packages/kubeops_core/kubeops_core/execution/runtime.py:335-338 | The blocked failure is unreachable for a plan that passed its validation. |
| `RunTheorems.CyclicPlansAreNeverSealed` | packages/kubeops_core/kubeops_core/execution/runtime.py:330-414 | With a cycle among the unrecorded actions, verification is never reached. |
| `RunTheorems.SealedRunsRecordEverything` | packages/kubeops_core/kubeops_core/execution/runtime.py:330-414 | A run that reaches verification has a receipt for every action. |
| `RunTheorems.StrictRunsSealOnlySuccess` | packages/kubeops_core/kubeops_core/execution/runtime.py:350-401 | Without optional actions and `continue`, reaching verification means every action succeeded. |
| `RunTheorems.StrictPlansWaitForSuccess` | packages/kubeops_core/kubeops_core/execution/runtime.py:331-334 | In such a plan no action is executed before the successes of all its dependencies are journaled. |
| `RollbackOrder.UndoReverses` | packages/kubeops_core/kubeops_core/execution/runtime.py:500-521 | Of two undoable completed actions the later is taken back first. |
| `RollbackOrder.DependentsAreUndoneFirst` | packages/kubeops_core/kubeops_core/execution/runtime.py:330-521 | A dependent is taken back before what it depends on, whether that was completed in the same run or an earlier one. |
| `RunTheorems.ResumableExactly` | packages/kubeops_core/kubeops_core/execution/runtime.py:301-530 | Every crash point of every run, resumption and life of an operation: it can be resumed from there if and only if it loaded to begin with, no undo receipt for an action outside the plan is on disk, and the last journal write is none of: resume's own first, a refusal by policy, an undo, a completion. |
| `RunTheorems.FailedRunsResume` | packages/kubeops_core/kubeops_core/execution/runtime.py:301-530 | What `run` leaves after a failure can be resumed if and only if the operation loaded before and every undo receipt names an action of the plan. |
| `RunTheorems.PausedOperationIsLost` | packages/kubeops_core/kubeops_core/execution/runtime.py:492-495 | The input: a paused operation without actions can be resumed, but not any more after a crash right behind the first save of `resume`. |
| `Reconcile.ReconcileExternalReceipts` | packages/kubeops_core/kubeops_core/execution/runtime.py:124-207 | The loops compute the projection; nothing is saved exactly when the digest shows the projection already made. |
| `ReceiptMerge.OrderDoesNotMatter` | packages/kubeops_core/kubeops_core/execution/runtime.py:133-137 | Merging immutable receipts depends only on which there are. |
| `ReceiptMerge.MergeAgain` | packages/kubeops_core/kubeops_core/execution/runtime.py:133-134 | Merging in two steps is merging at once, also when receipts are rewritten. |
| `ReconcileTheorems.ReconcilingTwiceIsOnce` | packages/kubeops_core/kubeops_core/execution/runtime.py:171-180 | Repeating a reconcile changes nothing, whatever the operation was before. |
| `ReconcileTheorems.CallsAreOneProjection` | packages/kubeops_core/kubeops_core/execution/runtime.py:133-207 | Any run of reconciles amounts to one projection of all receipts with the last running set, but for approval gates cleared in between. |
| `ReconcileTheorems.DeliveryDoesNotMatter` | packages/kubeops_core/kubeops_core/execution/runtime.py:133-207 | Two deliveries of the same receipts, in any batches, order and repetition, end in the same operation if and only if they cleared the same approval gates. |
| `ReconcileTheorems.AuthorizedOperationsConverge` | packages/kubeops_core/kubeops_core/execution/runtime.py:133-207 | An operation without gated actions ends the same whatever the order and grouping. |
| `ReconcileTheorems.RunningClearsTheGate` | packages/kubeops_core/kubeops_core/execution/runtime.py:141-145 | A gated action that was once seen running ends authorized without an approval. |
| `ExecutorAgent.ExecutorAgents.ExpireStaleLeases` | control_plane/api/management/commands/run_executor_agent.py:138-195 | The pass equals the expiry steps of the stale, unlocked leases; the affected operations are returned; the invariant is kept. |
| `ExecutorAgent.ExecutorAgents.CancelBlockedTasks` | control_plane/api/management/commands/run_executor_agent.py:252-274 | The pass reads all queued rows and their operations at once, judges each by what the ones before have become and saves it as it was read: its steps, in order. Without interruption only queued tasks are cancelled, and no queued task of an operation that is over is left. |
| `ExecutorAgent.ExecutorAgents.ClaimNext` | control_plane/api/management/commands/run_executor_agent.py:204-226 | Claims an unlocked claimable task that none precedes in priority and age, or shows that there is none; the whole new state. |
| `ExecutorAgent.ExecutorAgents.ProcessOne` | control_plane/api/management/commands/run_executor_agent.py:199-229 | Nothing at capacity; otherwise a cancel pass and a claim. |
| `ExecutorAgent.ExecutorAgents.FinishExecution` | control_plane/api/management/commands/run_executor_agent.py:366-374 | The two saves, lease then task, from what was read at the claim; the invariant survives if the lease is still active. |
| `ExecutorAgent.ExecutorAgents.ReconcileOperation` | control_plane/api/management/commands/run_executor_agent.py:377-418 | Given the status the projection arrived at: a failed operation's queued rows are read at once and saved one by one, then the operation, in these steps; without interruption exactly its queued tasks are cancelled. |
| `AgentSafety.StepKeeps` | control_plane/api/management/commands/run_executor_agent.py:138-418 | Each step of any agent, the reads, judgements and saves of passes and the two saves of an end included, keeps the invariants, if clocks do not go back, an execution ends while its lease has not run out, and a row saved as cancelled is still queued then or cancelled already. |
| `AgentSafety.PromptEndsObey` | control_plane/api/management/commands/run_executor_agent.py:212-217 | An execution that ends less than its command timeout plus thirty seconds after its claim ends while its lease has not run out. |
| `AgentSafety.DependenciesComeFirst` | control_plane/api/management/commands/run_executor_agent.py:203-274 | Over every interleaving of such steps: a running, completed or failed task had all its dependencies completed, and they still are; no task is held by two agents, in the books or with its outcome still to be saved. |
| `AgentRaces.StepKeepsExactly` | control_plane/api/management/commands/run_executor_agent.py:138-418 | Without any assumption on time: a step keeps the invariants if and only if it is neither the first save of an end whose task is not running for its lease alone, nor the save of a cancellation whose task is held or whose completion a started task relies on alone. |
| `AgentRaces.SafeExactly` | control_plane/api/management/commands/run_executor_agent.py:138-418 | Over every run whatever its timing: no task is held by two agents and dependencies come first, at the start and after every step, if and only if every such save was harmless when it happened. |
| `AgentRaces.TimelyIsHarmless` | control_plane/api/management/commands/run_executor_agent.py:138-418 | Runs in which ends and cancellations are timely are among the safe ones. |
| `AgentRaces.LateEndExactly` | control_plane/api/management/commands/run_executor_agent.py:366-374 | An execution that ends at any time at all, its two saves back to back: nobody else holds its task afterwards if and only if no other lease does before; the order of dependencies survives if and only if the outcome fits, that is, its own dependencies are done by others and no started task relies on a completion it takes away. |
| `AgentRaces.ReleaseExactly` | control_plane/api/management/commands/run_executor_agent.py:367-370 | The first save alone, at any time and with any other late ends under way: the books stay in order if and only if the task is running for the lease and nobody else holds it; no task is touched. |
| `AgentRaces.OutcomeExactly` | control_plane/api/management/commands/run_executor_agent.py:371-374 | The second save alone, at any time and with any other late ends under way: the books are in order without this end if and only if nobody in order holds the task; dependencies stay first if and only if the outcome fits. |
| `AgentRaces.StaleCancelExactly` | control_plane/api/management/commands/run_executor_agent.py:253-274 | A cancellation saved at any time at all: no lease is left on a cancelled task if and only if none held it; the order survives if and only if no started task relies on its completion alone. |
| `AgentRaces.SlippedClaim` | control_plane/api/management/commands/run_executor_agent.py:204-274 | In every state in which a task is both claimable and to be cancelled, a claim between a pass's judgement and its save leaves an active lease on a cancelled task, every step but that save being on time. |
| `AgentTiming.TimingIsNeeded` | control_plane/api/management/commands/run_executor_agent.py:212-274 | Both assumptions are needed: a run within them after which the late end of an expired execution leaves a task running on a failed dependency, and the late save of a cancel pass leaves it on a cancelled one. |
| `AgentProgress.StepSpends` | control_plane/api/management/commands/run_executor_agent.py:138-418 | Every step that changes a task's status lowers the total weight; the others change nothing of a task but the attempt number of a cancelled one. |
| `AgentProgress.RunsAreBounded` | control_plane/api/management/commands/run_executor_agent.py:138-418 | At most as many steps that change a status as the tasks weigh, in any interleaving within the assumptions. |
| `AgentProgress.QueueMovesOn` | control_plane/api/management/commands/run_executor_agent.py:203-274 | With acyclic dependencies that all have tasks, for each task some agent that can do it, something queued and nothing running, some agent can claim a task or the next cancel pass rejects one. |
| `AgentProgress.NeverStuck` | control_plane/api/management/commands/run_executor_agent.py:138-274 | With acyclic dependencies that all have tasks, and for each task that may be claimed some agent, not always the same, that can do it: in every state that is not drained and strands no task, agents can change a task's status in at most three steps of their own. |
| `AgentProgress.QueueDrains` | control_plane/api/management/commands/run_executor_agent.py:138-274 | Under the same conditions such a state can be drained in at most three times the total weight of steps. |
| `AgentProgress.DrainableExactly` | control_plane/api/management/commands/run_executor_agent.py:138-374 | Liveness, exactly: under the same conditions on dependencies and agents the queue can be drained if and only if every running task has an active lease or an outcome still to be saved. |
| `AgentProgress.DeathIsForGood` | control_plane/api/management/commands/run_executor_agent.py:366-374 | After a process has died between the two saves at the end of an execution, the task stays running in every continuation, whatever agents do within the assumptions. |
| `JsonTree.GetPath` | packages/kubeops_core/kubeops_core/util.py:10-21 | The cursor loop reads what the path leads to, or the default, or raises. |
| `JsonTree.SplitOfJoin` | packages/kubeops_core/kubeops_core/util.py:14-27 | Splitting a joined list of dot-free keys gives the list back. |
| `JsonTree.JoinOfSplit` | packages/kubeops_core/kubeops_core/util.py:14-27 | Joining what a path was split into gives the path back. |
| `JsonTree.ReadAfterSet` | packages/kubeops_core/kubeops_core/util.py:24-35 | On lists of keys: below a written path the new value is read, apart from it everything reads as before, and on the way there are dictionaries. |
| `JsonTree.ReadAfterDelete` | packages/kubeops_core/kubeops_core/util.py:38-48 | On lists of keys: at and below a deleted path nothing is read, and apart from it everything reads as before. |
| `JsonTree.GetAfterSet` | packages/kubeops_core/kubeops_core/util.py:10-35 | On dotted paths: `get_path` returns what `set_path` wrote if and only if the path is not empty; paths of which neither leads through the other are independent. |
| `JsonTree.GetAfterDelete` | packages/kubeops_core/kubeops_core/util.py:10-48 | On dotted paths: after `delete_path` reading raises if and only if the path is not empty; the other paths are independent. |
| `JsonTree.EmptyPathIsTheWholeTree` | packages/kubeops_core/kubeops_core/util.py:12-34 | At the empty path the two differ: a write fills the key that is the empty string, a read returns the whole tree. |
| `JsonTree.DeleteUndoesSet` | packages/kubeops_core/kubeops_core/util.py:24-48 | Deleting a path that was just added restores the tree. |
| `JsonTree.MergeIsIdempotent` | packages/kubeops_core/kubeops_core/util.py:51-58 | Merging the same overlay twice equals merging it once. |
| `JsonTree.ReadAfterMerge` | packages/kubeops_core/kubeops_core/util.py:51-58 | A merge reads as the overlay where it has a leaf, as the base where the overlay lacks a key, else as nothing. |
| `Snapshots.Flatten` | packages/kubeops_core/kubeops_core/discovery/snapshot.py:20-27 | For any keys and any order of the fields: exactly the dotted paths of the leaves are listed, each with the value of some leaf there. |
| `Snapshots.FlatIsDetermined` | packages/kubeops_core/kubeops_core/discovery/snapshot.py:20-27 | Every leaf is listed with its own value, and the flat form is the only one that lists the leaves so, if and only if no two leaves that share a dotted path differ. |
| `Snapshots.CleanIsUnambiguous` | packages/kubeops_core/kubeops_core/discovery/snapshot.py:20-27 | Keys that are not empty and hold no dots are enough for that. |
| `Snapshots.DottedKeysCollide` | packages/kubeops_core/kubeops_core/discovery/snapshot.py:24-25 | A tree in which a dotted key collides with a nested one. |
| `Snapshots.FlatAgreesWithRead` | packages/kubeops_core/kubeops_core/discovery/snapshot.py:20-27 | The listed paths are exactly those at which `get_path` finds something other than a dictionary, with that value. |
| `Snapshots.LeavesAreListedOnce` | packages/kubeops_core/kubeops_core/discovery/snapshot.py:20-27 | Leaves at different places are listed under different paths. |
| `Snapshots.FlatDetermines` | packages/kubeops_core/kubeops_core/discovery/snapshot.py:20-27 | Two trees without empty dictionaries that flatten alike are the same. |
| `SnapshotDiff.ChangesAreExact` | packages/kubeops_core/kubeops_core/discovery/snapshot.py:67-73 | The field changes are exactly the paths whose values Python's equality tells apart, each once, with what is read before and after. |
| `SnapshotDiff.PatchingReproduces` | packages/kubeops_core/kubeops_core/discovery/snapshot.py:67-73 | Applying the field changes to the state before reproduces what is read after, as far as Python's equality tells values apart. |
| `SnapshotDiff.DiffReverses` | packages/kubeops_core/kubeops_core/discovery/snapshot.py:67-73 | Comparing the other way round swaps before and after, change by change. |
| `SnapshotDiff.NullIsMissing` | packages/kubeops_core/kubeops_core/discovery/snapshot.py:67-73 | A field that becomes null is not reported: null is read like a missing field. |
| `SnapshotDiff.Compare` | packages/kubeops_core/kubeops_core/discovery/snapshot.py:61-89 | A change's kind and hashes say in which snapshots the record is, and its fields are the differences of the flat forms of the bodies. |
| `SnapshotDiff.DiffSnapshots` | packages/kubeops_core/kubeops_core/discovery/snapshot.py:92-130 | Refused across environments; otherwise exactly the added, removed and differing records are described, in order, with counts. |
| `SnapshotDiff.SummaryIsExact` | packages/kubeops_core/kubeops_core/discovery/snapshot.py:113-120 | The counts are the sizes of the set differences, and account for the difference in size of the two snapshots. |
| `SnapshotDiff.RecordsDiffReverses` | packages/kubeops_core/kubeops_core/discovery/snapshot.py:92-111 | Comparing the other way round lists the same records with additions and removals exchanged. |
| `EvidencePlanner.FindCandidates` | packages/kubeops_core/kubeops_core/diagnosis/evidence.py:117-146 | The candidates in order, and which collectors are candidates. |
| `EvidencePlanner.ProvidersAreCandidates` | packages/kubeops_core/kubeops_core/diagnosis/evidence.py:123-140 | Every admissible collector that provides a required fact type is a candidate. |
| `EvidencePlanner.GreedyCoversItsReach` | packages/kubeops_core/kubeops_core/diagnosis/evidence.py:69-100 | Taking the best first and stopping when covered loses nothing within reach of what earlier copies of the intent have left. |
| `EvidencePlanner.MakePlan` | packages/kubeops_core/kubeops_core/diagnosis/evidence.py:45-115 | Steps, unresolved intents and cost of the whole plan. |
| `EvidenceTheorems.ResolvedIntentsAreAnswered` | packages/kubeops_core/kubeops_core/diagnosis/evidence.py:59-102 | Soundness: an intent not reported unresolved has each required fact type matched by an existing one or by an expected one of a step of its own. |
| `EvidenceTheorems.PlanKeepsSteps` | packages/kubeops_core/kubeops_core/diagnosis/evidence.py:104-115 | The final order of the steps does not matter for that. |
| `EvidenceTheorems.ReportIsExact` | packages/kubeops_core/kubeops_core/diagnosis/evidence.py:59-102 | For every list of intents, repeated ones included: the report lists exactly those with a required fact type that nothing existing matches and no candidate within reach provides, not counting candidates already selected for the same intent. |
| `EvidenceTheorems.TakenExactly` | packages/kubeops_core/kubeops_core/diagnosis/evidence.py:77-80 | A candidate does not count exactly when an earlier intent with the same identifier and subjects has chosen it. |
| `EvidenceTheorems.FirstCopiesLoseNothing` | packages/kubeops_core/kubeops_core/diagnosis/evidence.py:77-102 | So the first intent of its kind is judged by all candidates within reach. |
| `EvidenceTheorems.UnmetMeansNoProvider` | packages/kubeops_core/kubeops_core/diagnosis/evidence.py:59-146 | Without the early stop, being reported means that no admissible collector in the catalog, but for those chosen before, provides the type. |
| `EvidenceTheorems.EarlyStopMisses` | packages/kubeops_core/kubeops_core/diagnosis/evidence.py:97-102 | With the early stop an intent can be reported unresolved although a later candidate provides the fact. |
| `EvidenceTheorems.EarlyStopLeavesOneOut` | packages/kubeops_core/kubeops_core/diagnosis/evidence.py:59-102 | Such a plan: two facts and a collector for each, the authoritative one first, and the intent is reported. |
| `EvidenceTheorems.RepeatedIntentIsUnresolved` | packages/kubeops_core/kubeops_core/diagnosis/evidence.py:77-102 | One intent asked twice of a catalog with one collector: the first copy is resolved and the second is reported. |

## Left out

- Timestamps, event lists, titles, reasons as prose, generated identifiers of decisions and certificates: written but never
  read back by the modelled code.
- `create`, `cancel`, `pause`, `add_approval` and `verify_external`: single guarded updates with nothing to interleave.
- Policy, verification and parameter-schema internals: arbitrary functions here.
- The bodies of executors, subprocesses, the file store and the database: the store is a variable, a transaction is a step.
- OperationRuntime.OperationRuntime.Perform: checkpoints record the completed and pending actions as sets, not as lists, and
  leave out the observed world and its digest.
- `completed`, `failed` and `cancelled` operations are not claimed to be final: `run` and reconciliation do not look at the
  status they find.
- ExecutorAgent.ExecutorAgents.ReconcileOperation: the projection's outcome is an input; the projection itself is in
  `Reconcile.dfy`, and the two are not joined.
- ExecutorAgent.ExecutorAgents.ClaimNext: a claim is one step with the capacity test before it, although the test is a query
  outside the claiming transaction; two processes of one agent could both pass it.
- Completion of whole distributed operations: after an optional action fails, its dependents are cancelled without a
  receipt, so only the tasks are shown to drain.
- JsonTree.ReadAfterSet: `set_path`, `delete_path` and `deep_merge` are modelled on values; the cursor into a deep copy that
  the code updates in place, and its independence from the argument, are not.
- Snapshots.Flatten: a dictionary has no order of fields here, so where leaves at one dotted path differ it is left open
  which of them the code lists.
- Wildcard rate rules: the two limiters disagree on them, so agreement is claimed without them.
- EvidencePlanner.MakePlan: identifiers of steps come from a function, rationales are left out, and the cost is not rounded;
  it is a multiple of a quarter.
- HTTP views, migrations, permissions, the command line, the user interface, seed data, collectors, topology, scheduling,
  packs and the simulator: plumbing or foreign calls.
