# Verified model of the durable-execution kernel

The system is a runtime that executes operations through providers and records
every step in an append-only journal, so that a crash, a restart or a change of
provider neither loses nor repeats an effect. Around that core sit a workflow
compiler, extension authority, fenced leases, transactional effects, a few
journal-backed views and a small C runtime. This project models those parts in
Dafny and proves what they promise. `dafny verify dfyconfig.toml` checks all of it.

Concurrent parts are transition systems whose steps are the lock sections,
journal appends and external calls of the code; results hold in every run, under
every interleaving, with crashes anywhere. Stateful objects are classes. Their
methods perform those steps and let other callers run in between (`Interfere`),
so a method contract holds under interference too. Where a kernel contract says more
for the only caller on an operation, `mine` names the operations that others leave
alone; `alone` names the case where nobody interferes. External answers (providers, probes, hooks, the clock, failing
storage) are arbitrary; where a result depends on them they are parameters (`Answers`).

How the modules divide:

- `Journal`: the append-only table, sequential and with interleaved lock sections.
- `KernelSystem`, `KernelBase`, `KernelExactlyOnce`, `KernelRecovery`: the kernel's
  steps and what holds in every run; `KernelScript`: one execution as a straight-line
  program; `KernelRely`, `KernelPlan`, `KernelRevival`: interference, failover plans and
  recovery; `KernelRuntime`: the object; `KernelCounterexamples`; `ColonTexts`, `KeyTexts`: the texts of the kernel's idempotency keys.
- `Graphs`, `Kahn`, `Steps`, `Segments`, `Lowering`, `ParallelGroups`,
  `CriticalPath`, `Compiler`, `Scheduler`: the workflow compiler and scheduler;
  `IntelligenceGraph` shares the same topological sort.
- `Extensions`, `ExtensionKeyTexts`: admission, authorization, permits and
  revocation, and the texts of their idempotency keys.
- `Leases`, `Fencing`: leases, fencing tokens and their text form.
- `Effects`: transactional effects.
- `Semantic`, `Replay`, `StateMachine`: journal-backed views and state machines.
- `Micro`, `MicroRuntime`: frame checksums and the ring buffer of the C runtime.

## Promises the code does not keep, with their exact conditions

- Exactly-once is a promise per operation. It holds in every run in which the
  operation keeps to one workload and has at most one caller between finding no
  receipt and journaling one (`KernelExactlyOnce.ExactlyOnce`), whatever happens to
  other operations and to leases. Leases provide the second condition as long as none
  expires under a caller of the operation (`KernelExactlyOnce.ExactlyOnceInTime`).
  Both conditions are exact in this sense: at the first overlap of two callers, and
  wherever a durable receipt meets an idle second workload, the run can go on to break
  the promise (`KernelCounterexamples.FirstOverlapBreaks`, `SecondWorkloadBreaks`).
- An intent can follow a commit of its operation: another caller commits while a
  failover is about to rebind (`KernelCounterexamples.IntentCanFollowCommit`). A run is
  free of this exactly when no step newly rebinds a committed operation
  (`KernelRecovery.CommitsAreFinal`). Recovery then answers Ok and leaves pending exactly
  the operations that were pending and committed before (`KernelRuntime.KernelRuntime.Recover`).
- An operation in flight at a crash is not always left to recovery. It is exactly when
  no abort or commit of it was recorded since its latest new intent
  (`KernelRecovery.InFlightIsPendingIff`). A retry writes no new intent, because its key is
  taken, so a retry after an abort can be lost (`KernelCounterexamples.RetryCanBeLost`);
  `KernelRecovery.IntentCountsIff` says so from the execution's side.
- Two operations can write one key text for different keys exactly when one id is the
  other followed by a colon and a key word that takes an arbitrary argument, such as
  `rebind` (`KeyTexts.CollideIffExtends`). Two extensions can exactly when one id is the
  other followed by a colon, a digest, a colon and a handler's word
  (`ExtensionKeyTexts.CollideIffExtends`). Ids without colons are safe, and so are
  extension requests whose tokens have none.
- Recovery does not always succeed: a crash between a lease's ACTIVE entry and
  the first intent blocks it. `KernelRuntime.KernelRuntime.RevokeOrphanedLeases`
  gives the exact success condition.
- The compiler gives two steps the same node id when one step is called like
  another followed by `-auto`, the first verifies and the other is auto-verified.
  `Lowering.MeaningIffNoCollision` proves that this, and only this, breaks the
  meaning of the compiled graph.
- The execution order of a schedule is a permutation of the nodes exactly when each id
  on the critical path names one node (`Scheduler.Schedule`). Only without a collision can
  that be read off the program: then it fails for the empty one alone, which is scheduled
  as one nameless node. With a collision it depends on the critical path computed.
- A permit can be journaled after the revocation of its own authorization, because
  its handler read the journal before. `Extensions.CurrentIffUndisturbed` gives the
  condition, and what holds without it is `Extensions.PermitWithinAdmission`.
- The documentation says a new owner receives a higher fencing token. That holds for a
  resource exactly when its grants publish their tokens in the order they drew them
  (`Leases.TokensAscendIffInDrawOrder`), which grants that do not overlap do
  (`Leases.TokensGoUp`) and others need not (`Leases.TokensCanGoDown`). Mutual exclusion
  does not depend on this.
- A fencing token is valid against itself exactly when its node id has no colon
  (`Fencing.ValidIffSame`).
- A put or a journaled transition under a used idempotency key changes the memory
  and not the journal, and a payload that does not serialize does the same.
  `Semantic.StepAgreesIffFresh` and `StateMachine.WriteMirrorsIff` give the conditions,
  `StateMachine.JournalReplaysIff` that of a whole run.
- The frame checksum does not cover the payload length. A frame that lost its last byte is
  accepted exactly when that byte is the one its checksum cannot see
  (`MicroRuntime.ShortenedIsAcceptedIff`).
- A leased workload is active exactly when its last row is not a terminal one that was
  itself a commit (`Replay.LeasedIsActiveIff`).

## Model

| member | source | states |
|---|---|---|
| `Journal.Appended` | crates/nous-state/src/journal.rs:266-329 | an append keeps every row, keeps keys unique, and its key is stored afterwards |
| `Journal.Find` | crates/nous-state/src/journal.rs:332-350 | the key lookup finds a sequence exactly when the key is stored, and it is that row's |
| `Journal.MaxSequence` | crates/nous-state/src/journal.rs:154-162 | opening resumes from the greatest stored sequence |
| `Journal.StepKeepsInv` | crates/nous-state/src/journal.rs:266-350 | lookup, insert, failed insert and reopen each keep consecutive sequences, unique keys and unchanged rows |
| `Journal.EveryRunIsSound` | crates/nous-state/src/journal.rs:155-350 | in every run sequences are 1..n, keys occur once, rows never change, and each successful append answered with a row carrying its key |
| `Journal.LookupThenInsertIsAppended` | crates/nous-state/src/journal.rs:266-329 | an undisturbed lookup and insert is exactly one idempotent append |
| `Journal.Table.Open` | crates/nous-state/src/journal.rs:107-214 | the next sequence follows the stored rows |
| `Journal.Table.FindByIdempotencyKey` | crates/nous-state/src/journal.rs:332-350 | a key is found exactly when some row carries it, at that row's sequence |
| `Journal.Table.Append` | crates/nous-state/src/journal.rs:266-329 | success means the idempotent append happened, failure means nothing changed, and when each occurs |
| `KernelSystem.CommittedReceipt` | crates/nous-kernel-core/src/lib.rs:653-670 | the receipt found is a journaled commit of the operation, and none is missed |
| `KernelSystem.ReceivedReceipt` | crates/nous-kernel-core/src/lib.rs:672-689 | the receipt found is durable for the operation, and none is missed |
| `KernelBase.EveryRunKeepsBase` | crates/nous-kernel-core/src/coordinator.rs:76-307 | in every run rows carry their own keys, commits follow receipts and intents, leases are opened once and effects lie inside them |
| `KernelExactlyOnce.LookupsAreComplete` | crates/nous-kernel-core/src/lib.rs:653-689 | for an operation kept to one workload the lookups find a commit or receipt exactly when its key is journaled |
| `KernelExactlyOnce.OneHolderPerOperation` | crates/nous-kernel-core/src/coordinator.rs:121-154 | while no lease expires under a caller of the operation, its callers hold live leases and at most one of them does |
| `KernelExactlyOnce.EveryRunKeepsStrong` | crates/nous-kernel-core/src/coordinator.rs:76-307 | one workload and one caller at a time in the window keep, for that operation, the agreement of receipts, commits and what every caller knows |
| `KernelExactlyOnce.LeaseBracketing` | crates/nous-kernel-core/src/coordinator.rs:121-296 | in every run, at most one commit and receipt per operation, in order, and every provider call, receipt and commit inside an open journaled lease |
| `KernelExactlyOnce.ExactlyOnce` | crates/nous-kernel-core/src/lib.rs:564-617 | per operation: the commit carries the one durable receipt, no provider call starts once it is durable, and all successful executions return it; needs one workload and one caller at a time between lookup and receipt, of this operation only |
| `KernelExactlyOnce.ExactlyOnceInTime` | crates/nous-kernel-core/src/coordinator.rs:121-307 | the same for an operation under whose callers no lease expires, because leases keep callers apart |
| `KernelScript.CancelledNeverRuns` | crates/nous-kernel-core/src/lib.rs:572-592 | in every run, once an execution is found cancelled after its intent, the provider is never asked under its lease, and until a crash it is on its way to the result cancelled, or to a journal error exactly if one of its bookkeeping appends fails |
| `KernelScript.CourseOn` | crates/nous-kernel-core/src/coordinator.rs:76-307 | the step that the answers call for is enabled wherever an execution stands, and keeps it on the straight-line program of admission, scheduling, lease, lookups, intent, cancellation check, call, receipt, commit and closing rows |
| `KernelScript.EveryStepIsScripted` | crates/nous-kernel-core/src/coordinator.rs:76-307 | and no other step is: whatever a worker can do, some answers call for it |
| `KernelScript.CallsAreScripted` | crates/nous-kernel-core/src/lib.rs:581-605 | when the program calls the provider: exactly when no commit and no receipt is found, no lease is in the way and nothing failed or was cancelled before |
| `KernelScript.GoodSucceeds` | crates/nous-kernel-core/src/coordinator.rs:76-307 | with every append stored and every answer good, the program succeeds if no live lease is in its way |
| `KernelRely.EndOfCourse` | crates/nous-kernel-core/src/coordinator.rs:76-307 | an execution that has ended took the whole program: its steps, its rows in the journal and its result |
| `KernelRecovery.PendingIsExact` | crates/nous-kernel-core/src/lib.rs:619-637 | pending are exactly the operations whose latest intent has no later commit or abort, with that intent's request |
| `KernelRecovery.PendingIff` | crates/nous-kernel-core/src/lib.rs:564-637 | in every run, an operation is pending exactly when some step recorded an intent of it and none has newly recorded a commit or abort since the latest new intent |
| `KernelRecovery.InFlightIsPendingIff` | crates/nous-kernel-core/src/lib.rs:564-637 | an operation between its intent and its commit when the process crashes is left to recovery exactly under that condition |
| `KernelRecovery.IntentCountsIff` | crates/nous-kernel-core/src/lib.rs:572-579 | recording its intent makes an execution pending exactly when the key was free or the operation is pending already |
| `KernelRecovery.OrderlyIsExact` | crates/nous-kernel-core/src/coordinator.rs:473-508 | on any journal, a step keeps intents before commits exactly when it does not newly rebind a committed operation |
| `KernelRecovery.CommitsAreFinal` | crates/nous-kernel-core/src/coordinator.rs:312-508 | in every run, no intent follows a commit of its operation exactly when every step was orderly |
| `KernelRecovery.CommittedIsNotPending` | crates/nous-kernel-core/src/lib.rs:619-637 | an operation whose commits are final is never both committed and pending |
| `KernelRecovery.OpenLeasesIsExact` | crates/nous-kernel-core/src/coordinator.rs:584-611 | the scan finds exactly the leases journaled ACTIVE and not closed since |
| `KernelRecovery.RequestsIsExact` | crates/nous-kernel-core/src/coordinator.rs:584-611 | and, per workload, the request of its latest intent, at that position |
| `KernelRevival.RevocationLands` | crates/nous-kernel-core/src/coordinator.rs:612-633 | revoking an open lease closes that lease and changes no other lease, request or pending operation |
| `KernelRevival.RecoveryAsAWhole` | crates/nous-kernel-core/src/coordinator.rs:564-635 | revocation followed by re-execution of the listed operations has the outcome of recovery |
| `KernelRely.PromiseHolds` | crates/nous-kernel-core/src/coordinator.rs:76-307 | over any stretch of steps an object has seen, one workload and one caller at a time in the window keep what was promised of the operation |
| `KernelRuntime.KernelRuntime.Open` | crates/nous-kernel-core/src/lib.rs:480-504 | opens any journal a run can leave behind; only the journal survives |
| `KernelRuntime.KernelRuntime.Execute` | crates/nous-kernel-core/src/coordinator.rs:76-307 | whoever else runs, the execution takes exactly the steps, offers exactly the rows and returns exactly the result of the straight-line program for the answers it gets and what its lookups find; with nobody else running, journal, leases and calls are exactly those; success means committed, with the committed receipt if the operation kept to one workload and one caller at a time in the window; for the only caller promises are kept and a retryable failure means not committed |
| `KernelRuntime.KernelRuntime.Cancel` | crates/nous-kernel-core/src/coordinator.rs:534-562 | a cancellation request is recorded exactly for an active workload and settles nothing: pending operations, commits and executions are as they were |
| `KernelRuntime.KernelRuntime.RecordRebind` | crates/nous-kernel-core/src/coordinator.rs:473-508 | answers stored exactly when the rebinding intent and the selection are both journaled, and recovery then uses the new request if the revision is new; disturbs no execution, and keeps commits final if the operation was uncommitted |
| `KernelRuntime.KernelRuntime.Consider` | crates/nous-kernel-core/src/coordinator.rs:346-410 | the judgement is the one the candidate, the plan, the probe and its compatibility deserve, each with its observation journaled; considering one executes nothing |
| `KernelRuntime.KernelRuntime.TryCandidate` | crates/nous-kernel-core/src/coordinator.rs:411-445 | after an earlier failure the candidate runs only once rebinding and selection are journaled; a passing failure is journaled; success means committed; for the only caller a retryable failure means not committed |
| `KernelPlan.FailureEvaluatesAll` | crates/nous-kernel-core/src/coordinator.rs:342-463 | a step told as above that ends in a passing failure has the evaluation of every candidate journaled |
| `KernelPlan.PlanFailureEvaluatesAll` | crates/nous-kernel-core/src/coordinator.rs:312-471 | a plan that ends in one has evaluated every candidate of the step it stopped at |
| `KernelRuntime.KernelRuntime.RunStep` | crates/nous-kernel-core/src/coordinator.rs:342-463 | every candidate that may go ahead is executed, in order, until one commits the step or fails for good; a retryable failure is the answer only when every candidate has been evaluated |
| `KernelRuntime.KernelRuntime.CompleteStep` | crates/nous-kernel-core/src/coordinator.rs:323-463 | a step whose commit the journal shows is answered from it without executing anything; otherwise its candidates are run as above; Ok means committed, whoever else runs |
| `KernelRuntime.KernelRuntime.ExecuteContinuously` | crates/nous-kernel-core/src/coordinator.rs:312-471 | the steps are completed in order up to the first that fails, each as above; Ok means every step committed and one commit per operation, and a plan the journal answers executes and writes nothing, whoever else runs; the receipts are the committed ones for the only caller, or if the operations kept to one workload and one caller at a time in the window; a retryable failure means every candidate of a step was evaluated |
| `KernelRuntime.KernelRuntime.ExecuteTwice` | crates/nous-kernel-core/src/coordinator.rs:312-471 | running a completed plan again calls no provider and returns the same receipts, whoever else runs |
| `KernelRuntime.KernelRuntime.PendingOperations` | crates/nous-kernel-core/src/lib.rs:619-637 | lists each pending operation once with its latest request |
| `KernelRuntime.KernelRuntime.ScanLeases` | crates/nous-kernel-core/src/coordinator.rs:584-611 | collects the open leases and the latest request of each workload |
| `KernelRuntime.KernelRuntime.RevokeOne` | crates/nous-kernel-core/src/coordinator.rs:612-633 | closes one lease, nothing else |
| `KernelRuntime.KernelRuntime.RevokeOrphanedLeases` | crates/nous-kernel-core/src/coordinator.rs:578-635 | on any journal: succeeds exactly when every open lease's workload has an intent and every revocation is stored; then none is open; with none open it writes nothing |
| `KernelRuntime.KernelRuntime.RecoverOne` | crates/nous-kernel-core/src/coordinator.rs:564-576 | re-executes one pending operation with the scripted result and calls; on success it is committed, and it stops being pending unless it was committed already |
| `KernelRevival.GoodRecoveryIff` | crates/nous-kernel-core/src/coordinator.rs:564-576 | where the providers answer well, re-execution succeeds exactly when every listed delivery is idempotent or reconcilable, and otherwise refuses one of the others |
| `KernelRuntime.KernelRuntime.RecoverAll` | crates/nous-kernel-core/src/coordinator.rs:564-576 | re-executes the listed requests in order; refuses exactly at the first that is neither idempotent nor reconcilable, with every one before it executed and committed; a provider's own error is passed on as it is; on success one receipt per request, the committed one where the promise held |
| `KernelRuntime.KernelRuntime.Recover` | crates/nous-kernel-core/src/coordinator.rs:564-576 | the same on any journal after revocation; where journal and providers answer well it succeeds exactly when no open lease lacks an intent and every pending delivery is idempotent or reconcilable; on Ok every operation that was pending is committed, still pending are exactly those committed before it began, and every promise that held is kept |
| `KernelCounterexamples.OverrunBreaksExactlyOnce` | crates/nous-kernel-core/src/coordinator.rs:121-307 | a lease that expires under its holder lets a commit carry another receipt than the durable one |
| `KernelCounterexamples.FirstOverlapBreaks` | crates/nous-kernel-core/src/lib.rs:585-605 | whenever a second caller enters the window between lookup and receipt, the two alone can go on to break the promise |
| `KernelCounterexamples.SecondWorkloadBreaks` | crates/nous-kernel-core/src/lib.rs:653-689 | wherever an operation has a durable receipt and another workload is idle and has none, the run can go on to call the provider again |
| `KernelCounterexamples.SecondWorkloadIsReachable` | crates/nous-kernel-core/src/lib.rs:653-689 | such a state is reached from the start |
| `KernelCounterexamples.IntentCanFollowCommit` | crates/nous-kernel-core/src/coordinator.rs:312-508 | a run in which a failover rebinds after another caller's commit, so that a committed operation is pending |
| `KernelCounterexamples.RetryIsNotPending` | crates/nous-kernel-core/src/lib.rs:564-637 | wherever an operation has an intent and is not pending, a retry that gets its lease reaches the provider without becoming pending |
| `KernelCounterexamples.RetryCanBeLost` | crates/nous-kernel-core/src/coordinator.rs:214-260 | a run in which a provider failure is retried and a crash during the retry leaves nothing pending |
| `KernelCounterexamples.CrashCanBlockRecovery` | crates/nous-kernel-core/src/coordinator.rs:121-154 | a crash before the first intent leaves an open lease that recovery cannot close |
| `KeyTexts.TailsAreUnambiguous` | crates/nous-kernel-core/src/coordinator.rs:473-536 | after the operation id, equal key texts are equal keys |
| `KeyTexts.CollideIffExtends` | crates/nous-kernel-core/src/lib.rs:572-614 | with leases named by UUIDs, two operations can write one text for different keys exactly when one id is the other followed by a colon and a word that takes an arbitrary argument |
| `KeyTexts.ColonFreeIdsAreSafe` | crates/nous-kernel-core/src/lib.rs:572-614 | operation ids without a colon never share a key text |
| `KeyTexts.CollisionExists` | crates/nous-kernel-core/src/coordinator.rs:473-508 | the rebinding key of one operation is the intent key of another |
| `KeyTexts.KernelKeysAreDistinct` | crates/nous-kernel-core/src/coordinator.rs:76-307 | where no id extends another, the keys of the kernel system and their texts are one to one, lease keys by their UUIDs |
| `KeyTexts.RowsCarryTheirFormat` | crates/nous-kernel-core/src/coordinator.rs:111-633 | the key of every row is the format string for its content, with its operation, lease, revision, provider and phase in their places |
| `Kahn.Sort` | crates/nous-scheduler/src/workflow.rs:276-308 | distinct nodes, every predecessor first, all of them exactly when the graph is acyclic; degrees never go below zero |
| `Kahn.Relax` | crates/nous-scheduler/src/workflow.rs:298-307 | one decrement per edge keeps degrees equal to the edges from unfinished nodes and the queue equal to the ready nodes |
| `Kahn.Tabulate` | crates/nous-scheduler/src/workflow.rs:276-286 | adjacency lists and in-degrees count every edge with multiplicity |
| `Steps.Validate` | crates/nous-scheduler/src/workflow.rs:237-260 | accepts exactly the programs whose dependencies exist and name no step itself; otherwise reports the first fault |
| `Steps.DependencyEdgesAre` | crates/nous-scheduler/src/workflow.rs:279-286 | the dependency graph has an edge exactly per listed dependency |
| `Steps.TopologicalSort` | crates/nous-scheduler/src/workflow.rs:271-317 | succeeds exactly when ids are distinct and dependencies acyclic, with a permutation of the steps, dependencies first |
| `Segments.EdgesAre` | crates/nous-scheduler/src/workflow.rs:146-185 | the edges are the chain hops and, per dependency, last node to first node |
| `Segments.DisjointMeaning` | crates/nous-scheduler/src/workflow.rs:146-185 | when no node id is shared, nodes of different steps reach each other exactly when the steps depend on each other |
| `Segments.LaidInOrder` | crates/nous-scheduler/src/workflow.rs:146-185 | then every edge goes forward in the node list and the graph is acyclic |
| `Lowering.LowerStep` | crates/nous-scheduler/src/workflow.rs:151-179 | one step adds its nodes, its dependency links and its chain |
| `Lowering.StepToPhaseNodes` | crates/nous-scheduler/src/workflow.rs:320-505 | pushes the phase nodes of a step one by one; the list is the specified one |
| `Lowering.PhasesHaveShape` | crates/nous-scheduler/src/workflow.rs:354-505 | a step has exactly the phases it needs, once each, with their names and durations: a checkpoint exactly before a tool with side effects under auto-checkpoint, a compensation exactly after a reversible one, tokenizing before generating, auto-verification last |
| `Lowering.LoweredIsLaid` | crates/nous-scheduler/src/workflow.rs:142-185 | the node list is those phases, step after step and nothing else, each node joined to the next of its step |
| `Lowering.Lower` | crates/nous-scheduler/src/workflow.rs:142-185 | the loop builds exactly the specified nodes and edges |
| `Lowering.KindsOccurOnce` | crates/nous-scheduler/src/workflow.rs:320-505 | a step has no two phase nodes of a kind, and which steps get verify nodes |
| `Lowering.SharedNode` | crates/nous-scheduler/src/workflow.rs:320-505 | two steps share a node id only when one is called like the other followed by `-auto` |
| `Lowering.MeaningIffNoCollision` | crates/nous-scheduler/src/workflow.rs:127-185 | the compiled graph means what the dependencies mean exactly when no ids collide |
| `Lowering.CollisionExists` | crates/nous-scheduler/src/workflow.rs:488-502 | a program of two steps whose graph is wrong |
| `Lowering.NodeIdsDistinct` | crates/nous-scheduler/src/workflow.rs:320-505 | node ids are distinct exactly when nothing collides |
| `Lowering.NodeListInOrder` | crates/nous-scheduler/src/workflow.rs:127-185 | without a collision every edge goes forward and the graph is acyclic |
| `ParallelGroups.FindParallelGroups` | crates/nous-scheduler/src/workflow.rs:508-571 | groups hold distinct nodes, a node's group index is the edge count of the longest path ending at it, and all nodes are grouped exactly when the graph is acyclic |
| `ParallelGroups.Release` | crates/nous-scheduler/src/workflow.rs:555-565 | finishing a node keeps the counts exact; the saturating subtraction never saturates |
| `ParallelGroups.EdgesGoLater` | crates/nous-scheduler/src/workflow.rs:508-571 | every edge goes to a strictly later group |
| `CriticalPath.Best` | crates/nous-scheduler/src/workflow.rs:620-638 | the first of the heaviest ways in over all incoming edges; a way that adds no weight counts as none |
| `CriticalPath.Bounded` | crates/nous-scheduler/src/workflow.rs:613-647 | no path into a node outweighs its table entry |
| `CriticalPath.ReadBack` | crates/nous-scheduler/src/workflow.rs:649-658 | the predecessors spell a real path of the entry's weight |
| `CriticalPath.ComputeCriticalPath` | crates/nous-scheduler/src/workflow.rs:574-659 | always a real path without repetitions or the placeholder; on an acyclic graph with nodes a path that no path outweighs |
| `Compiler.DetectCacheReuse` | crates/nous-scheduler/src/workflow.rs:662-686 | a generate node is marked exactly when an earlier step resembles its own |
| `Compiler.MeaningIsFaithful` | crates/nous-scheduler/src/workflow.rs:127-185 | the meaning of the ordered plan is that of the steps as given |
| `Compiler.DurationsAre` | crates/nous-scheduler/src/workflow.rs:613-618 | the duration used for a node id is that of the first node so named |
| `Compiler.Compile` | crates/nous-scheduler/src/workflow.rs:127-234 | compiles exactly the sound, distinct, acyclic programs; every step has exactly the phases it needs, in order and joined, and there is no other node; the graph is faithful exactly without collision, its critical path is maximal and its duration that maximum, its groups are the depth levels, its cache reuse marks exactly the resembling steps |
| `Scheduler.SortByKey` | crates/nous-scheduler/src/workflow.rs:783-792 | a stable sort by descending priority |
| `Scheduler.FanOut` | crates/nous-scheduler/src/workflow.rs:769-773 | counts outgoing edges |
| `Scheduler.Prioritise` | crates/nous-scheduler/src/workflow.rs:765-794 | the critical path first, then every other node stably sorted by ten times fan-out plus cache reuse |
| `Scheduler.PermutationIff` | crates/nous-scheduler/src/workflow.rs:758-800 | the order is a permutation of the nodes exactly when each id on the critical path names one node |
| `Scheduler.ListedOnceIffNodes` | crates/nous-scheduler/src/workflow.rs:617-658 | with distinct ids and no cycle that is so exactly when there is a node |
| `Scheduler.Schedule` | crates/nous-scheduler/src/workflow.rs:758-800 | succeeds exactly when compilation does, with the order above; the permutation condition for every program, and without a collision: exactly when there is a step |
| `Scheduler.EmptyProgramSchedulesAGhost` | crates/nous-scheduler/src/workflow.rs:617-658 | the empty program is scheduled as one nameless node |
| `IntelligenceGraph.IndexNodes` | crates/nous-intelligence/src/graph.rs:117-127 | accepts exactly distinct well-formed nodes, else names the first fault |
| `IntelligenceGraph.CheckEdges` | crates/nous-intelligence/src/graph.rs:132-176 | accepts exactly distinct edges between different known nodes of compatible types, else names the first fault |
| `IntelligenceGraph.Validate` | crates/nous-intelligence/src/graph.rs:105-201 | accepts exactly the nonempty good graphs without a cycle, and reports a cycle exactly when that is all that is wrong |
| `Extensions.LatestDecision` | daemon/nousd/src/main.rs:485-497 | the last authorization or revocation of the extension, and none after it |
| `Extensions.EveryRunKeepsInv` | daemon/nousd/src/main.rs:276-719 | in every run each journaled row is what its request deserved on a prefix of the journal, and keys are unique |
| `Extensions.AdmittedMeans` | daemon/nousd/src/main.rs:276-355 | an admission grants nothing and its receipt certifies the whole request and its actor |
| `Extensions.AuthorizedMeans` | daemon/nousd/src/main.rs:356-479 | an authorization rests on an earlier admission of the very request it approves: it grants exactly the approved capabilities of its receipt and names exactly those requested; scopes and executor stay within the admission |
| `Extensions.RevokedMeans` | daemon/nousd/src/main.rs:600-719 | a revocation grants nothing and names an authorization journaled before it |
| `Extensions.PermitWithinAdmission` | daemon/nousd/src/main.rs:480-599 | every journaled permit was decided on the then latest decision, an authorization that grants it within an admission that asked for that capability and scope |
| `Extensions.CurrentIffUndisturbed` | daemon/nousd/src/main.rs:480-599 | the latest decision before a permit is the authorization it names exactly when none was journaled between read and append |
| `Extensions.ReceiptIsUnique` | daemon/nousd/src/main.rs:407-459 | an authorization receipt is journaled once |
| `Extensions.EveryApprovalIsFresh` | daemon/nousd/src/main.rs:451-456 | no approval id authorizes twice for one extension and digest |
| `Extensions.NoPermitAfterRevocation` | daemon/nousd/src/main.rs:480-719 | a permit decided after a revocation needs a later authorization under a never used approval id; earlier authorizations stay dead |
| `Extensions.ApprovalIsSpent` | daemon/nousd/src/main.rs:435-463 | in every run, once an approval id has authorized an extension and digest, that row stays the only one, whatever is asked under it later |
| `Extensions.PermitCanFollowRevocation` | daemon/nousd/src/main.rs:485-581 | a run in which a permit is journaled after the revocation of its authorization |
| `Extensions.AnsweredPermit` | daemon/nousd/src/main.rs:505-585 | a permit answered to a caller, journaled or not, is backed by an authorization in force at the read |
| `Extensions.DecidedAsPrescribed` | daemon/nousd/src/main.rs:276-719 | for all four requests, the decision is the one the journal prescribes: which admissions, approvals, capabilities and earlier decisions must be there, and what the receipt then certifies |
| `Extensions.Daemon.Handle` | daemon/nousd/src/main.rs:276-719 | each request is granted exactly when the journal as read, stated without the decision procedure, calls for it, and with what it then deserves; appended after what others did, the journal only grows, and a request under a used key adds no row whatever others do |
| `ExtensionKeyTexts.TailsAreUnambiguous` | daemon/nousd/src/main.rs:338-343 | after the extension id, equal key texts are equal digests, handlers and tokens |
| `ExtensionKeyTexts.CollideIffExtends` | daemon/nousd/src/main.rs:338-343 | two extensions can write one text for different keys exactly when one id is the other followed by a colon, a digest, a colon and a handler's word |
| `ExtensionKeyTexts.ColonFreeTokensAreSafe` | daemon/nousd/src/main.rs:573-578 | idempotency keys and approval ids without a colon never make two keys share a text, whatever the ids |
| `ExtensionKeyTexts.HandlerKeysAreDistinct` | daemon/nousd/src/main.rs:451-456 | where no id extends another, the handlers' keys and their texts are one to one |
| `Leases.EveryRunKeepsInv` | crates/nous-resource/src/lease.rs:57-305 | under every interleaving each token belongs to one lease on one resource and is current at most once, and no lease runs longer than one duration from now |
| `Leases.MutualExclusion` | crates/nous-resource/src/lease.rs:223-247 | at most one lease authorizes per resource, with one token |
| `Leases.ReplacedTokenIsDead` | crates/nous-resource/src/lease.rs:57-85 | a token that was current and replaced never authorizes again |
| `Leases.OneUnexpiredLease` | crates/nous-resource/src/lease.rs:87-150 | with a clock that never goes back a workload has at most one unexpired lease |
| `Leases.SweepKeepsAuthority` | crates/nous-resource/src/lease.rs:278-305 | expiring stale leases takes authority from no valid one and gives none |
| `Leases.TokensGoUp` | crates/nous-state/src/fencing.rs:30-33 | when grants for a resource do not overlap, every published token is higher than the one it replaces |
| `Leases.TokensAscendIffInDrawOrder` | crates/nous-resource/src/lease.rs:57-85 | in every run, each published token of a resource is higher than the one before exactly when its grants publish in the order they drew |
| `Leases.TokensCanGoDown` | crates/nous-resource/src/lease.rs:75-79 | overlapping grants can lower the current token |
| `Leases.LeaseManager.GrantFenced` | crates/nous-resource/src/lease.rs:57-85 | whoever else runs, a grant publishes a token never drawn before for the lease it inserted, on the terms asked and for one duration from a moment during the call; alone it fails exactly when a lease of the workload has not expired, and adds exactly that lease and token |
| `Leases.LeaseManager.Reserve` | crates/nous-resource/src/lease.rs:87-150 | the double check around the insert |
| `Leases.LeaseManager.RenewLease` | crates/nous-resource/src/lease.rs:153-202 | renews exactly a valid renewable lease of the expected generation, and each error's condition |
| `Leases.LeaseManager.ReleaseLease` | crates/nous-resource/src/lease.rs:205-217 | removes exactly that lease, which authorizes nothing afterwards |
| `Leases.LeaseManager.Authorize` | crates/nous-resource/src/lease.rs:223-247 | true exactly for an unexpired lease with the token it was given while that is current, and then for the one lease and token in authority over the resource |
| `Leases.LeaseManager.ExpireStale` | crates/nous-resource/src/lease.rs:278-305 | reports and drops exactly the expired leases |
| `Fencing.SplitOnce` | crates/nous-state/src/fencing.rs:41-42 | splits at the first colon, if there is one |
| `Fencing.NumberRoundTrip` | crates/nous-state/src/fencing.rs:43 | a number reads back from its decimal text exactly when it fits 64 bits |
| `Fencing.TokenRoundTrip` | crates/nous-state/src/fencing.rs:30-45 | a token parses to its node and number exactly when the node id has no colon, otherwise not at all |
| `Fencing.ValidIffSame` | crates/nous-state/src/fencing.rs:48-56 | tokens of one generator match exactly when equal and the node id has no colon |
| `Effects.EveryRunKeepsInv` | crates/nous-execution-proof/src/transaction.rs:50-181 | under every interleaving index and transactions name each other and calls, phases and receipts fit together |
| `Effects.EffectorRunsAtMostOnce` | crates/nous-execution-proof/src/transaction.rs:107-165 | one effector call per transaction, on its intent, after its authorization |
| `Effects.VerifiedMeansDone` | crates/nous-execution-proof/src/transaction.rs:107-181 | a verified or committed effect carries the receipt of its one call, successful and for the intended target |
| `Effects.IndexAndTransactionsAgree` | crates/nous-execution-proof/src/transaction.rs:50-84 | an idempotency key and its transaction determine each other |
| `Effects.PhasesOnlyAdvance` | crates/nous-execution-proof/src/transaction.rs:86-181 | phases only advance; failed and committed transactions never change |
| `Effects.TransactionalEffectEngine.PlanEffect` | crates/nous-execution-proof/src/transaction.rs:50-84 | a used key answers with its transaction and changes nothing, a new key makes one |
| `Effects.TransactionalEffectEngine.AuthorizeEffect` | crates/nous-execution-proof/src/transaction.rs:86-105 | authorizes exactly a planned transaction |
| `Effects.TransactionalEffectEngine.ExecuteEffect` | crates/nous-execution-proof/src/transaction.rs:107-165 | whoever else runs, calls the effector exactly when the transaction was authorized and not begun, settles that transaction by the answer, and each result's exact condition; a settled one answers with its receipt |
| `Effects.TransactionalEffectEngine.CommitEffect` | crates/nous-execution-proof/src/transaction.rs:167-181 | commits exactly a verified transaction |
| `Semantic.StepAgreesIffFresh` | crates/nous-state/src/semantic.rs:57-115 | a step keeps view and replay equal exactly when no winning put reuses a key |
| `Semantic.ViewIsReplay` | crates/nous-state/src/semantic.rs:57-138 | with fresh keys the view is the replay in every state and generations count commits |
| `Semantic.OneWinnerEach` | crates/nous-state/src/semantic.rs:69-80 | each generation an id reached was committed by exactly one row |
| `Semantic.ReusedKeyDiverges` | crates/nous-state/src/semantic.rs:90-113 | two puts under one key leave a view that replay does not give |
| `Semantic.SemanticStateFabric.PutRecord` | crates/nous-state/src/semantic.rs:57-115 | compare-and-swap on the generation, with each error's condition and when agreement survives |
| `Semantic.SemanticStateFabric.Replayed` | crates/nous-state/src/semantic.rs:117-138 | reads back the last commit of each id |
| `Replay.ReplayJournal` | crates/nous-state/src/recovery.rs:44-105 | active, interrupted and leased lists, last phases and generations are what the journal says declaratively |
| `Replay.ComputeRecoveryActions` | crates/nous-state/src/recovery.rs:124-151 | one action per interrupted workload, the one it deserves |
| `Replay.Recover` | crates/nous-state/src/recovery.rs:154-170 | exactly one action for exactly the interrupted workloads: resume when leased or before execution, else lost; what each last phase makes of a workload |
| `Replay.InterruptedHasPhase` | crates/nous-state/src/recovery.rs:127-132 | an interrupted workload has a known last phase, which is not terminal |
| `Replay.LeasedIsActiveIff` | crates/nous-state/src/recovery.rs:62-100 | a leased workload is active, for every log, exactly when its last row is not a terminal commit |
| `Replay.LeasedNeedNotBeActive` | crates/nous-state/src/recovery.rs:62-100 | a log that ends a workload by a commit, which stays leased and is not active |
| `StateMachine.MoveKeepsChain` | crates/nous-state/src/state_machine.rs:146-163 | an allowed move extends the chain of history |
| `StateMachine.EveryRunIsChained` | crates/nous-state/src/state_machine.rs:115-239 | in every run history is a chain of allowed or self transitions from the initial to the current state and generation is its length plus one |
| `StateMachine.MirrorGivesState` | crates/nous-state/src/state_machine.rs:213-228 | a journal that mirrors the history replays to the current state and generation |
| `StateMachine.WriteMirrorsIff` | crates/nous-state/src/state_machine.rs:191-239 | a journaled attempt keeps journal and machine together exactly when it serializes under a free key or changes nothing |
| `StateMachine.MachineCanSplit` | crates/nous-state/src/state_machine.rs:191-239 | a payload that does not serialize and a used key each part journal and machine |
| `StateMachine.JournalReplays` | crates/nous-state/src/state_machine.rs:191-239 | with free keys and serializable payloads the journal replays to the machine throughout every run |
| `StateMachine.JournalReplaysIff` | crates/nous-state/src/state_machine.rs:191-239 | and in no other run does it |
| `StateMachine.AllowedIff` | crates/nous-state/src/state_machine.rs:63-66 | in every run the allowed transitions are exactly those from the start and those added since |
| `StateMachine.CasMachine.AllowTransition` | crates/nous-state/src/state_machine.rs:63-66 | allowing a transition adds that one and keeps the history a chain of allowed moves |
| `StateMachine.CasMachine.Transition` | crates/nous-state/src/state_machine.rs:115-185 | all checks and hooks pass and the move is made, or every field is as before |
| `StateMachine.CasMachine.TransitionWithJournal` | crates/nous-state/src/state_machine.rs:191-239 | journals a success, takes a move back when the append fails, and keeps it when serialization fails |
| `Micro.ComputeChecksum` | micro/src/nous_micro.c:5-19 | the loop computes the fold over all hashed words |
| `Micro.WordsAreTheFrame` | micro/src/nous_micro.c:11-17 | the hashed words determine and are determined by message type, flags, sequence (its low 32 bits, then its high 32) and the used payload bytes |
| `Micro.SampleChecksum` | micro/src/nous_micro.c:5-19 | the checksum of one frame, worked out |
| `Micro.MultiplicationIsInjective` | micro/src/nous_micro.c:11-17 | multiplying by the odd constant is injective modulo 2^32 |
| `Micro.OneWordChangesHash` | micro/src/nous_micro.c:11-17 | one changed word changes the hash whatever follows |
| `Micro.DamageIsVisible` | micro/src/nous_micro.c:5-19 | frames of equal payload length that differ in one hashed word or byte have different checksums |
| `Micro.TwoWordsCanHide` | micro/src/nous_micro.c:11-12 | any change of message type is masked by one change of flags |
| `Micro.LostByteHidesIff` | micro/src/nous_micro.c:5-19 | dropping the last payload byte keeps the checksum exactly when that byte is the one word the step at that hash mixes in without a trace |
| `Micro.MixFixedIff` | micro/src/nous_micro.c:11-17 | which word that is, by the inverse of the multiplier |
| `MicroRuntime.DamagedFramesAreRefused` | micro/src/nous_micro.c:38-49 | submit refuses single-word damage of an intact frame |
| `MicroRuntime.ShortenedIsAcceptedIff` | micro/src/nous_micro.c:38-49 | an intact frame that lost its last byte is accepted exactly in that case |
| `MicroRuntime.LengthDamageCanPass` | micro/src/nous_micro.c:38-49 | for every message type there are frames that any change of length leaves acceptable |
| `MicroRuntime.Runtime.Submit` | micro/src/nous_micro.c:38-57 | queues exactly the intact frames that find room, overwriting nothing |
| `MicroRuntime.Runtime.Tick` | micro/src/nous_micro.c:59-80 | takes the oldest frame, shows it to the gate once and to the effector once if allowed |
| `MicroRuntime.EffectsKeepOrder` | micro/src/nous_micro.c:59-80 | effects are distinct gated frames in order |

## Left out

- Process spawning, sockets, HTTP backends, the command line, SDK clients and scripts: only I/O.
- SQLite, JSON, SHA-256 and UUIDs: a table, a round-tripping codec, an injective function and fresh ids.
- Lock poisoning, timestamps, row checksums, integrity verification and the journal format-version check.
- Identifiers are numbers except where their text matters (workflow ids, fencing tokens); idempotency keys are constructors, and `KeyTexts.KernelKeysAreDistinct` and `ExtensionKeyTexts.HandlerKeysAreDistinct` say when their texts are as distinct.
- The kernel system treats one journal append as atomic; `Journal.EveryRunIsSound` covers the lock sections inside it.
- `KernelRuntime.KernelRuntime.Execute`: the map of active executions, the shutdown flag, cancellation tokens and the resource scheduler are not state of the model; their answers (already active, shutting down, cancelled, refused, failed fencing check) are parameters wherever the code asks.
- `KernelRuntime.KernelRuntime.ExecuteContinuously`: the compatibility class of a candidate is a parameter, and the list of failover records in the result is not modelled.
- Node fields that carry no structure (descriptions, engines, retry and timeout settings), resource totals and boundary counts of a compiled graph.
- Compensation semantics: a compensate node is part of its step's chain, and only graph structure is claimed for it.
- Duration estimates are given natural numbers; their computation from token counts in 32 bits is not modelled.
- CriticalPath.ComputeCriticalPath: on a cyclic graph, which only colliding node ids can produce, nothing is claimed about the weight of the path.
- Graph comparison and the workflow contract built from an intelligence graph: copies of fields.
- Field validators of requests and manifests: one flag says whether they pass.
- Extensions: capability access modes, reasons and metadata are part of the certified material and otherwise unused.
- Parent and child capacity limits, scheduling policies and floating-point scores.
- `MicroRuntime.Runtime.Submit`: null pointers and the structure-size field; gate and effector are arbitrary answers.
