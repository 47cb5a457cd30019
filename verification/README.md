# Verified models of the agent runtime

These modules model the protocols at the core of a Python agent runtime and prove
what they guarantee. Model replies, tool results, clock readings, completion order,
steering input and crashes are arbitrary inputs throughout.

* **Workflow scheduler** (`Dag`, `Workflow`, `WorkflowSafety`, `WorkflowInvariant`,
  `WorkflowSnapshot`, `WorkflowRecovery`, `WorkflowDurability`, `WorkflowCrash`,
  `WorkflowAttempts`, `WorkflowWitness`, `WorkflowBackground`, `WorkflowMeaning`, `SnapshotMeaning`,
  `StoreMeaning`). A graph of nodes is validated, its failures
  are propagated, ready nodes are ranked and run in conflict-free waves under
  cumulative quotas, and the graph survives crashes through checkpoints. Class
  `WorkflowRun` has the loops of `WorkflowManager`; each method is tied to a function
  on graph values, and the theorems are about that function over whole runs. A retry is
  shown equal to a computation of the blocked set from scratch. `WorkflowDurability` keeps
  side by side the graph in memory, the last checkpoint that was stored, and the reports
  stored since, which update the node rows. A report can be about any node at any time:
  agents that a node leaves behind in the background still report in its name. A crash
  brings back the rows, and whatever was still on its way to the store is lost; the next
  request restores in the same way (`agent/app/service/chat_service.py:299-302`).
* **Write leases** (`Scopes`, `DeclaredScopes`, `Leases`, `LeaseSafety`, `Fencing`,
  `LeaseMeaning`). Paths form a tree;
  a scope means the set of files it protects, and overlap, coverage and normalisation
  are related to that meaning. The shared registry of leases and tickets is a state
  machine over atomic acquire, renew and release steps; on top of it any number of
  processes keep claim tables that are fenced before a write.
* **Three-way merge** (`Merge`, `MergeDiamond`, `MergeMeaning`). difflib is any function that returns a
  valid edit script. A clean merge is the commuting corner of a diamond of rebased edits.
* **Tool calls and conversation** (`ToolScheduler`, `Protocol`, `AgentLoop`). Concurrent
  tool calls give exactly what running them one by one gives; every model request is a
  well-formed history; a child session's transcript mirrors the loop's history.
* **Prompt conflicts** (`PromptResolver`, `PromptResolution`, `PromptMeaning`). Components of overlapping
  scopes, a lexicographic winner and exact ties.
* **Bounded and mirrored state** (`Ledger`, `Mailbox`, `LazyTools`, `LazyMeaning`). A bounded change log
  next to its unbounded history, a durable inbox under crashes, and the copies of the
  deferred tool catalogue.

The modules named `...Meaning` say what the operations do in terms of the fields of leases,
nodes, rows, segments, edits and tools alone: which lease an acquire is given and which one
expires, which node runs first and why another is left out, what a created, filed or
restored node holds. `Ordering` and `Text` hold the sort, filter and string facts the
others share.

Several expectations turned out not to hold of the code as it stands. For each there is a
witness and an exact condition:

* The coverage test lets a plain hold on a directory answer a recursive request for it.
  `Scopes.CoverageExact` says when a hold really protects a request;
  `Fencing.FenceCanMissForeignLease` runs two processes into the gap, and
  `Fencing.FenceExact` states fencing with its condition in both directions.
* A restore reads the declared write scopes again. It is refused if and only if one of
  them can no longer be read, for instance because it leads out of the workspace
  (`WorkflowRecovery.RestoreIsComeback`). With nothing running it gives the same graph
  back if and only if no stored text has a blank end and every declaration still reads
  as it did (`WorkflowRecovery.RestoreIdentityExact`); for a graph straight from creation
  that means that no length limit cut at a blank and no file declared by itself has
  changed (`WorkflowRecovery.CreatedGraphComesBack`).
  `WorkflowWitness.WrittenFileChangesRestore` runs a node that writes its file, and
  `WorkflowWitness.CutReferenceChangesRestore` cuts an evidence entry at a blank.
* A crash takes the graph back to the last stored checkpoint and the reports stored after
  it. A node that was completed in memory is completed afterwards if and only if it ends so
  by its last report and the verdict on a running row; it has all it recorded if and
  only if, besides, its runtime has been stored and its row has its result
  (`WorkflowCrash.CrashKeepsExact`). The runtime and the attempts charged since the
  checkpoint are lost from the quota (`WorkflowCrash.CrashForgets`).
  `WorkflowWitness.CrashLosesCompletedWork` runs two nodes: one is done after a second, and a
  crash brings it back with no runtime, or queues it again if even the report was lost.
* Stored work is not safe from reports either. A continuable session started by a node's
  agent keeps the node's id (`agent/app/subagent/continuable.py:745-772`) and can start agents
  after the node has completed; their events overwrite the node's row
  (`agent/app/subagent/runtime.py:213-216`). `WorkflowBackground.LateReportBreaks` runs a
  node and one that depends on it to the end, with every checkpoint stored: after one
  late failure a restart finds the first failed under the completed second. The restored
  graph keeps the invariant if and only if the reports about nodes not running in the
  checkpoint do no harm (`WorkflowCrash.CrashGoodExact`), and the work of the checkpoint is
  kept if and only if they repeat it (`WorkflowCrash.CheckpointKeptExact`). A run keeps
  everything throughout exactly if every crash meets these conditions
  (`WorkflowCrash.ReachableGood`); shape, accounting and disjoint writers are kept over
  all runs (`WorkflowDurability.ReachableBooks`).
* The store returns nodes by dispatch number and id, and blank optional text as absent; the
  nodes themselves come back unchanged under the condition above and if no optional text is
  blank (`WorkflowCrash.StoreIdentityExact`).
* A restore with the verdict `safe_to_retry` can queue a node again that was on its last
  attempt (`WorkflowAttempts.AttemptsExact`, `WorkflowWitness.RestoreOverdraws`). A
  node is started again under an effect id it has already used if and only if it is started
  by a process that is behind its last start: it was requeued by hand since, or a crash
  forgot the start (`WorkflowAttempts.EffectIdsExact`, `WorkflowWitness.RequeueRepeatsId`,
  `WorkflowWitness.ForgottenStartRepeatsId`).
* A tool call that ends in an exception which the executor does not turn into a result,
  or without any result, makes the scheduler raise and stays in the transcript without
  its answer. That happens if and only if such a call is started; a pause may come first
  (`ToolScheduler.ToolCallScheduler.Stream`,
  `AgentLoop.AgentLoopRunner.Stream`). `AgentLoop.ResumeOrphan` runs a child into it: its
  next activation sends the broken history to the model.
* A process that dies between an activation's first checkpoint and its start event leaves
  messages that were read but still count as pending. A crash does that if and only if a
  stored message lies between the last stored start and the saved read mark, and the
  session then reschedules itself for ever if and only if a task message does
  (`Mailbox.CrashExact`, `Mailbox.RestsExactly`, `Mailbox.CrashLeavesStale`). A message
  whose row was still on its way is lost and its number is given out again, but never a
  number up to the read mark, because rows and checkpoints share one queue
  (`Mailbox.CrashLosesExactly`).
* The class interface of the deferred tool store lets its copies disagree. Each
  operation keeps them equal if and only if it respects a condition on its arguments
  (`LazyTools.StepAgreesExact`): a new entry must not name a tool the registry already
  has, a second binding must find no tool past its idle limit and no deferred tool in the
  registry but active ones, and a second store over the same state must leave that state
  as it was (`LazyTools.AddBreaks`, `LazyTools.RebindBreaks`, `LazyTools.SecondStoreBreaks`);
  which operations of the second store do is exact too (`LazyTools.SecondStepExact`).
  The chat service binds each store once (`agent/app/service/chat_service.py:258`) and
  skips names that are already known (`agent/app/service/chat_service.py:795`), but it
  hands one state to every request of a task (`agent/app/service/chat_service.py:750-757`).

## Model

| member | source | states |
|---|---|---|
| Scopes.AncestorsFormAChain | agent/app/execution/write_intents.py:508-512 | containment is a tree order: two containers of one path are comparable |
| Scopes.ContainsMeans | agent/app/execution/write_intents.py:508-512 | a path contains another iff its components are the first components of the other |
| Scopes.OverlapsIffCommonFile | agent/app/execution/write_intents.py:494-499 | two scopes overlap exactly when some file lies in both |
| Scopes.SetsOverlapIffCommonFile | agent/app/execution/write_intents.py:487-491 | the same for two lists of scopes |
| Scopes.CoverageExact | agent/app/execution/write_intents.py:502-505 | a hold protects every requested file iff the coverage test passes and every recursive request is under a recursive hold |
| Scopes.CoverageTestAloneIsNotEnough | agent/app/execution/write_intents.py:502-505 | a plain hold passes the coverage test for a recursive request and leaves a requested file unprotected |
| Scopes.NormalizeScopes | agent/app/execution/write_intents.py:469-484 | the two loops yield the normal form; it protects exactly the files of the input and no scope lies under another recursive one |
| Scopes.NormalizeMeaning | agent/app/execution/write_intents.py:469-484 | normalising changes no protected file, in either direction |
| Scopes.NormalizeIdempotent | agent/app/execution/write_intents.py:469-484 | normalising twice is normalising once |
| Scopes.NormalizeKeepsOverlap | agent/app/execution/write_intents.py:459-491 | normalising either side never changes an overlap verdict |
| Scopes.NormalizeCovers | agent/app/execution/write_intents.py:469-484 | every input scope is covered by the normal form, recursive ones recursively |
| DeclaredScopes.ReadDeclared | agent/app/execution/write_intents.py:427-456 | a list of declared scopes is accepted iff every value that is not blank has no pattern but a trailing tree mark and leads into the workspace; it then protects exactly the named paths and what lies under the trees |
| DeclaredScopes.RereadExact | agent/app/execution/write_intents.py:427-456 | where paths still lead to the same places, reading the list again gives the same scopes iff no kept plain file has changed |
| Leases.FileWriteLeaseStore.Acquire | agent/app/execution/write_intents.py:129-222 | the state after an acquire and its answer, tied to a registry step; LeaseMeaning says which lease or waiter decides it |
| Leases.FileWriteLeaseStore.Compete | agent/app/execution/write_intents.py:153-222 | joins the queue and is granted unless a foreign lease or an earlier foreign waiter overlaps |
| Leases.FileWriteLeaseStore.Release | agent/app/execution/write_intents.py:224-230 | exactly the leases of that id disappear |
| Leases.FileWriteLeaseStore.Renew | agent/app/execution/write_intents.py:232-248 | the state after a renewal and its answer, tied to a registry step whose success LeaseMeaning.RenewExact decides |
| Leases.WaiterClaimIdsDiffer | agent/app/execution/write_intents.py:572-578 | queued conflicts are reported under an id per ticket |
| Leases.PruneInv | agent/app/execution/write_intents.py:589-608 | pruning keeps exclusion, order and uniqueness of leases and tickets |
| LeaseSafety.StepInv | agent/app/execution/write_intents.py:129-248 | every step keeps the registry invariant, and a granted token is the next one |
| LeaseSafety.RunSafety | agent/app/execution/write_intents.py:129-248 | over any run: leases of different owners share no file, tokens and tickets are unique, one waiter per request, tokens grow in grant order |
| LeaseSafety.ReachableSafety | agent/app/execution/write_intents.py:129-248 | the same from the empty registry, with the token counter equal to the number of grants plus one |
| LeaseSafety.NoOvertaking | agent/app/execution/write_intents.py:153-222 | while a waiter stays queued, a rival is granted only from a place in front of it, and gives that place up |
| LeaseSafety.RivalsNeverGrow | agent/app/execution/write_intents.py:153-222 | no step adds a rival in front of a waiter |
| LeaseSafety.BoundedOvertaking | agent/app/execution/write_intents.py:153-222 | over any interleaving, rivals are granted at most as often as they were queued in front |
| LeaseSafety.PollExact | agent/app/execution/write_intents.py:153-222 | the next poll for a surviving waiter's paths and modes is granted iff no foreign lease and no earlier foreign waiter overlaps it |
| LeaseSafety.SmallestTicketIsServed | agent/app/execution/write_intents.py:153-222 | with no lease left the smallest ticket succeeds on its next poll |
| LeaseMeaning.RenewExact | agent/app/execution/write_intents.py:232-248 | a renewal succeeds iff the registry before it holds a lease of that id and token whose term is not over; a failed one changes nothing |
| LeaseMeaning.RenewEffect | agent/app/execution/write_intents.py:232-248 | a renewal keeps every lease that has not expired, gives the renewed one a new term, and drops the expired leases and the waiters past their lifetime |
| LeaseMeaning.EnsureExact | agent/app/execution/write_intents.py:363-389 | the fence passes iff nothing is requested, or the first claim of the owner that holds the request has an unexpired lease with its id and token; a failed fence changes nothing |
| LeaseMeaning.ExpiredClaimIsFenced | agent/app/execution/write_intents.py:363-389 | a worker whose leases have all expired fails the fence, whoever holds what |
| LeaseMeaning.AcquireExact | agent/app/execution/write_intents.py:129-222 | a request is answered with an unexpired lease of its owner over all its paths, or waits iff an unexpired lease or an earlier living waiter of somebody else is for one of its files, or is granted |
| LeaseMeaning.ReuseEffect | agent/app/execution/write_intents.py:139-148 | the reused claim says what its lease says; only expired leases and dead waiters disappear |
| LeaseMeaning.GrantEffect | agent/app/execution/write_intents.py:197-222 | a grant adds one lease with the next token and one term, removes the expired leases, the dead waiters and the request's own place, and nothing else |
| LeaseMeaning.QueueEffect | agent/app/execution/write_intents.py:149-195 | a request that waits keeps its ticket or takes the next one, is up to date, and is told exactly the leases and waiters in its way and its place among the tickets |
| LeaseMeaning.ReleaseExact | agent/app/execution/write_intents.py:224-230 | a release takes away the leases of that id and nothing else |
| LeaseMeaning.FingerprintExact | agent/app/execution/write_intents.py:538-543 | two requests share a place in the queue iff they name the same paths and modes in the same order |
| LeaseMeaning.DecimalReads | agent/app/execution/write_intents.py:572-578 | the ticket in a waiter's claim id is its decimal number without leading zeros |
| Fencing.WriteIntentManager.Acquire | agent/app/execution/write_intents.py:296-341 | claim table and registry after an acquire: reuse, local conflict, or the store's verdict |
| Fencing.WriteIntentManager.Release | agent/app/execution/write_intents.py:343-354 | drops the claim and the lease behind it |
| LeaseMeaning.ManagerExact | agent/app/execution/write_intents.py:296-341 | a manager needs nothing iff nothing is asked or a claim of the owner holds it; otherwise it reports exactly the claims of others in its table for a requested file, or passes the normal form of the request on to the store |
| LeaseMeaning.EntersTable | agent/app/execution/write_intents.py:331-341 | a new claim takes the place of an earlier one with its id and leaves the other claims |
| LeaseMeaning.ReleaseActExact | agent/app/execution/write_intents.py:343-354 | a release drops the claim from the table of its process and the lease from the registry, and no other; a crash empties a table and keeps every lease |
| Fencing.WriteIntentManager.Ensure | agent/app/execution/write_intents.py:363-389 | the fence: the registry after it and its answer, which LeaseMeaning.EnsureExact decides |
| Fencing.ActInv | agent/app/execution/write_intents.py:285-389 | every action of every process keeps claims and leases in agreement with what was issued |
| Fencing.FenceLease | agent/app/execution/write_intents.py:363-389 | a write that passes the fence is backed at that step by an unexpired lease of its owner with the claim's id and token |
| Fencing.FenceExact | agent/app/execution/write_intents.py:363-389 | in every reachable world the backing lease protects the request iff no recursive request is met only by a plain hold; then no other owner's lease overlaps it |
| Fencing.FenceCanMissForeignLease | agent/app/execution/write_intents.py:363-389 | from the empty registry, two acquires after which the fence passes although another owner holds a requested file |
| Fencing.DeadStaysDead | agent/app/execution/write_intents.py:232-248 | a lease id that was issued and is gone never comes back |
| Fencing.StaleWorkerIsFenced | agent/app/execution/write_intents.py:363-389 | once a worker's lease is gone no interleaving lets it pass the fence on that claim |
| Dag.CheckReferences | agent/app/subagent/workflow.py:777-787 | accepts iff every dependency exists and none is the node itself; the error names a guilty node |
| Dag.Visit | agent/app/subagent/workflow.py:788-800 | the search extends a topological rank over everything below a node, or meets a real cycle |
| Dag.ValidateDependencies | agent/app/subagent/workflow.py:777-802 | accepts iff every dependency exists and the graph is acyclic, with a rank on acceptance and a cycle when it reports one |
| Dag.RankedMeansAcyclic | agent/app/subagent/workflow.py:788-802 | a topological rank excludes every cycle |
| Workflow.WorkflowRun.MarkDependencyBlocks | agent/app/subagent/workflow.py:448-463 | the loop terminates and blocks exactly the pending nodes that reach a failed or blocked one through pending ones |
| Workflow.MarkingIsUnique | agent/app/subagent/workflow.py:448-463 | every order of visiting the nodes ends in the same graph |
| WorkflowSafety.MarkedSaturated | agent/app/subagent/workflow.py:448-463 | after propagation nothing more can be blocked |
| WorkflowSafety.MarkingTwiceChangesNothing | agent/app/subagent/workflow.py:448-463 | propagation is idempotent |
| Workflow.ReadyNodesExact | agent/app/subagent/workflow.py:403-426 | the ready list holds exactly the ready nodes, sorted; WorkflowMeaning.BatchOrder says by what |
| Workflow.NonConflictingBatch | agent/app/subagent/workflow.py:805-819 | the loop selects greedily in rank order, without conflicts, up to the limit |
| Workflow.BatchExact | agent/app/subagent/workflow.py:255-260 | a batch is ready, pairwise conflict-free, within the limit, empty only if nothing is ready, and starts with the best-ranked node |
| WorkflowMeaning.BatchOrder | agent/app/subagent/workflow.py:403-426 | a batch holds runnable nodes, those dispatched less often first, then by priority, earliest deadline, longest readiness and id; a runnable node is left out only for a file of a node before it or for a batch full of nodes before it; the first goes before every runnable node |
| Workflow.WorkflowRun.RunWaves | agent/app/subagent/workflow.py:235-290 | the run loop, as a function of the graph, the clocks and the results of each wave; the waves it reports are the waves charged to the quota, and it runs out of waves exactly at its limit |
| Workflow.WorkflowRun.RunRound | agent/app/subagent/workflow.py:237-288 | one round as a function of the graph, the clock and the results, which WorkflowMeaning.RoundExact spells out |
| WorkflowMeaning.RoundExact | agent/app/subagent/workflow.py:235-290 | a round stops for the first budget used up, or iff no node can run; otherwise it propagates and runs such a batch as a wave |
| WorkflowMeaning.WaveExact | agent/app/subagent/workflow.py:261-288 | node by node: outside the batch nothing changes, past its deadline a node fails, otherwise it runs once and is settled by its agent's report; waves, attempts, runtime and dispatch numbers are counted in the order of the batch |
| WorkflowMeaning.StartExact | agent/app/subagent/workflow.py:261-283 | right after the start of a wave, nodes past their deadline have failed, the other nodes of the batch run, and the counters have moved; the rest is as it was |
| WorkflowMeaning.ReturnExact | agent/app/subagent/workflow.py:373-401 | any part of a wave returning settles exactly its nodes by their reports and charges the time they took |
| WorkflowMeaning.MarkedExact | agent/app/subagent/workflow.py:448-463 | propagation blocks exactly the pending nodes from which a chain of pending dependencies leads to a failed or blocked node |
| Workflow.WorkflowRun.Dispatch | agent/app/subagent/workflow.py:263-282 | deadline failures and started nodes with their counters, and which nodes execute |
| Workflow.WorkflowRun.Gather | agent/app/subagent/workflow.py:284-287 | every completion order of the wave gives the same graph |
| Workflow.WorkflowRun.ExecuteNode | agent/app/subagent/workflow.py:346-401 | how one attempt settles its node and the runtime quota |
| Workflow.WorkflowRun.RetryNode | agent/app/subagent/workflow.py:306-344 | refused exactly for nodes that are neither failed nor blocked; otherwise the requeued graph |
| WorkflowMeaning.RetryExact | agent/app/subagent/workflow.py:306-344 | a retry is refused unless the node failed or is blocked; it queues the node afresh, lets every node blocked for a dependency wait again and changes nothing else |
| Workflow.WorkflowRun.ResetDependencyBlocks | agent/app/subagent/workflow.py:465-471 | exactly the nodes blocked for a dependency become pending again |
| WorkflowSafety.RetryThenMarkIsFromScratch | agent/app/subagent/workflow.py:306-335 | after a retry, propagation blocks exactly the nodes a computation from scratch would block |
| WorkflowSafety.NoStall | agent/app/subagent/workflow.py:254-260 | with nothing running and nothing ready after propagation every node is completed, failed or blocked |
| WorkflowSafety.RunEnds | agent/app/subagent/workflow.py:235-290 | a run ends by quota, by its wave limit, or with all work over, and leaves nothing running |
| WorkflowSafety.BypassUsesCredit | agent/app/subagent/workflow.py:255-288 | a round that passes a ready node over uses up a credit of a node ranked before it and leaves the passed node unchanged |
| WorkflowSafety.BoundedBypass | agent/app/subagent/workflow.py:235-288 | a ready node dispatched c times is passed over in at most (nodes - 1) * (c + 1) consecutive rounds |
| WorkflowInvariant.MarkedGood | agent/app/subagent/workflow.py:448-463 | propagation keeps dependency safety, justified blocks, disjoint writers and accounting, and changes no completed node |
| WorkflowInvariant.StartedGood | agent/app/subagent/workflow.py:261-282 | so does starting a wave; the writers stay apart if nothing was running |
| WorkflowInvariant.SettledGood | agent/app/subagent/workflow.py:373-401 | so does the return of any part of a wave |
| WorkflowInvariant.RetryGood | agent/app/subagent/workflow.py:321-335 | so does a retry |
| WorkflowInvariant.RunGood | agent/app/subagent/workflow.py:235-290 | so does a whole run |
| WorkflowInvariant.RunningWritersDisjoint | agent/app/subagent/workflow.py:258-283 | no file may be written by two nodes of a freshly started wave; part of the invariant of every reachable graph |
| WorkflowInvariant.DispatchAccounting | agent/app/subagent/workflow.py:261-282 | sequence = used attempts = sum of dispatch counts, used runtime = sum of durations, dispatch numbers are distinct, waves within quota, attempts at most quota + P - 1 |
| WorkflowSnapshot.CreateGraph | agent/app/subagent/workflow.py:720-774 | which input is accepted and what graph it becomes |
| SnapshotMeaning.CreateExact | agent/app/subagent/workflow.py:720-852 | a create call is accepted iff it has 1 to 64 good inputs with ids of their own, budgets within bounds and dependencies that are nodes without a cycle; field by field, what becomes of each input |
| SnapshotMeaning.InputExact | agent/app/subagent/workflow.py:728-774 | which inputs are good: id, title, prompt, retry mode, attempts and declared scopes |
| SnapshotMeaning.BudgetsExact | agent/app/subagent/workflow.py:836-851 | the default and the bounds of each budget |
| WorkflowSnapshot.GraphFromSnapshot | agent/app/subagent/workflow.py:880-1014 | which snapshot is accepted on which disk, and what graph it becomes |
| SnapshotMeaning.EntryExact | agent/app/subagent/workflow.py:880-980 | which node entries of a snapshot can be read, and field by field what they come back as, with the verdict on a running one |
| SnapshotMeaning.RestoreExact | agent/app/subagent/workflow.py:880-996 | a snapshot is accepted iff its entries can be read, its budgets are within bounds and its dependencies are nodes without a cycle; a repeated id keeps its first place and its last entry, and negative counters read as zero |
| SnapshotMeaning.SnapshotExact | agent/app/subagent/workflow.py:512-578 | what a checkpoint lists, node by node and field by field |
| WorkflowSnapshot.CleanListFixpoint | agent/app/subagent/workflow.py:952-956 | reading a stored list changes nothing iff its entries are neither blank nor padded |
| SnapshotMeaning.CleanListExact | agent/app/subagent/workflow.py:738-745 | a cleaned list holds the entries that are not blank, stripped, in order |
| Text.StripExact | agent/app/subagent/workflow.py:728-733 | stripping takes blanks off both ends, and nothing else, until none is left there |
| WorkflowRecovery.RestoreIsComeback | agent/app/subagent/workflow.py:900-951 | the checkpoint of a stored graph is accepted iff every declared scope can still be read, and gives each node back by its recovery verdict |
| WorkflowRecovery.RestoreIdentityExact | agent/app/subagent/workflow.py:880-995 | with nothing running, restore after snapshot is the identity iff no stored text has a blank end and every declaration reads as it did |
| WorkflowRecovery.CreatedTextStability | agent/app/subagent/workflow.py:720-774 | the text of a created node is stable iff no length limit cuts its title, its prompt or a kept evidence entry at a blank |
| WorkflowRecovery.CreatedGraphComesBack | agent/app/subagent/workflow.py:880-995 | a created graph comes back from its checkpoint iff no input was cut at a blank and no plainly declared file has changed |
| WorkflowWitness.CutReferenceChangesRestore | agent/app/subagent/workflow.py:769-772 | a created graph that does not come back, on an unchanged disk |
| WorkflowWitness.WrittenFileChangesRestore | agent/app/subagent/workflow.py:946-951 | a node that has written its declared file, and whose last checkpoint is stored, does not come back the same; with the workspace moved the checkpoint is refused |
| WorkflowRecovery.ComebackGood | agent/app/subagent/workflow.py:910-933 | restoring the checkpoint of a good graph, with any recovery verdicts and on any disk that accepts it, keeps the invariant, leaves nothing running and keeps what is completed in the checkpoint |
| WorkflowDurability.ReachableBooks | agent/app/subagent/workflow.py:219-344 | over any interleaving of moves in memory, checkpoints, reports about any node and crashes: memory, stored checkpoint and rows keep shape and accounting, running writers stay disjoint, and without a crash no completed node changes |
| StoreMeaning.ObserveExact | core/src/main/java/com/lumora/core/conversation/application/support/AgentWorkflowStore.java:203-278 | a stored report changes status, result, error, failure kind and effect state of the row of its node as its kind says, and no other row |
| StoreMeaning.CheckpointExact | core/src/main/java/com/lumora/core/conversation/application/support/AgentWorkflowStore.java:81-201 | a stored checkpoint replaces the rows by the graph, blank texts by none; nothing is stored after the cut or over a newer version |
| StoreMeaning.CrashExact | agent/app/subagent/workflow.py:880-996 | a crash brings every row back with its texts stripped, its scopes read again and a running one settled by the verdict; quota and counters are those of the last checkpoint |
| WorkflowCrash.ReachableGood | agent/app/subagent/workflow.py:219-344 | such a run keeps the whole invariant and the work of its stored checkpoints throughout iff no crash meets a report that does harm or contradicts the checkpoint; then a node completed in a stored checkpoint stays completed with all it recorded, in memory and in the store |
| WorkflowCrash.CrashGoodExact | core/src/main/java/com/lumora/core/conversation/application/support/AgentWorkflowStore.java:203-237 | the graph a crash brings back keeps the invariant iff, of the nodes that had reports since the checkpoint without running in it, none ends completed over an unfinished dependency, none leaves a completed node, and no blocked node loses its last reason |
| WorkflowCrash.CheckpointKeptExact | core/src/main/java/com/lumora/core/conversation/application/support/AgentWorkflowStore.java:203-278 | the nodes completed in the stored checkpoint keep all they recorded iff the reports since then leave them completed with the same result columns |
| WorkflowCrash.OneReportExact | core/src/main/java/com/lumora/core/conversation/application/support/AgentWorkflowStore.java:203-278 | which single report repeats a completed node: no failure, a start only under the verdict completed, a completion with the same output, a tool effect with the same state |
| WorkflowCrash.RunningReportsAreHarmless | core/src/main/java/com/lumora/core/conversation/application/support/AgentWorkflowStore.java:203-237 | reports about nodes running in the checkpoint meet both conditions, whatever they say and whatever the verdicts |
| WorkflowCrash.CreatedSane | agent/app/subagent/workflow.py:164-208 | a created graph whose first checkpoint is stored is a start of such runs |
| WorkflowCrash.CrashKeepsExact | core/src/main/java/com/lumora/core/conversation/application/support/AgentWorkflowStore.java:81-237 | a node completed in memory is completed after a crash iff it ends so by its last report and the verdict; with all it recorded iff its runtime is stored and its row has its result as well; for any reports |
| WorkflowCrash.CrashForgets | agent/app/subagent/workflow.py:373-377 | a crash puts the quota back to the stored checkpoint: exactly the runtime and attempts counted since are lost |
| WorkflowCrash.StoreOrderSorted | core/src/main/java/com/lumora/core/conversation/application/support/AgentWorkflowStore.java:329-338 | rows come back by dispatch number, and by id where that is the same; none is lost |
| WorkflowCrash.StoreIdentityExact | core/src/main/java/com/lumora/core/conversation/application/support/AgentWorkflowStore.java:150-201 | with nothing running, the store gives back the same nodes in row order iff no text has a blank end, no optional text is blank and every declaration reads as it did |
| WorkflowWitness.CrashLosesCompletedWork | agent/app/subagent/workflow.py:283-288 | two nodes in one wave: the finished one comes back with no runtime and nothing charged, or is queued again if its report was lost |
| WorkflowBackground.LateReportBreaks | agent/app/subagent/runtime.py:213-216 | a and b, which depends on it, are completed and stored; one late report in the name of a, and a restart finds b completed over an unfinished a |
| WorkflowRecovery.CreatedGood | agent/app/subagent/workflow.py:164-208 | a created graph satisfies it |
| WorkflowAttempts.AttemptsExact | agent/app/subagent/workflow.py:910-933 | a step, with any reports before it, keeps every node within its attempt limit, in memory and in the stored checkpoint, iff it is not a crash that calls the last attempt of a node running in its row safe to retry |
| WorkflowAttempts.ReachableAttempts | agent/app/subagent/workflow.py:373-401 | over any steps without such a crash no node ever exceeds its limit |
| WorkflowAttempts.EffectIdsExact | agent/app/subagent/workflow.py:276-335 | the effect ids of a node are all different iff it is never started after a requeue since its last start, nor after a crash that brought back a checkpoint without that start or stored after such a requeue |
| WorkflowWitness.RestoreOverdraws | agent/app/subagent/workflow.py:917-921 | a crash during the only attempt after which the node waits for a second one |
| WorkflowWitness.RequeueRepeatsId | agent/app/subagent/workflow.py:276-335 | two attempts under one effect id, with a requeue between them |
| WorkflowWitness.ForgottenStartRepeatsId | agent/app/subagent/workflow.py:271-283 | two processes start the first attempt under one effect id, with no requeue |
| Merge.MergeText | agent/app/execution/merge.py:53-94 | the early returns, the conflict loop and the back-to-front splicing loop compute the merge function |
| Merge.FindConflicts | agent/app/execution/merge.py:71-83 | the nested loops list the hunks of all clashing pairs in order |
| Merge.DifferExists | agent/app/execution/merge.py:97-103 | the contract assumed of difflib can be met |
| Merge.ConflictsExact | agent/app/execution/merge.py:71-86 | a merge is refused iff different edits of the two sides overlap |
| MergeMeaning.RefusalExact | agent/app/execution/merge.py:59-115 | a merge is refused iff different edits of the two sides replace a common line, insert at one place, or insert between lines the other replaces; it then reports exactly these pairs, each once, with their lines and texts |
| Merge.AscendingOrdered | agent/app/execution/merge.py:88-90 | the combined edits of a clean merge do not cross |
| Merge.SpliceBackwards | agent/app/execution/merge.py:89-91 | splicing from the back is applying from left to right |
| Merge.MergedIsApplied | agent/app/execution/merge.py:88-94 | a clean merge is the base with the combined edits applied |
| MergeDiamond.ApplyInTwoSteps | agent/app/execution/merge.py:88-94 | applying some edits first and the carried rest afterwards is applying all at once |
| MergeDiamond.EarlyReturnsAgree | agent/app/execution/merge.py:53-61 | the three early returns give what the general path gives |
| MergeDiamond.Diamond | agent/app/execution/merge.py:40-94 | a clean merge is current with the other side's own edits rebased onto it, and proposed with current's own edits rebased onto it |
| MergeDiamond.MergeSymmetric | agent/app/execution/merge.py:40-94 | swapping the sides changes neither whether they merge nor the result |
| ToolScheduler.ToolCallScheduler.Stream | agent/app/execution/tool_call_scheduler.py:67-116 | whatever finishes when: every started call gives what a serial run gives, and its text is what the result processor makes of its last measured final event at the inline total committed before it, or else the text it reported last; the rest is aborted; it raises iff a started call is lost |
| ToolScheduler.ToolCallScheduler.RunParallelGroup | agent/app/execution/tool_call_scheduler.py:148-286 | the window commits a serial prefix, terminates, and ends at a barrier, a pause or the end with nothing running |
| ToolScheduler.ToolCallScheduler.RunExclusive | agent/app/execution/tool_call_scheduler.py:118-146 | an unsafe call runs alone and is committed next, or raises without a result |
| ToolScheduler.ToolCallScheduler.CommitReady | agent/app/execution/tool_call_scheduler.py:296-322 | commits a prefix in model order, each item with the text promised for it, and stops at a call that is lost or not settled |
| ToolScheduler.ParallelGroup.HarvestFinished | agent/app/execution/tool_call_scheduler.py:288-294 | exactly the finished calls move from running to settled, unless one of them raised |
| ToolScheduler.Prepare | agent/app/execution/tool_call_scheduler.py:197-226 | whether a deferred execution starts a task, and what it settles to if not |
| ToolScheduler.Drain | agent/app/execution/tool_call_scheduler.py:357-374 | what a running call settles to |
| ToolScheduler.WindowAndBarriers | agent/app/execution/tool_call_scheduler.py:177-236 | at every moment at most max_parallel calls run, and two running calls are both safe |
| ToolScheduler.OneItemPerCall | agent/app/execution/tool_call_scheduler.py:78-116 | the items are the given calls in model order, a completed prefix and an aborted rest |
| ToolScheduler.ItemsDelivered | agent/app/execution/tool_call_scheduler.py:294-354 | the committed text of every call, in terms of what it reported, of the result processor and of the inline total before it |
| ToolScheduler.MissingExact | agent/app/execution/tool_call_scheduler.py:217-316 | a call makes the scheduler raise iff it raises, ends without a text or a final event, or the processing of a measured final event raises |
| ToolScheduler.InlineIsCommitted | agent/app/execution/tool_call_scheduler.py:320-321 | the inline total counts the committed texts and nothing else |
| ToolScheduler.OnlyStartedResultsMatter | agent/app/execution/tool_call_scheduler.py:296-354 | texts and inline total depend on the started calls and their own results only |
| ToolScheduler.BrokenIsIncomplete | agent/app/execution/tool_call_scheduler.py:143-144 | a run that raised has committed fewer results than it was given calls |
| Protocol.SplitForCompaction | agent/app/context/planner.py:115-148 | where the backward walk over message groups stops, for both splitters |
| Protocol.RetainRecent | agent/app/context/planner.py:99-110 | the retained groups begin at the first stop of the walk |
| Protocol.CutExact | agent/app/context/planner.py:86-114 | the kept groups start at the last place where at least five messages are kept and the group before it would take them over 10000 tokens, or at least five if forced |
| Protocol.WellFormedExact | agent/app/harness/agent_loop.py:617-680 | a history is well formed iff every assistant message is directly followed by the results of its calls, in order, and no tool result stands anywhere else |
| Protocol.CutKeepsGroups | agent/app/context/planner.py:86-113 | the split loses nothing, keeps at least five messages if it drops any, and a history is well formed iff both halves are |
| Protocol.WellFormedCut | agent/app/context/planner.py:93-98 | a well-formed history may be cut anywhere but in front of a tool result |
| Protocol.AppendTurn | agent/app/harness/agent_loop.py:617-680 | with a complete tool turn the history is well formed iff it was before |
| Protocol.OrphanedTurn | agent/app/harness/agent_loop.py:617-680 | with a tool turn that lacks a result it is not |
| Protocol.InboxRepairsNothing | agent/app/subagent/continuable.py:652-687 | a transcript with messages read into it is well formed iff it was before |
| AgentLoop.AgentLoopRunner.RefreshPrompt | agent/app/harness/agent_loop.py:839-852 | a prompt refresh changes the prefix and never the history |
| AgentLoop.AgentLoopRunner.BeforeRequest | agent/app/harness/agent_loop.py:163-275 | pause, refresh, workspace notice, budget and steers add user messages only, none for a child, and keep the history as well formed as it was |
| AgentLoop.AgentLoopRunner.RunTools | agent/app/harness/agent_loop.py:617-680 | the history gains the reply with its calls and, call by call, what the scheduler delivered or that the call was not made; fewer results than calls iff a started call raises or has no result |
| AgentLoop.AgentLoopRunner.CompactMidTurn | agent/app/harness/agent_loop.py:748-811 | either nothing changes, or a prefix of the history is dropped and one event says how many messages went and how many stay; the history stays well formed and mirrored |
| AgentLoop.AgentLoopRunner.Stream | agent/app/harness/agent_loop.py:162-836 | until a compaction every model request is well formed iff the initial history is, and after one if it is; each equals what a child has mirrored by then. The run ends orphaned iff a call that was started raises or has no result, and never in reliable worlds |
| AgentLoop.ResumeOrphan | agent/app/subagent/continuable.py:1047-1057 | a child whose tool raises, and the broken request its next activation sends |
| AgentLoop.ChildSession.FollowEvents | agent/app/subagent/continuable.py:923-945 | the transcript a child session rebuilds from the events |
| AgentLoop.ChildSession.ApplyCompaction | agent/app/subagent/continuable.py:1104-1121 | a compaction event drops its prefix, or is refused for a blank summary or a wrong boundary |
| AgentLoop.MirrorCompaction | agent/app/subagent/continuable.py:1104-1121 | following a compaction event gives exactly the retained messages |
| PromptResolver.CreateSegment | agent/app/prompt/prompt_segment.py:62-155 | a segment is created iff its maker may use the source, its metadata stay within the caps, its conflict key is valid and allowed, and its source may go where it is sent |
| PromptMeaning.CreationExact | agent/app/prompt/prompt_segment.py:62-155 | a segment is created iff its maker may use the source, its claims are among those of the source, its key is in order and its target admits source, role and trust; field by field, what it holds |
| PromptMeaning.CapsExact | agent/app/prompt/prompt_metadata.py:131-232 | which authorities, bindings and trust levels each source may claim |
| PromptResolver.SystemIsTrusted | agent/app/prompt/prompt_segment.py:98-155 | what reaches the system prompt or the tools is trusted and not from user, memory or history; hard instructions come from the application or its security runtime |
| PromptResolver.LinkedIsConnected | agent/app/prompt/prompt_resolver.py:187-216 | two participants are linked iff a chain of overlapping scopes joins them |
| PromptResolver.OverlappingComponents | agent/app/prompt/prompt_resolver.py:187-207 | the loops partition the candidates into the classes of that relation |
| PromptResolver.ContentGroups | agent/app/prompt/prompt_resolver.py:92-100 | groups of equal content that cover a component |
| PromptResolver.SettleComponent | agent/app/prompt/prompt_resolver.py:91-161 | a tie iff two different contents share the top score; otherwise the losers are exactly the candidates that are not the best |
| PromptResolver.SettleKey | agent/app/prompt/prompt_resolver.py:90-161 | the same over all components of a key |
| PromptResolver.Resolve | agent/app/prompt/prompt_resolver.py:66-174 | an error iff some key is tied; otherwise the accepted, suppressed and inapplicable positions, each exactly |
| PromptMeaning.AcceptedExact | agent/app/prompt/prompt_resolver.py:66-184 | a segment is accepted iff it is in force and no rival has a stronger binding, a higher authority or a scope of its own, or equals it from an earlier position |
| PromptMeaning.TiesExact | agent/app/prompt/prompt_resolver.py:91-131 | a key cannot be decided iff two rivals of different content are outranked by no rival |
| PromptMeaning.ScopeNamed | agent/app/prompt/prompt_resolver.py:239-240 | the name of a scope: without outer blanks, with forward slashes, without slashes at its end |
| PromptResolution.OneAcceptedPerComponent | agent/app/prompt/prompt_resolver.py:113-161 | every participant has exactly one accepted segment in its component |
| PromptResolution.NoTwoAcceptedOverlap | agent/app/prompt/prompt_resolver.py:113-168 | no two accepted segments share a key with overlapping scopes |
| PromptResolution.Partition | agent/app/prompt/prompt_resolver.py:163-174 | every position is exactly one of accepted, suppressed, inapplicable |
| PromptResolution.HardPrevails | agent/app/prompt/prompt_resolver.py:177-184 | what wins in a component with a hard segment is hard, so its source is not capped below hard |
| PromptResolution.OrderIndependent | agent/app/prompt/prompt_resolver.py:66-174 | order and repetition of the input decide neither ties nor how often each content is accepted |
| PromptResolution.ResolvingAgain | agent/app/prompt/prompt_resolver.py:66-174 | resolving the accepted segments again accepts all of them |
| Ledger.WorkspaceChangeLedger.BeginRun | agent/app/execution/workspace_changes.py:133-138 | the first call fixes the run's cursor, later ones do not move it |
| Ledger.WorkspaceChangeLedger.HasForeignChangeAfter | agent/app/execution/workspace_changes.py:144-162 | a false answer for a non-negative revision is right about the whole history; exactly when it is true |
| Ledger.NoFalseNegative | agent/app/execution/workspace_changes.py:154-162 | a negative answer stays right when the log has dropped a part of a revision |
| Ledger.WorkspaceChangeLedger.Record | agent/app/execution/workspace_changes.py:164-237 | the new revision, events and bounded log |
| Ledger.EventsStayInBudget | agent/app/execution/workspace_changes.py:192-232 | patches and contents stay within the budgets of a revision, and whatever is cut is marked |
| Ledger.RecordedExact | agent/app/execution/workspace_changes.py:173-233 | one event for each of the first 500 changes that count, in order, with its patch and contents cut by what the budgets have left, but for those with a blank path |
| Ledger.RecordExact | agent/app/execution/workspace_changes.py:164-237 | a record call counts one revision and appends these events, or does nothing if no change counts; the log keeps the last 2000 |
| Ledger.WorkspaceChangeLedger.ConsumeExternal | agent/app/execution/workspace_changes.py:239-256 | the answer is what the log holds of other runs between the run's cursor and the current revision, in the order of the log, and the cursor moves there; a first call answers nothing |
| Ledger.BoundedAnswersLikeFull | agent/app/execution/workspace_changes.py:239-256 | with at most 2000 newer events the bounded log answers like the full history |
| Ledger.NothingLostNothingTwice | agent/app/execution/workspace_changes.py:125-256 | over any interleaving, what a run that polls in time has been told is exactly what stands in the full history at the places of other runs' events between its first revision and its cursor, in order |
| Ledger.LosslessExact | agent/app/execution/workspace_changes.py:239-256 | a run polls in time as long as at most 2000 events are later than its cursor at each poll |
| Mailbox.Session.Enqueue | agent/app/subagent/continuable.py:504-522 | appends a pending message with the next sequence |
| Mailbox.SequencesAreNumbered | agent/app/subagent/continuable.py:504-522 | over any run the messages of an inbox are numbered from 1 in the order they were sent |
| Mailbox.Session.Send | agent/app/subagent/continuable.py:235-262 | refused iff the session is closed; otherwise queued and an activation is scheduled |
| Mailbox.ContinuableSessionManager.SendPeer | agent/app/subagent/continuable.py:294-351 | which refusal applies, in order: caller outside the team, no such member, itself, closed, too large, full; an accepted message touches the receiver only and never wakes it |
| Mailbox.ContinuableSessionManager.TeamRules | agent/app/subagent/continuable.py:1178-1200 | who may write to whom: a session for its own team, the supervisor without a session for the manager's team; the receiver is found by session or agent id in that team |
| Mailbox.Session.AcceptPeer | agent/app/subagent/continuable.py:322-351 | the receiver's own refusals; at most 100 peer messages are pending |
| Mailbox.PendingPeersExact | agent/app/subagent/continuable.py:322-351 | the count behind the limit of 100 is that of the peer messages that are pending |
| Mailbox.Session.ReadInbox | agent/app/subagent/continuable.py:665-687 | the loop takes the next batch by sequence, transcribes and marks it and moves the read mark, as Mailbox.ConsumeExact spells out |
| Mailbox.Session.Finish | agent/app/subagent/continuable.py:1067-1075 | reschedules iff the session ends idle with a pending task message |
| Mailbox.ConsumeSound | agent/app/subagent/continuable.py:665-687 | an activation reads on exactly where the last one stopped, at most 32 messages |
| Mailbox.ConsumeExact | agent/app/subagent/continuable.py:665-687 | the next 32 messages behind the read mark are appended to the transcript, each carried by a user message, and are no longer pending; nothing else changes |
| Mailbox.EachMessageEntersOnce | agent/app/subagent/continuable.py:76-146 | over any sends, reads, talk, compactions, checkpoints, losses and crashes: the transcript is what compaction left of its history, and the inbox has put exactly the messages up to the read mark into it, each once, in order and as a user message that carries its text, a peer's with its sender |
| Mailbox.TalkExact | agent/app/subagent/continuable.py:923-945 | what is said is appended to the transcript, a compaction drops its first messages, and neither touches inbox, rows or what is saved |
| Mailbox.InboxIsTranscribed | agent/app/subagent/continuable.py:665-687 | as long as nothing is said, the transcript is one such message for each message up to the read mark |
| Mailbox.CrashLosesExactly | agent/app/subagent/continuable.py:504-560 | a crash loses exactly the messages whose rows were on their way; their numbers are given out next, all of them above the read mark, so the next message is read |
| Mailbox.CrashExact | core/src/main/java/com/lumora/core/conversation/application/support/AgentSessionStore.java:170-252 | over any run, a crash restores an inbox that agrees with the read mark iff no stored message lies between the last stored start and the saved mark, and a session that reschedules itself for ever iff a task message does |
| Mailbox.CrashLeavesStale | agent/app/subagent/continuable.py:665-730 | the shortest run into the gap, for a task and for a peer message |
| Mailbox.RescheduledExactly | agent/app/subagent/continuable.py:1067-1075 | after n idle activations the session is rescheduled iff a task message is more than 32 n messages ahead, or one is pending that was read before |
| Mailbox.RestsExactly | agent/app/subagent/continuable.py:1067-1075 | after one activation per 32 unread messages it rests iff no task message is stale; with a stale one it never does |
| LazyTools.McpDeferredToolStore.constructor | agent/app/mcp/lazy_tools.py:66-90 | a request starts one turn after the shared clock, and leaves the loaded tools in the shared state |
| LazyTools.McpDeferredToolStore.BindRegistry | agent/app/mcp/lazy_tools.py:113-115 | which tools come back warm, and exactly when all copies agree afterwards, for a first binding and for a later one |
| LazyTools.McpDeferredToolStore.RebindOne | agent/app/mcp/lazy_tools.py:354-381 | one loaded name is rebound or dropped |
| LazyTools.McpDeferredToolStore.Load | agent/app/mcp/lazy_tools.py:289-314 | refused by an unbound store; otherwise loads the matched tools and keeps the copies equal |
| LazyTools.McpDeferredToolStore.MarkUsed | agent/app/mcp/lazy_tools.py:135-147 | refreshes an active tool, ignores any other name, and keeps the copies equal |
| LazyTools.McpDeferredToolStore.ExpireUnused | agent/app/mcp/lazy_tools.py:149-166 | does nothing in an unbound store; otherwise unloads exactly the tools idle for the configured rounds, and keeps equal copies equal |
| LazyTools.McpDeferredToolStore.UnloadTool | agent/app/mcp/lazy_tools.py:316-329 | removes a tool from every copy, and a signature with its last tool |
| LazyMeaning.LoadExact | agent/app/mcp/lazy_tools.py:289-314 | the named tools are loaded and used this very turn, in every copy; the others stay as they were |
| LazyMeaning.ExpireExact | agent/app/mcp/lazy_tools.py:149-166 | exactly the active tools loaded in an earlier turn and not used for the idle rounds are gone from every copy; the others stay as they were |
| LazyMeaning.BindExact | agent/app/mcp/lazy_tools.py:343-384 | exactly the loaded tools that the same server still offers and that were used within the idle rounds come back, loaded this turn and with the turn of their last use; the others are dropped from the state |
| LazyTools.RestoreAgreesExact | agent/app/mcp/lazy_tools.py:343-384 | after its first binding a store agrees iff the registry holds no deferred tool but warm ones |
| LazyTools.StepAgreesExact | agent/app/mcp/lazy_tools.py:92-173 | each operation from agreement, and whatever another store does to the shared state, ends in agreement iff it respects its condition |
| LazyTools.ReachableAgrees | agent/app/mcp/lazy_tools.py:92-173 | active map, loaded names, signatures, last-used turns and registered deferred tools name the same tools throughout a run of respecting steps; for the only store over its state |
| LazyTools.SharedStateExact | agent/app/mcp/lazy_tools.py:48-57 | a second store keeps the first in agreement iff it leaves the shared state as it was |
| LazyTools.SecondStepExact | agent/app/mcp/lazy_tools.py:92-173 | of a bound second store, adding never disturbs the first; loading does unless the tools were last used this turn, using does iff the tool was used earlier, unloading and expiring do iff they unload anything, binding again does iff a tool is past its idle limit |
| LazyTools.SecondBindingExact | agent/app/mcp/lazy_tools.py:343-384 | binding a second store over the same state keeps the first in agreement iff every tool the first uses is warm for the second |
| LazyTools.AddAgreesExact | agent/app/mcp/lazy_tools.py:92-111 | a new entry keeps that iff the registry has no tool of its name |
| LazyTools.RebindAgreesExact | agent/app/mcp/lazy_tools.py:343-384 | binding any registry again keeps that iff no active tool is past its idle limit and the registry has no deferred tool but active ones |
| LazyTools.AddBreaks | agent/app/mcp/lazy_tools.py:92-111 | a store that loses it by adding a tool |
| LazyTools.RebindBreaks | agent/app/mcp/lazy_tools.py:343-384 | stores that lose it by a second binding, one way each |
| LazyTools.SecondStoreBreaks | agent/app/mcp/lazy_tools.py:343-384 | a store that loses it because another one is bound |

## Left out

- Paths are strings in canonical form with `/` between components; path resolution, case folding and drive letters are not modelled, and baseline hashes are opaque.
- Lease ids are fresh inputs and time is an integer input; file locking and JSON storage of the registry count as one atomic step.
- Heartbeats that renew a held lease in the background are ordinary renew steps; the limit on the number of graphs a manager creates is not modelled.
- Scope fingerprints are an injective digest of paths and modes.
- Workflow nodes are values in the node map, so sharing one node object between two graphs is not modelled; nor are effect, agent and session ids, labels, graph ownership, and the choice between several stored snapshots.
- The disk a restore finds is any root, any resolution of written paths and any digest of files; links and permissions are not modelled further.
- WorkflowAttempts.ReachableAttempts: one way only, because a later requeue brings an overdrawn node back within its limit; AttemptsExact is the exact statement per step.
- Two simultaneous runs of one workflow, and exceptions that escape a child agent.
- Stripping removes blank, tab, line feed and carriage return, not the other Unicode blanks.
- Merge works on sequences of lines: newline styles, a last line without newline, and the 4000-character display limit of conflict texts are not modelled; difflib is a contract.
- Live events and event payloads of the tool scheduler; waking up for a live event alone changes nothing and is not a step of the model, which is why the wait always ends with a finished call or a pause.
- Which exceptions of a tool become results and which escape is an arbitrary input; cancellation of a run between two awaits is not modelled.
- The compaction a child session may run before an activation, which can drop a broken turn with the older groups.
- Model providers, streaming retries, token usage and budgets appear only as arbitrary outcomes; prompts are an arbitrary list of system and user messages.
- The wording of workspace notices, peer messages and aborted-call messages is shortened; which messages appear, in which order, and that a peer message names its sender and carries its text is stated.
- The token estimator is an arbitrary function; the compaction threshold is an arbitrary decision.
- PromptResolver.Resolve: does not list the conflict records and log lines that accompany a resolution, because they only repeat the groups it decided on.
- Ledger events carry no counts, blobs or repository paths; capturing and comparing workspace states is not modelled.
- Mailbox: the events of a session reach the store in the order they were sent, because they share one queue (`agent/app/service/chat_service.py:436-446`, `agent/app/subagent/continuable.py:1150-1160`); those on their way at a crash are lost. At most 2000 stored rows are assumed on restore; reports and interruption are not modelled.
- WorkflowDurability: the checkpoints of a graph reach the store in the order they were sent, and those on their way at a crash are lost; which agents can send a report, and when, is not modelled: any report about any node may be stored at any time; the verdict on a running row is arbitrary, so the count of recorded effects behind it is not modelled.
- LazyTools.ReachableAgrees: assumes that no second live store changes the shared state, because two requests of one task can share it and SharedStateExact shows that no weaker condition is enough.
- LazyTools: matching a query is an arbitrary choice of inactive entries; reminders and discovery are not modelled.
