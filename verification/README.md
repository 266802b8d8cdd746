# Verified models of the agent harness

A Dafny model of the parts of zheng-harness whose correctness depends on state that
evolves over many calls or goroutines, with proofs of what they promise.

**The dependency engine** (`internal/orchestration`). `Graph` and `Decomposition` hold
the dependency graph, the validation of a decomposition and its depth-first cycle search.
`DagOrder` defines topological orders, the greedy order a counter-driven sort produces,
and dependency levels. `SchedulerSpec` says on sets what a scheduler does and what
follows over whole runs; `Scheduler` is the `DAGScheduler` class proved against it.
`ExecutorCounters` is the sequential part of `executeDecomposition`; `Executor`,
`ExecutorInvariant` and `ExecutorSafety` are its goroutines, semaphore, result channel
and error group as a transition system with arbitrary interleaving, and `ExecutorRuns`
shows what its runs can do. The three meet: the search's verdict "no cycle" is what keeps
the scheduler's loop from its unschedulable branch and the executor from deadlock
(`Graph.SourceExists`), and the executor's counters over repeated edges enable what the
scheduler's counters over distinct edges enable
(`ExecutorCounters.ExecutorRefinesScheduler`).

**Sessions** (`internal/runtime`). `Relay` is the event fan-out with its bounded
subscriptions and overflow protocol, as objects that follow the transition system of
`RelaySpec`; there a broadcast is sent to one subscription after the other, a failed send
and its overflow mark are two steps, and joins, takes and closes come in between.
`RunLoop` is the bounded plan, execute and verify loop. `SessionManagerSpec` and
`SessionManagerRuns` are the session manager as a transition system and what holds over
every interleaving, `SessionManagerLives` what becomes of requests, actors and shutdowns
in it; `SessionManager` holds its classes, whose methods follow that system step by step.

**Plugins, search and streams.** `PluginRecovery` is the failure counting and reload of
plugins; `ContextWindows` merges the context windows of a code search; `EventStream`
reads the line protocol of server-sent events ("Interpreting an event stream", section
9.2.6 of the WHATWG HTML Standard), and `EventEncoding` relates it, on text, to an
encoder and to what the server writes. The reader differs from the standard in three
ways: it also dispatches at the end of input, it stops at a done marker, and it skips a
line `data` without a colon, for which the standard adds an empty data line.

What a worker, an agent, a verifier, a plugin, a loader, a store or a consumer does is a
parameter with arbitrary values, as are cancellations, timeouts and deadlines.

## What the code does where its comments say less

- `TopologicalSort` starts from the counters that `MarkComplete` lowers, so after a
  completion its order can put a subtask before an incomplete predecessor.
  `LateOrder.SortAfterCompletion` reaches such a sort, and
  `DagOrder.GreedyTopologicalIff` is the exact condition; before the first completion the
  order is the least topological one. It never reports unschedulable dependencies,
  whatever has been completed.
- `MarkComplete` accepts a subtask that is still queued, and `Schedule` then returns it
  although it is complete; over all call sequences this happens if and only if some
  subtask is marked complete while queued (`SchedulerSpec.StaleIffCompletedWhileQueued`).
  A client that completes only what `Schedule` returned never sees it.
- With the caller's context cancelled the executor may return an error although every
  worker succeeded: by `ExecutorSafety.CancellationHidesSuccess` that can happen whatever
  is executed, if the caller cancels late enough. It returns without error exactly when
  it received every result and all were successful; uncancelled, it returns an error only
  if some worker failed (`ExecutorSafety.Outcome`).
- A retry after a reload that fails always makes the plugin unavailable: the last return
  of `executeWithRecovery` is not reached by sequential calls.
- A consumer of `ParseSSE` that answers a chunk with the end-of-file error ends the
  stream without an error, the rest undelivered: `EventStream.ConsumerDecides` says
  exactly when, and `EventStream.EndOfFileEndsQuietly` is an instance.
- An overflow need not lose an event: when the consumer empties its buffer between the
  failed send and the mark, only the event not sent is replaced by the signal
  (`RelaySpec.MarkIsSound`, `RelaySpec.TakeBeforeMark`).
- A subscription that its consumer closes while a broadcast deals with it is marked as
  overflowed, and the mark sends on its closed channel, which ends the process. That
  happens if and only if the close falls between the broadcast's taking the list and its
  being through the subscription, or the list is taken between the closing of the channel
  and its removal from the registry (`RelaySpec.DoomedIff`, `RelaySpec.DoomedCrashes`).
- The code after the loop of `Engine.Run` is not reached: the last iteration returns.
- A carriage return at the end of a line of a chunk does not survive an event stream:
  `EventEncoding.PlainIff` and `EventEncoding.PlainDelivery` say that this is all that is
  lost.

## Model

| member | source | states |
|---|---|---|
| Graph.RankedIsAcyclic | internal/orchestration/types.go:253-282 | A graph whose edges all decrease a rank has no closed walk |
| Graph.SourceExists | internal/orchestration/scheduler.go:124-137 | In an acyclic graph every non-empty set of nodes has a member with no predecessor in the set: a Kahn loop has something to take |
| Graph.SortedUnique | internal/orchestration/scheduler.go:213-224 | Declaration order leaves one way to list given subtasks: two sorted lists of the same members are equal |
| Decomposition.EdgesIff | internal/orchestration/types.go:217-230 | The edges are the listed dependencies and the DAG entries that are not parallel-with |
| Decomposition.WellFormedIffNoFault | internal/orchestration/types.go:177-214 | A decomposition is structurally valid exactly when none of the faults the code reports is present |
| Decomposition.WellFormedMeans | internal/orchestration/types.go:136-215 | Structurally valid, written out: a task and subtasks with distinct identifiers, each described, of one of the four statuses and with distinct declared dependencies other than itself; entries of one of the three types between two different declared subtasks |
| Decomposition.EdgesMean | internal/orchestration/types.go:217-230 | An edge comes from a dependency or from an entry of a type other than parallel-with |
| Decomposition.ValidateSubtask | internal/orchestration/types.go:136-166 | The faults reported for a subtask are exactly those it has, a repeated dependency being checked once |
| Decomposition.ValidateEdge | internal/orchestration/types.go:59-84 | The faults reported for a DAG entry are exactly those it has |
| Decomposition.CollectIds | internal/orchestration/types.go:177-196 | Known identifiers are the non-empty ones; a fault is reported for each repeated identifier and each missing top-level field and no other |
| Decomposition.Validate | internal/orchestration/types.go:177-215 | Accepted if and only if well formed and acyclic; otherwise either exactly the structural faults or a closed walk of the graph |
| Decomposition.FinishOrderRanks | internal/orchestration/types.go:253-282 | The finish order of a completed search strictly ranks every edge |
| Decomposition.CycleSearch.WalkCycle | internal/orchestration/types.go:253-282 | With no cycle the path is restored and the node finishes after all its successors; otherwise the result is a closed walk; it terminates because unvisited nodes shrink |
| Decomposition.CycleSearch.Enter | internal/orchestration/types.go:254-256 | Entering keeps: the stack set is the set of the path, the path is a simple walk, visited nodes are on the path or finished |
| Decomposition.CycleSearch.Leave | internal/orchestration/types.go:279-281 | Leaving a node whose successors are finished keeps the same and finishes it |
| Decomposition.BuildAdjacency | internal/orchestration/types.go:218-230 | The list of each node holds the targets of its edges, one for every occurrence and in their order, so the lists represent exactly the edges |
| Decomposition.FindCycle | internal/orchestration/types.go:217-251 | Empty if and only if the edges are acyclic, then with a rank that decreases along every edge; otherwise a closed walk |
| DagOrder.TopologicalEdges | internal/orchestration/scheduler.go:107-141 | In a topological order every edge's source is before its target |
| DagOrder.GreedyAt | internal/orchestration/scheduler.go:124-137 | At each step the emitted subtask is the one declared first among those whose counter has run out |
| DagOrder.GreedyIsComplete | internal/orchestration/scheduler.go:124-140 | Whatever completions have done to the counters, the order lists every subtask exactly once |
| DagOrder.FreshIsTopological | internal/orchestration/scheduler.go:107-141 | Before any completion the order respects every edge |
| DagOrder.FreshIsLeast | internal/orchestration/scheduler.go:107-141 | Before any completion the order is the lexicographically least topological order by declaration index |
| DagOrder.LexIsStrict | internal/orchestration/scheduler.go:213-224 | Comparing orders by declaration index is strict, so the least one is before all others and none before it |
| DagOrder.GreedyTopologicalIff | internal/orchestration/scheduler.go:112-137 | With lowered counters the order respects every edge if and only if no counter of an earlier declared subtask runs out early |
| DagOrder.LowCounterBreaksAnEdge | internal/orchestration/scheduler.go:112-137 | An instance for any counters: with one of two predecessors no longer counted, their dependent comes before the other |
| LateOrder.LateOrderBreaksAnEdge | internal/orchestration/scheduler.go:84-137 | A valid scheduler of the instance in which exactly one of the two predecessors is complete sorts the dependent before the other |
| LateOrder.InstanceWellFormed | internal/orchestration/types.go:177-215 | The instance is a well-formed decomposition of three subtasks |
| LateOrder.SortAfterCompletion | internal/orchestration/scheduler.go:23-141 | Building the scheduler, scheduling, completing one subtask and sorting gives an order that breaks an edge |
| DagOrder.LevelIsUnlocked | internal/orchestration/scheduler.go:66-104 | The subtasks whose longest chain has length k are exactly those unlocked by all shorter ones |
| SchedulerSpec.InvComplete | internal/orchestration/scheduler.go:66-104 | A completion of any identifier keeps: scheduled and queued subtasks have complete predecessors, and every unfinished unblocked subtask is one of them |
| SchedulerSpec.RunsAreSafe | internal/orchestration/scheduler.go:46-104 | Over every sequence of calls with any identifiers no subtask is returned twice, what was returned is what is scheduled, and the invariant holds |
| SchedulerSpec.Progress | internal/orchestration/scheduler.go:46-104 | While something is unfinished, something unfinished is queued or has been returned |
| SchedulerSpec.HonestRun | internal/orchestration/scheduler.go:46-104 | If only returned subtasks are completed, each returned subtask comes after all its predecessors |
| SchedulerSpec.FullRunIsTopological | internal/orchestration/scheduler.go:46-104 | Such a run that completes everything returns each subtask exactly once in a topological order |
| SchedulerSpec.HonestCalls | internal/orchestration/scheduler.go:46-104 | The clients spoken of schedule at any time and complete exactly what was returned to them |
| SchedulerSpec.CompletedWhileQueued | internal/orchestration/scheduler.go:70-92 | A completion leaves a completed subtask in the queue if and only if the subtask was queued |
| SchedulerSpec.StaleIffCompletedWhileQueued | internal/orchestration/scheduler.go:46-104 | Over every sequence of calls a completed subtask is queued at some point if and only if some call completes a subtask while it is queued |
| SchedulerSpec.HonestBatchIsUnfinished | internal/orchestration/scheduler.go:46-64 | A client completing only what was returned is never given a completed subtask |
| SchedulerSpec.CompleteAllState | internal/orchestration/scheduler.go:66-104 | The order of completion inside a batch does not change what the round leads to |
| SchedulerSpec.OneMoreBatch | internal/orchestration/scheduler.go:46-104 | The rounds spoken of go on with the ready batch in any order |
| SchedulerSpec.BatchesAreLevels | internal/orchestration/scheduler.go:46-104 | With each batch completed before the next call, batch k is exactly the subtasks whose longest dependency chain has length k |
| Scheduler.Insert | internal/orchestration/scheduler.go:213-224 | Insertion keeps declaration order and adds exactly the new member |
| Scheduler.SortIDs | internal/orchestration/scheduler.go:213-224 | Sorting a list without repetition gives the declaration order of its members |
| Scheduler.Decrement | internal/orchestration/scheduler.go:129-135 | Each dependent loses one, the others nothing, and those reaching zero are collected once |
| Scheduler.CollectZero | internal/orchestration/scheduler.go:115-121 | The subtasks with counter zero, in declaration order |
| Scheduler.JoinLowers | internal/orchestration/scheduler.go:79-86 | Completing a subtask lowers the number of outstanding distinct predecessors by one for exactly its dependents |
| Scheduler.DAGScheduler.New | internal/orchestration/scheduler.go:23-43 | A scheduler results exactly for well-formed acyclic decompositions; its invariant holds and it starts with the roots queued |
| Scheduler.DAGScheduler.AddEdge | internal/orchestration/scheduler.go:155-175 | An edge is refused exactly for an empty or unknown endpoint; otherwise counters and targets are those of the distinct edges with it added |
| Scheduler.DAGScheduler.BuildGraph | internal/orchestration/scheduler.go:143-207 | On a validated decomposition it never fails; counters are numbers of distinct predecessors, targets and queue in declaration order |
| Scheduler.DAGScheduler.Schedule | internal/orchestration/scheduler.go:46-64 | Returns the ready set in declaration order, marks it scheduled and empties the queue |
| Scheduler.DAGScheduler.Release | internal/orchestration/scheduler.go:79-92 | A dependent's counter drops unless it is complete; it is queued exactly when nothing blocks it and it was neither scheduled nor queued |
| Scheduler.DAGScheduler.ReleaseAll | internal/orchestration/scheduler.go:79-92 | After the loop the queue has gained exactly the newly unblocked dependents |
| Scheduler.DAGScheduler.MarkComplete | internal/orchestration/scheduler.go:66-104 | Follows the set-level completion for any identifier, returns the subtasks it makes ready in declaration order, and keeps every counter exact |
| Scheduler.DAGScheduler.Emit | internal/orchestration/scheduler.go:124-136 | One round of the sort keeps counters and ready list those of the greedy order |
| Scheduler.DAGScheduler.TopologicalSort | internal/orchestration/scheduler.go:107-141 | Never reports unschedulable dependencies; it returns the decomposition's subtasks in the greedy order of the current counters |
| Scheduler.DAGScheduler.OrderIsComplete | internal/orchestration/scheduler.go:107-141 | In every reachable state the order lists each subtask once, and respects every edge exactly when nothing was released early |
| Scheduler.DAGScheduler.FreshOrderIsLeast | internal/orchestration/scheduler.go:107-141 | Before the first completion it is the least topological order |
| ExecutorCounters.PendingZeroIff | internal/orchestration/orchestrator.go:231-247 | A counter over occurrences is zero exactly when every distinct predecessor is done |
| ExecutorCounters.PendingAfter | internal/orchestration/orchestrator.go:302-307 | Finishing a subtask lowers a counter by the number of occurrences of the edge |
| ExecutorCounters.BuildCounters | internal/orchestration/orchestrator.go:231-247 | The counters are the occurrences of edges into each subtask and the target lists hold every occurrence |
| ExecutorCounters.Roots | internal/orchestration/orchestrator.go:249-257 | The subtasks launched first are those without predecessors, in declaration order, and an accepted decomposition has one |
| ExecutorCounters.ReleaseDependents | internal/orchestration/orchestrator.go:302-307 | Every target's counter drops by its occurrences; those that reach zero are launched once |
| ExecutorCounters.CountDownMeaning | internal/orchestration/orchestrator.go:302-307 | What is launched is exactly what this completion was the last predecessor of |
| ExecutorCounters.ExecutorRefinesScheduler | internal/orchestration/orchestrator.go:302-307 | From the same completions the executor launches exactly what the scheduler's MarkComplete makes ready |
| ExecutorInvariant.InvNext | internal/orchestration/orchestrator.go:259-311 | Every step of every goroutine and of the coordinator keeps the invariant on slots, results, counters, launches and cancellation |
| ExecutorInvariant.InvRun | internal/orchestration/orchestrator.go:226-312 | The invariant holds at every point of every interleaving |
| ExecutorSafety.StartsAfterPredecessors | internal/orchestration/orchestrator.go:289-309 | A subtask leaves idle only when a successful result of each predecessor has been received |
| ExecutorSafety.BoundedWorkers | internal/orchestration/orchestrator.go:271-279 | At most MaxWorkers goroutines hold a slot, from acquiring it until their result is sent and it is given back, and the registered workers are among them |
| ExecutorRuns.SideBySide | internal/orchestration/orchestrator.go:259-282 | Any subtasks without predecessors, up to MaxWorkers of them, can run side by side: some run without cancellation leads to exactly them being at work |
| ExecutorRuns.EveryOutcome | internal/orchestration/orchestrator.go:314-360 | Whatever outcome each worker is to have, some run without cancellation gives it to all that are launched, and returns without an error exactly if all are good |
| ExecutorRuns.SelectionFails | internal/orchestration/orchestrator.go:315-325 | Selecting a worker can fail: the failure is reported though no worker has been at work |
| ExecutorRuns.CancelledBeforeWork | internal/orchestration/orchestrator.go:271-276 | A caller that cancels in time can get an error with no worker ever at work and no result sent |
| ExecutorRuns.CancelAnytime | internal/orchestration/orchestrator.go:289-296 | The caller can cancel at any point of any run |
| ExecutorSafety.SendNeverBlocks | internal/orchestration/orchestrator.go:280-282 | A goroutine with a result always finds room in the channel |
| ExecutorSafety.FailureBlocksSuccessors | internal/orchestration/orchestrator.go:297-309 | No transitive successor of a subtask whose success was not received is ever launched |
| ExecutorSafety.FailedSuccessorsStayIdle | internal/orchestration/orchestrator.go:297-309 | Once a failed result is sent, no transitive successor is launched, then or later |
| ExecutorSafety.LaunchedOnce | internal/orchestration/orchestrator.go:265-284 | No run launches a subtask twice |
| ExecutorSafety.WorkOutstanding | internal/orchestration/orchestrator.go:289-310 | While results are outstanding and nothing failed, some launched or about to be launched subtask has not reported |
| ExecutorSafety.NeverStuck | internal/orchestration/orchestrator.go:289-311 | Until the executor has returned some step other than an outside cancellation is possible |
| ExecutorSafety.RunsAreFinite | internal/orchestration/orchestrator.go:226-312 | No run is longer than the measure of its first state, so with the previous row every maximal run returns |
| ExecutorSafety.Outcome | internal/orchestration/orchestrator.go:289-311 | No error exactly when every result was received and successful; without outside cancellation exactly when every worker succeeded, and else a worker failed; if all succeeded, an error exactly when the cancellation was seen before the last result; no goroutine is left |
| ExecutorSafety.CancellationHidesSuccess | internal/orchestration/orchestrator.go:289-297 | For every configuration there is a run in which every worker succeeds and the executor returns an error, the caller having cancelled |
| ExecutorSafety.AcceptedConfig | internal/orchestration/orchestrator.go:178-198 | A decomposition that passes validation gives the executor all it relies on |
| ExecutorSafety.ReceiveFollowsScheduler | internal/orchestration/orchestrator.go:297-308 | In any reachable state a received success is the scheduler's completion followed by Schedule |
| Relay.EventChannel.Emit | internal/runtime/emitter.go:28-44 | Fails exactly when closed; never waits; keeps the event unless the buffer is full and nobody waits |
| Relay.EventChannel.Close | internal/runtime/emitter.go:55-67 | Closing twice is closing once and what is buffered stays |
| Relay.EventChannel.Receive | internal/runtime/session_manager.go:505-507 | Events leave in the order kept; consumed and buffered together are the kept ones |
| RelaySpec.LosesHead | internal/runtime/session_manager.go:632-641 | Dropping the buffer head and appending the signal loses exactly that one event of all delivered ones |
| RelaySpec.SendIsSound | internal/runtime/session_manager.go:604-619 | A send to an open subscription appends the event, or fails exactly when the consumer is its capacity behind; nothing delivered changes then |
| RelaySpec.MarkIsSound | internal/runtime/session_manager.go:621-643 | The mark after a failed send leaves everything offered but the last, less the buffer head at that moment, and the signal; nothing is lost exactly when the buffer is empty then, the consumer having taken its whole capacity since the send |
| RelaySpec.OfferIsSound | internal/runtime/session_manager.go:604-643 | With nothing in between, send and mark overflow exactly a full buffer, and what is delivered stays what was offered, or that without the event lost |
| RelaySpec.TakeBeforeMark | internal/runtime/session_manager.go:604-643 | An instance: a take before the mark loses no event, a take after it does |
| RelaySpec.DeliveredEvents | internal/runtime/session_manager.go:604-643 | Event by event: all of them until an overflow; after it all but the lost one, if any, with the signal last |
| RelaySpec.CompletionArrives | internal/runtime/session_manager.go:654-660 | A session_complete offered last is delivered last, overflow or not |
| RelaySpec.ErrorArrives | internal/runtime/session_manager.go:646-660 | A subscription that overflowed on any other event ends with the error that says it fell behind |
| RelaySpec.ErrorIff | internal/runtime/session_manager.go:621-660 | Over every sequence of steps that error, not being broadcast, is delivered exactly to subscriptions that overflowed on an event other than session_complete |
| RelaySpec.CapacityIs | internal/runtime/session_manager.go:510-530 | A subscription holds as many events as asked for, or else the relay's own number, which is the one asked for or 256, and begins with what comes next |
| RelaySpec.CapacityStays | internal/runtime/session_manager.go:510-530 | No step changes a subscription's capacity or when it joined |
| RelaySpec.InvAfter | internal/runtime/session_manager.go:500-643 | Every step of a broadcast, and every join, take and close and the end of the relay before, between and after them, keep each subscription sound and its events the piece of the history since it joined |
| RelaySpec.Delivery | internal/runtime/session_manager.go:500-660 | Over every sequence of these steps: an open subscription was delivered everything broadcast since it joined, but for the last while that is being sent; a closed one those up to some point; an overflowed one those before the event whose send found it its capacity behind, less at most one it had not taken then, and the signal; none is lost only if it has taken all of those |
| RelaySpec.OverflowIff | internal/runtime/session_manager.go:532-544 | Over every sequence of steps a subscription overflows if and only if some send finds it open and exactly its capacity behind |
| RelaySpec.CompletionReaches | internal/runtime/session_manager.go:532-544 | A session_complete that is the last broadcast is the last event delivered to every subscription open when it begins, once the relay is through with it, whatever clients do before, meanwhile and after |
| RelaySpec.DoomedIff | internal/runtime/session_manager.go:523-543 | Over every sequence of steps: the relay deals with a closed subscription if and only if its consumer closed it while a broadcast dealt with it, or a broadcast began before the registry had forgotten a closed one |
| RelaySpec.DoomedCrashes | internal/runtime/session_manager.go:538-543 | Every send on a closed channel comes about so, and then it is bound to happen: the broadcast cannot finish, the relay has a next step, and its steps run out |
| RelaySpec.BroadcastIsSteps | internal/runtime/session_manager.go:532-544 | Offering an event to every open subscription at once is a run of the relay's steps |
| RelaySpec.UndisturbedOverflow | internal/runtime/session_manager.go:500-508 | With no client acting, a subscription overflows exactly when what it holds and what comes exceed its capacity, and else is offered everything |
| Relay.EventSubscription.TrySend | internal/runtime/session_manager.go:604-619 | Sends exactly when open and not full |
| Relay.EventSubscription.MarkOverflow | internal/runtime/session_manager.go:621-643 | Once: records the signal, loses the oldest buffered event, appends the signal, closes and deregisters; it fails exactly on a subscription closed before without overflow |
| Relay.EventSubscription.Close | internal/runtime/session_manager.go:576-589 | Closes once and deregisters; the buffer stays to be read |
| Relay.EventSubscription.Take | internal/runtime/session_manager.go:569-574 | The oldest buffered event is taken, closed or not, and what is delivered in all stays the same |
| Relay.EventSubscription.OverflowEvent | internal/runtime/session_manager.go:591-602 | An event exactly after an overflow, the last one delivered: the session_complete missed, or else the error that it fell behind |
| Relay.SessionEventRelay.Subscribe | internal/runtime/session_manager.go:510-530 | Open and registered, with the size asked for and everything to come, unless the relay is closed, then closed |
| Relay.SessionEventRelay.Begin | internal/runtime/session_manager.go:532-538 | A broadcast starts with exactly the registered subscriptions |
| Relay.SessionEventRelay.Send | internal/runtime/session_manager.go:540 | The event is sent to one subscription if it is open and has room, as the step of the system |
| Relay.SessionEventRelay.Mark | internal/runtime/session_manager.go:541 | The subscription whose send failed is marked and deregistered, as the step of the system; this fails exactly if its consumer has closed it |
| Relay.SessionEventRelay.Deliver | internal/runtime/session_manager.go:539-543 | With nobody else acting, one subscription is sent the event and marked if that fails |
| Relay.SessionEventRelay.Broadcast | internal/runtime/session_manager.go:532-544 | With nobody else acting, every registered subscription is offered the event once, in any order, and no other changes |
| Relay.SessionEventRelay.CloseAll | internal/runtime/session_manager.go:546-558 | All registered subscriptions are closed with their buffers, and no later one is open |
| Relay.SessionEventRelay.ConsumerTakes | internal/runtime/session_manager.go:569-574 | A take through the relay is the step of the system |
| Relay.SessionEventRelay.ConsumerCloses | internal/runtime/session_manager.go:576-589 | A close by a consumer, during a broadcast or not, is the two steps of the system |
| Relay.SessionEventRelay.Run | internal/runtime/session_manager.go:500-508 | While the session goes on emitting and after it has closed the input, every event the input kept is broadcast, in order, and then all is closed; a subscription open before overflows exactly when its buffer and these events exceed its capacity |
| PluginRecovery.TrailingRun | internal/plugin/manager.go:350-370 | The count of a history is the length of the run of failures that ends its attempts |
| PluginRecovery.AtMostTwo | internal/plugin/manager.go:278-327 | What one call adds to a history holds at most two attempts and one reload |
| PluginRecovery.Counted | internal/plugin/manager.go:350-379 | An attempt moves count and flag as the history demands: success resets, a second failure in a row gives up |
| PluginRecovery.AfterReload | internal/plugin/manager.go:217-276 | A reload keeps the count and makes the plugin available |
| PluginRecovery.PluginManager.Load | internal/plugin/manager.go:169-200 | A successful load starts an empty history under the tool's name; a failed one changes nothing |
| PluginRecovery.FirstNamed | internal/plugin/manager.go:440-447 | Finds the first path with the base name, exactly when there is one |
| PluginRecovery.PluginManager.ReloadTool | internal/plugin/manager.go:202-276 | Succeeds exactly when a path is found, the plugin loads and the old instance closes; on success the new instance takes over history and count, perhaps under a new name; else nothing changes |
| PluginRecovery.PluginManager.CountFailure | internal/plugin/manager.go:350-379 | The plugin is given up exactly at the second failure in a row |
| PluginRecovery.PluginManager.ResetFailureCount | internal/plugin/manager.go:360-370 | A success clears count and flag |
| PluginRecovery.PluginManager.ExecuteWithRecovery | internal/plugin/manager.go:278-327 | At most attempt, reload, attempt, and nothing while unavailable; reports unavailable exactly when the plugin then is; a reload only at a first failure with a failed health check; no other history changes |
| PluginRecovery.PluginManager.CloseAll | internal/plugin/manager.go:450-472 | Nothing stays tracked |
| RunLoop.DecideIterationOutcome | internal/runtime/runtime.go:347-357 | A request for input blocks the session even if verification passed; else a pass is success |
| RunLoop.AskedAre | internal/runtime/runtime.go:334-345 | The verifier is asked once, in order, about every iteration that took a step, a request for input excepted |
| RunLoop.TraceIs | internal/runtime/runtime.go:115-192 | The announcements of a run, step by step: the plan, numbered 0 and then one past the steps taken, the tool's start and end, the step |
| RunLoop.Engine.ExecuteIteration | internal/runtime/runtime.go:260-314 | A step that results is the answer of agent and verifier, announced in the code's order; a failure is the first that the world has for this iteration and the events it tries to emit, and what was announced and asked until then is exact |
| RunLoop.Engine.MakePlan | internal/runtime/runtime.go:186-192 | Goes on exactly with a plan made and announced; one that fails, or whose announcement does, ends the session as a fatal error: status saved, cause reported, end announced, and the session returned if all of that works |
| RunLoop.Engine.TakeStep | internal/runtime/runtime.go:123-138 | An iteration runs only while the context is alive and time is left; otherwise, or when it fails, the session ends with the steps so far, interrupted by a context error and fatal by others, and is returned if its end can be saved and announced |
| RunLoop.Engine.RecordStep | internal/runtime/runtime.go:497-505 | Fails exactly when store or memory does; the store holds the step unless the store failed |
| RunLoop.Engine.FailSession | internal/runtime/runtime.go:507-526 | The status is saved, the cause reported if there is one, and the end announced last, up to the first of these that fails; the session is returned exactly if none does |
| RunLoop.Engine.Run | internal/runtime/runtime.go:64-196 | Whatever the world does: a run that starts comes to an end with at most max(MaxSteps, 1) and max(MaxRetries, 0) + 1 steps that match their iterations and the first cause the world gives at that point; statuses saved, steps stored, events announced and iterations asked about are exactly those of that end; it is returned exactly if its status can be saved and its end announced. With no fault, pass or request it takes exactly the smaller number and the status says which one ran out |
| RunLoop.StepsAre | internal/runtime/runtime.go:122-160 | Every step is what agent and verifier answered at its iteration, planned for and entered alive and in time |
| RunLoop.StatusDecides | internal/runtime/runtime.go:122-196 | With no emission failing, the steps and what the world has at the next iteration decide the status: step not recorded, request, pass, steps and retries used up, plan, context and time, and the first failure of the iteration, a context error interrupting and any other being fatal |
| RunLoop.ReturnedMeans | internal/runtime/runtime.go:507-526 | A returned session: running and its status were saved, its steps were announced in order, then its cause if any, and at last, once, its end |
| RunLoop.AbortedIff | internal/runtime/runtime.go:64-196 | Nothing is returned if and only if the run could not start, or the final status could not be saved, or an event of the end not be emitted |
| RunLoop.BudgetDecides | internal/runtime/runtime.go:120-195 | With no fault, pass or request: exactly min(maxSteps, maxRetries+1) steps, stored and indexed 1 to n; verification_failed if and only if maxRetries+1 is below maxSteps, else budget_exceeded |
| RunLoop.SameSteps | internal/runtime/runtime.go:122-160 | Two runs in a world take the same steps for as long as both go on |
| RunLoop.NoLonger | internal/runtime/runtime.go:120-195 | No run in a world goes on beyond where another one ended |
| RunLoop.RunIsDetermined | internal/runtime/runtime.go:120-195 | In any world, whatever fails in it, two runs with the same budgets come to the same end |
| RunLoop.KeptIsDetermined | internal/runtime/runtime.go:64-196 | So what Run ensures leaves no choice: whether a session is returned, the session, and all that was saved, stored, announced and asked |
| SessionManagerSpec.Classify | internal/runtime/session_manager.go:472-487 | Cancelled exactly for a cancel, a context error or an interrupted session; failed exactly for any other error or a failing status; else completed |
| SessionManagerRuns.InvNext | internal/runtime/session_manager.go:163-332 | Every step keeps: the count is the number of registered actors within the cap, one per session; the wait group counts goroutines not over; Shutdown is back without error only when none is left |
| SessionManagerRuns.AtMostCap | internal/runtime/session_manager.go:180-194 | At every point of every run the count is the number of registered actors and at most the cap |
| SessionManagerRuns.OneActorPerSession | internal/runtime/session_manager.go:185-187 | At no point of any run do two registered actors share a session |
| SessionManagerRuns.FinalState | internal/runtime/session_manager.go:405-454 | States move from pending to running to one final state that stays; a cancel before the end makes it cancelled |
| SessionManagerRuns.NoStartAfterShutdown | internal/runtime/session_manager.go:182-184 | Once a shutdown has begun no start succeeds |
| SessionManagerRuns.ShutdownLeavesNone | internal/runtime/session_manager.go:236-276 | After Shutdown returned without error no actor is registered and every goroutine is over, for good |
| SessionManagerRuns.ShutdownCancels | internal/runtime/session_manager.go:260-288 | When Shutdown is back after its timeout or the end of its context, every actor registered at that moment has been cancelled |
| SessionManagerRuns.ActorsDrain | internal/runtime/session_manager.go:290-332 | From the begin of a shutdown on, in every run, the actors take as many steps as they had left, whatever else happens in between, and the wait group is empty exactly when they have taken all of them |
| SessionManagerRuns.DrainedIff | internal/runtime/session_manager.go:290-332 | The wait group is empty exactly when no actor can take a step, so every maximal run drains it |
| SessionManagerRuns.DrainedReturns | internal/runtime/session_manager.go:250-276 | With the wait group empty, a call of Shutdown can mark what it has left to cancel and then return, without an error unless its context was over |
| SessionManagerLives.AdmittedIff | internal/runtime/session_manager.go:163-199 | At every point of every run a request is admitted if and only if it is faultless, no shutdown has begun, no registered actor has the session and fewer than the cap are registered; then one pending actor is added, else nothing happens |
| SessionManagerLives.EndsAs | internal/runtime/session_manager.go:429-487 | Over whole runs, the final state of an actor by how its run ended and whether it was cancelled before: cancelled, failed or completed |
| SessionManagerLives.CancelledIff | internal/runtime/session_manager.go:418-427 | Over whole runs an actor is marked if and only if someone cancelled it, and its context interrupted if and only if someone did once it was attached |
| SessionManagerLives.ReturnsAfter | internal/runtime/session_manager.go:259-276 | A call of Shutdown is back with an error only after its timeout or the end of its context, and without one only when no goroutine is left |
| SessionManagerLives.ContextEndWaits | internal/runtime/session_manager.go:264-268 | A call whose context ends in its first wait is back only when no goroutine is left, with an error |
| SessionManagerLives.LifeOfActor | internal/runtime/session_manager.go:163-332 | From any point where a request is admissible its actor can run, be cancelled, and end in any way, and is then in the state that calls for and deregistered |
| SessionManagerLives.ShutdownGivesUp | internal/runtime/session_manager.go:262-276 | A waiting call of Shutdown can time out and be back with an error, every registered actor marked and none a step further |
| SessionManagerLives.ShutdownWaits | internal/runtime/session_manager.go:264-268 | Or its context can end, every registered actor being marked and none a step further |
| SessionManager.SessionActor.MarkAsCancelled | internal/runtime/session_manager.go:418-427 | The cancellation is recorded always; the context is interrupted only once its cancel function is attached |
| SessionManager.SessionActor.FinishRun | internal/runtime/session_manager.go:429-487 | The state becomes the one the end calls for, and final |
| SessionManager.SessionManager.constructor | internal/runtime/session_manager.go:136-161 | Starts empty and accepting, with a cap of 8 for a non-positive one |
| SessionManagerSpec.FaultOf | internal/runtime/session_manager.go:456-470 | A request is refused unless it has a runner and one non-empty identifier for task and session; which fault is reported is exact |
| SessionManager.SessionManager.Start | internal/runtime/session_manager.go:163-199 | Refusals in the code's order: faulty request, shutting down, session active, cap reached; an actor is added exactly if none of them applies |
| SessionManager.SessionManager.Lookup | internal/runtime/session_manager.go:226-234 | Finds exactly the registered actor of a session |
| SessionManager.SessionManager.CompleteActor | internal/runtime/session_manager.go:321-332 | Deregisters exactly this actor and lowers the count |
| SessionManager.SessionManager.Cancel | internal/runtime/session_manager.go:398-403 | A cancel at any time is a step of the system |
| SessionManager.SessionManager.BeginShutdown | internal/runtime/session_manager.go:240-244 | Starts are refused from here on |
| SessionManager.SessionManager.CancelAllActive | internal/runtime/session_manager.go:278-288 | Every registered actor is marked, and nothing is left to mark for this call |
| ContextWindows.MergeContextWindows | internal/tools/adapters/codesearch.go:302-319 | Windows in order, inside the file, neither overlapping nor touching, holding exactly the lines within context of a match |
| ContextWindows.HeldIff | internal/tools/adapters/codesearch.go:302-319 | Some window holds a line if and only if it is in the file and at most context lines from a match |
| ContextWindows.WindowsUnique | internal/tools/adapters/codesearch.go:302-319 | No other separated windows hold the same lines |
| EventStream.AllChunksOffered | internal/llm/sse.go:35-75 | What there is to do for the lines offers exactly the chunks they dispatch, the unclosed one at the end of input |
| EventStream.PlayConcat | internal/llm/sse.go:13-76 | The second part of what there is to do is begun exactly when everything in the first passes, at one look at the context for each line and chunk |
| EventStream.Reader.Flush | internal/llm/sse.go:18-33 | The pending event is handed over unless it is the done marker or the context ended, and reading goes on exactly if it is accepted; nothing stays pending |
| EventStream.Reader.ParseSSE | internal/llm/sse.go:13-76 | Outcome, chunks handed over and looks at the context are those of doing what the lines say in order up to the first thing that does not pass; every chunk but the last was accepted; it fails exactly when the last was refused, is cancelled exactly when the last look found the context done, and meets the reading error exactly when all before it passed |
| EventStream.PlayFacts | internal/llm/sse.go:13-76 | These facts for any list of things to do |
| EventStream.ReadFailedIff | internal/llm/sse.go:65-67 | A reading error is returned exactly when every line and every closed chunk before it passed; these chunks have then been handed over, with one look for each line and chunk |
| EventStream.ConsumerDecides | internal/llm/sse.go:18-75 | With a calm input and context everything before the done marker is handed over, or all up to the first chunk not accepted, and then a refusal fails and an end of file finishes |
| EventStream.EndOfFileEndsQuietly | internal/llm/sse.go:43-49 | An instance: a consumer answering end of file ends reading without error, the second chunk never handed over |
| EventStream.DoneStopsReading | internal/llm/sse.go:24-26 | Once the lines before have closed a done event, nothing after them changes how reading ends |
| EventStream.LiteralDone | internal/llm/sse.go:10-51 | An event data: [DONE] ends reading without an error: the chunks before it are handed over, nothing after it |
| EventStream.OneLineEvent | internal/llm/sse.go:18-33 | An event of one line is handed over exactly if it is not [DONE] |
| EventStream.LineIs | internal/llm/sse.go:41-63 | A blank line closes an event, a line with data: adds what follows less one space, any other is skipped |
| EventEncoding.ScanText | internal/llm/sse.go:14-40 | Scanning a text of newline-free lines finds these lines, each less a carriage return at its end |
| EventEncoding.ScanUnfinished | internal/llm/sse.go:14-40 | A last line without a newline is found too, unless it is empty |
| EventEncoding.Split | internal/llm/sse.go:23 | The parts of a text hold no newline |
| EventEncoding.JoinSplit | internal/llm/sse.go:23 | Joining the lines of a chunk gives the chunk back |
| EventEncoding.SplitJoin | internal/llm/sse.go:23 | Splitting a joined chunk gives its newline-free lines back |
| EventEncoding.ItemsRead | internal/llm/sse.go:52-63 | Data lines accumulate in order across interleaved comments and other fields |
| EventEncoding.LinesBack | internal/llm/sse.go:14-40 | The text of encoded blocks, each item one line, is scanned as exactly their lines |
| EventEncoding.WellEncodedMeans | internal/llm/sse.go:41-63 | The encodings spoken of are those of any data, comments and other fields of one line each in events closed by blank lines, the last one perhaps not |
| EventEncoding.RoundTrip | internal/llm/sse.go:13-76 | Reading the text of an encoding gives exactly the chunks it carries |
| EventEncoding.DeliveredUnchanged | internal/llm/sse.go:13-76 | The carried chunks, none the done marker, are delivered unchanged and in order from the text of any encoding of them, reading finishing without error |
| EventEncoding.PlainRead | internal/llm/sse.go:13-76 | What is read of the text of the plain encoding of any chunks, empty and multi-line ones included: each line of a chunk less a carriage return at its end |
| EventEncoding.PlainIff | internal/llm/sse.go:13-76 | The plain encoding of chunks is read back as them if and only if no line of them ends in a carriage return |
| EventEncoding.PlainDelivery | internal/llm/sse.go:13-76 | End to end: any chunks but the done marker are delivered unchanged from the text of their plain encoding, reading finishing without error, if and only if no line of them ends in a carriage return |
| EventEncoding.WrittenEncoding | internal/server/api.go:597-621 | The text the server writes, comments and event types included, is that of an encoding which carries exactly the data of its events |
| EventEncoding.ServerDelivery | internal/server/api.go:597-621 | End to end: the text the server writes, each comment, type and data one line, is read back as the data of its events |

## Left out

- findCycle takes start nodes in string order; the model takes them in any order, which is more general.
- Maps from identifiers to booleans are sets, and nil receivers and nil maps do not occur.
- Descriptions and other fields that no decision reads are kept only as far as validation needs them.
- The executor's goroutines are a transition system on values, not objects: channel, semaphore and error-group operations are single steps; only the code before and inside the coordinating loop is imperative.
- Worker selection, result merging and publishing are part of the worker's arbitrary outcome; a reporter that overrides the subtask identifier of its result, or a result channel that blocks, is not modelled.
- executeDecomposition is modelled for decompositions that passed validation, as SubmitTask ensures, so its error for missing roots is shown not to occur.
- Relay.EventSubscription.Close: the objects close a channel and deregister it at once; in RelaySpec these are two steps.
- Relay.EventSubscription.MarkOverflow: dropping the head and appending the signal are one step; a take between them has the effect of one before or after both.
- PluginRecovery.PluginManager.ExecuteWithRecovery: calls are sequential; concurrent calls on one plugin are not modelled.
- Closing of plugin instances that a load replaces, and what a close handler does, are not modelled.
- RunLoop.Engine.Run: plans, memory, provenance and error texts are reduced to whether their steps fail.
- Resuming and streaming runs start the same loop and are not modelled apart.
- The parent context of a session can end its run only through what the run returns; the finalizer, the event channel and the done channel of an actor are part of its last step.
- SessionManager.SessionManager.CancelAllActive: marks one actor after the other without other steps between; the transition system allows any steps between the marks.
- EventStream.Reader.ParseSSE: works on the lines that EventEncoding.Scan finds; a line over the scanner's length limit is a reading error after the lines before it.
- EventEncoding.ServerDelivery: that JSON encoding makes data one line, and the trimming of comments, are not modelled; event types the server does not support are not written.
- A zero-capacity subscription does not occur: sizes that are not positive are replaced by defaults.
- HTTP handlers, storage, process and file access, configuration, registries and the web interface.
