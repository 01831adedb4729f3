# Workflow engine: a verified model

A Dafny model of a multi-tenant workflow engine, with proofs about the parts that have to agree with
each other or to hold over whole runs. Methods that follow loops and in-place updates of the program
are proved against specifications; the lemmas beside them say what those specifications amount to.
Run `dafny verify dfyconfig.toml` in this directory.

**Scheduling.** `Graph` defines arcs, closed walks, reachability and longest-path depth. Three graph
algorithms are proved against these definitions: the executor's Kahn sort with its definition-order
fallback (`TopologicalSort`), the builder's three-colour search (`CycleDetection`), and the builder's
breadth-first connectivity test (`Connectivity`). `GraphAgreement` runs the first two on one graph:
`HasCycle` answers yes exactly when the Kahn sort has to fall back. `DefinitionOrder` shows that the order
is determined by its description (sources first, then every node when its last predecessor lets it go)
and says when it is the definition order. `WorkflowValidation` relates what the builder accepts to what
the compiler accepts.

**The run loop.** `Routing` and `RunLoop` model one execution: the queue, the cancel flag, connector
and agent steps, the pre-check and the debit, the log rows, the totals and the event stream.
The outcome of every turn is arbitrary, so a statement about `RunExecution` is a statement about
every run. `RunOutcomes` says, by what each turn met, how runs end and what their rows record;
`RunTheorems` draws the conclusions. `TokenLedger` interleaves the commits of any number
of executions, and `LedgerOfRuns` ties the ledger to their runs; `EventBroadcast` follows each event into
the subscribers' queues, and `LiveStream` says what a subscriber of a whole run receives.

**Durable dispatch.** `WebhookLineage` is a state machine over one tenant's execution table: ingestion,
direct creations and their background runs, the worker's batch one candidate at a time, and manual and
plan-driven retries and cancellations, whose reads and writes are separate steps. `WebhookDispatcher` and
`PlanWorker` are the program's loops, proved to be runs of that machine with everyone else's steps in
between. `PlanLife` is the machine of one automation plan: decisions read and write, worker runs select,
mark, carry out, settle and commit. The program guards none of these steps against one another;
`PlanLife` and `LineageRaces` prove which overlaps have to stay away, and that no others do.

**Safety over time.** `RateLimit` (the sliding window against counting all of history),
`AutomationScheduler` (intervals and failure backoff under the leader lock), `Admission` (the tenant row
lock as separate acquire, check, count and insert steps), `RefreshTokens` (rotation with replay
detection, section 4.14.2 of RFC 9700) and `IncidentAnalytics` (counts that add up).

## What turned out not to hold

- A plan can run twice, or run although it was rejected. Two overlapping worker runs that both selected it
  both carry it out (`PlanLife.ApprovedOnceRunTwice`), and an approval or rejection that was read before
  another decision is written over what happened since (`PlanLife.StaleApprovalRunsTwice`,
  `PlanLife.StaleDecisionWritten`). The condition: no run selects a plan that another run still holds, and
  no decision on a plan is read while another is open, unless all of them are rejections. Under it a plan
  runs at most once, after an approval and never when rejected (`PlanLife.PlanRunsOnceAfterApproval`), and
  a step that breaks it lets exactly this fail (`PlanLife.SafeIffExclusive`).
- A plan can retry what has been retried already, when another retry of the same source is read or found
  while the plan's is under way: `LineageRaces.OverlappingPlansRetryTwice`, from the state that
  `LineageRaces.OneDeadLetter` reaches, with the exact condition in `LineageRaces.PlansSafeIff`.
- A failed, retried or dead-lettered execution can end up cancelled, when the cancellation was read while it
  was still pending: `LineageRaces.LateCancelRenamesParent`, with the exact condition in
  `LineageRaces.FailedStayIff`. Attempts, roots and the single automatic child are not affected.
- A graph the builder accepts need not compile. An edge to an unknown node counts as a connection for
  the builder and is an error for the compiler. `WorkflowValidation.AcceptedCompilesIff` gives the exact
  condition under which an accepted graph compiles, `WorkflowValidation.AcceptedButDangling` an example.
- `isFullyConnected` compares sizes. A dangling edge can make up for a missing node
  (`Connectivity.DanglingEdgeFoolsSizeTest`) or spoil the test of a connected graph
  (`Connectivity.DanglingEdgeSpoilsSizeTest`). With distinct ids the test passes if and only if as many
  unknown ids are reached as known ones are missed (`Connectivity.SizeTestCompensates`). A connected graph
  of several nodes passes if and only if no edge has exactly one known end (`Connectivity.ConnectedPassesIff`);
  `Connectivity.SizeTestRightIff` covers the others in terms of what the search reaches.
- The limiter with a limit below one raises on its empty list instead of rejecting (rate_limit.py:91-92):
  `RateLimit.FirstRequestUnderZero`. `RateLimit.Limiter.Admit` states that it does so exactly then.
- A retry scheduled between a direct creation's count and its commit can carry the tenant past its plan's
  limit: `Admission.BypassPassesLimit`. It does so exactly when a direct creation has been counted below the
  limit and there is not room for both (`Admission.WithinLimitIffSpares`); without such a retry direct
  creations commit within the limit (`Admission.DirectCommitsWithinLimit`). `Admission.InterleavingsKeepCaps`
  bounds the excess.
- At the iteration cap the final event reports zero tokens whatever was spent: `CappedRun.RunSelfLoop` spends
  ten. `RunTheorems.StreamIsWellFormed` states when the final event carries the persisted total and when zero.
- The docstring of `_topological_sort` promises definition order for cyclic graphs. The code keeps the
  sorted prefix and appends only the nodes on or below a cycle: `DefinitionOrder.CycleMovesBack` is a graph
  whose order differs, and `DefinitionOrder.OrderIsDefinitionOrderIff` says on which graphs it does not.

## Model

| member | source | states |
|---|---|---|
| TopologicalSort.TopologicalSort | backend/app/engine/executor.py:729-763 | The order is a prefix followed by exactly the nodes on or below a cycle, in definition order; the prefix lists every predecessor first, is sorted by longest-path depth, and holds the sources in definition order and then every node in the order of its release. |
| TopologicalSort.BuildAdjacency | backend/app/engine/executor.py:735-744 | The adjacency lists hold the known targets in edge order, duplicates included, and the in-degrees count arcs with known ends, duplicates included. |
| TopologicalSort.InitialQueue | backend/app/engine/executor.py:746-748 | The first queue is the ids without predecessors in definition order, each at depth zero, and it starts Kahn's invariant. |
| TopologicalSort.Release | backend/app/engine/executor.py:753-756 | After a node's neighbours are decremented the recorded in-degrees count the arcs from nodes not yet emitted; the queue only grows at its end, stays sorted by depth, at most one level ahead, and gains each node at the last mention by its last predecessor. |
| TopologicalSort.KahnLoop | backend/app/engine/executor.py:750-756 | The loop terminates and emits exactly the nodes no cycle leads to, each after its predecessors, layer by layer in longest-path depth, first in first out. |
| TopologicalSort.LayeredOrdersArcs | backend/app/engine/executor.py:750-756 | In a layered prefix every predecessor of a node comes earlier and at a smaller depth. |
| TopologicalSort.EmittedIffNotFromCycle | backend/app/engine/executor.py:750-759 | When the queue has run dry, a node has been emitted if and only if no cycle leads to it. |
| TopologicalSort.FallbackSuffix | backend/app/engine/executor.py:758-761 | What the fallback appends is exactly the nodes on or below a cycle, in definition order, and the result is a permutation. |
| TopologicalSort.FallbackIffCyclic | backend/app/engine/executor.py:758-761 | The appended part is non-empty if and only if the edges among the nodes contain a directed cycle. |
| TopologicalSort.ScheduleTopologicalIffAcyclic | backend/app/engine/executor.py:729-763 | The whole order respects every arc if and only if the graph is acyclic, and then it is a layer-by-layer schedule. |
| TopologicalSort.PendingZero | backend/app/engine/executor.py:754-755 | An in-degree, counted with parallel edges, is zero exactly when every predecessor has been emitted. |
| TopologicalSort.ScheduledIsPermutation | backend/app/engine/executor.py:758-763 | A schedule lists every id exactly once. |
| DefinitionOrder.FirstInFirstOutIsUnique | backend/app/engine/executor.py:750-756 | Two topological orders of the same nodes in which each stands in the order of its release are equal. |
| DefinitionOrder.OneSchedule | backend/app/engine/executor.py:729-763 | For every graph with distinct ids one order fits the description of the sort. |
| DefinitionOrder.OrderIsDefinitionOrderIff | backend/app/engine/executor.py:730-734 | The sort returns the definition order if and only if the definition lists first, in an order of release, the nodes no cycle leads to, and the others last. |
| DefinitionOrder.CycleMovesBack | backend/app/engine/executor.py:730-734 | With nodes a, b and an edge from a to itself the order is b, a. |
| GraphAgreement.CheckThenSort | frontend/src/utils/graphValidation.js:56-87 | On every graph with distinct ids the builder finds a cycle if and only if the executor appends cycle-bound nodes, if and only if its order breaks an arc. |
| Graph.ClosedUnderPredecessors | backend/app/engine/executor.py:758-761 | A node of a finite set in which every member has a predecessor lies on or below a cycle (a walk longer than the set repeats a node). |
| CycleDetection.HasCycle | frontend/src/utils/graphValidation.js:56-87 | True if and only if the edges among the nodes contain a non-empty closed directed walk. |
| CycleDetection.Search.Dfs | frontend/src/utils/graphValidation.js:69-78 | A yes means a cycle; a no leaves the node black, black nodes black, and gray nodes exactly the current path. |
| CycleDetection.Search.constructor | frontend/src/utils/graphValidation.js:57-67 | Every node starts white, and the invariant about colours, path and finishing order holds. |
| CycleDetection.ForwardLists | frontend/src/utils/graphValidation.js:57-61 | Each node's list holds the targets of its edges in edge order, unknown targets included. |
| CycleDetection.BackEdge | frontend/src/utils/graphValidation.js:73 | An edge from the end of the path to a gray node closes a cycle. |
| CycleDetection.Finish | frontend/src/utils/graphValidation.js:76 | A node whose successors are all black can be blackened: it gets a rank below all of them and the invariant survives. |
| CycleDetection.AllBlackAcyclic | frontend/src/utils/graphValidation.js:80-86 | When every node is black there is no cycle. |
| Connectivity.BuildAdjacencyList | frontend/src/utils/graphValidation.js:12-20 | Each known node's list holds exactly its neighbours in either direction. |
| Connectivity.Bfs | frontend/src/utils/graphValidation.js:31-45 | The visited set is exactly what the links reach from the first node. |
| Connectivity.IsFullyConnected | frontend/src/utils/graphValidation.js:28-48 | True if and only if there is at most one node or the first node's component is as large as the node list. |
| Connectivity.ConnectedIffAllReached | frontend/src/utils/graphValidation.js:31-47 | Connectedness is that the search from one known node reaches all known nodes, whatever unknown ids it reaches besides. |
| Connectivity.SizeTestCompensates | frontend/src/utils/graphValidation.js:47 | With distinct ids the sizes agree if and only if as many unknown ids are reached as known ones are missed. |
| Connectivity.SizeTestRightIff | frontend/src/utils/graphValidation.js:47 | The size test gives the right answer if and only if nothing unknown is reached when nothing is missed, and the two numbers differ when something is. |
| Connectivity.ConnectedPassesIff | frontend/src/utils/graphValidation.js:28-48 | A connected graph of several nodes passes the size test if and only if no edge has exactly one known end. |
| Connectivity.SizeTestMeansConnected | frontend/src/utils/graphValidation.js:47 | With distinct ids and known endpoints the size comparison is equivalent to connectedness. |
| Connectivity.DanglingEdgeFoolsSizeTest | frontend/src/utils/graphValidation.js:16-17 | A dangling edge makes the size comparison pass on a graph that is not connected. |
| Connectivity.DanglingEdgeSpoilsSizeTest | frontend/src/utils/graphValidation.js:16-17 | A dangling edge makes the size comparison fail on a graph that is connected. |
| WorkflowValidation.FindOrphanNodes | frontend/src/utils/graphValidation.js:95-107 | The result is exactly the ids no edge touches, and empty for at most one node. |
| WorkflowValidation.ValidateGraph | frontend/src/utils/graphValidation.js:117-188 | No errors if and only if the graph is accepted; otherwise each kind of error is reported exactly when its check fails; an empty graph yields one error. |
| WorkflowValidation.CheckNodesAndConfigs | frontend/src/utils/graphValidation.js:151-185 | Missing configurations, incomplete connectors and blank prompts are each reported exactly when present, and earlier errors are kept. |
| WorkflowValidation.UnknownEndpoint | backend/app/engine/compiler.py:86-92 | Finds no error if and only if every edge ends at known nodes; an error names the first dangling edge, its source before its target. |
| WorkflowValidation.ConnectedNodes | backend/app/engine/compiler.py:98-101 | The set of ids some edge touches. |
| WorkflowValidation.ValidateDefinition | backend/app/engine/compiler.py:60-106 | Accepts exactly the well-formed definitions within the caps; otherwise the error is that of the first check that fails. |
| WorkflowValidation.ErrorIsUnique | backend/app/engine/compiler.py:72-106 | A definition has at most one error that is the first to fail, and a well-formed one has none. |
| WorkflowValidation.Compile | backend/app/engine/compiler.py:113-164 | Succeeds exactly on well-formed definitions with a configuration for every agent; a missing-configuration error comes only after a well-formed definition and lists exactly the agents without one. |
| WorkflowValidation.AcceptedCompilesIff | backend/app/engine/compiler.py:60-164 | A graph the builder accepts compiles if and only if it is within the caps and no edge dangles. |
| WorkflowValidation.AcceptedIsConnected | frontend/src/utils/graphValidation.js:128-142 | An accepted graph with distinct ids and known endpoints is connected. |
| WorkflowValidation.AcceptedButDangling | backend/app/engine/compiler.py:86-92 | A one-node graph with a dangling edge that the builder accepts and the compiler refuses. |
| WorkflowValidation.AcceptedIff | frontend/src/utils/graphValidation.js:117-188 | What the builder accepts, field by field: nodes, edges, kinds, connector fields, configurations and prompts. |
| WorkflowValidation.WellFormedIff | backend/app/engine/compiler.py:56-106 | What the compiler's structural check accepts, field by field, with its caps of 200 nodes and 400 edges. |
| Routing.BuildEntryNodeQueue | backend/app/engine/executor.py:55-66 | At most one id: the first that no edge targets, else the first id present; empty only when there is no id. |
| Routing.BuildEdgeAdjacency | backend/app/engine/executor.py:69-76 | Looking up a node yields its outgoing edges in definition order. |
| Routing.ResolveNextNode | backend/app/engine/executor.py:79-110 | The result obeys the routing rules: no edges, no successor; a lone edge always; else the first matching edge, else the last default edge with a usable target, else the first edge. |
| Routing.RouteIsUnique | backend/app/engine/executor.py:79-110 | The routing rules determine the successor completely. |
| Routing.MatchesIff | backend/app/engine/executor.py:96-105 | An edge's condition, neither empty nor `default`, is met exactly when it is the action or occurs within the reasoning. |
| RunLoop.RunAgentStep | backend/app/engine/executor.py:512-673 | Cancelled with nothing spent when the pre-check or the debit does not fit, failed on an agent error, raised on an exception; otherwise one row, the total and the paired events together, with the tokens of input and output. |
| RunLoop.RunConnectorStep | backend/app/engine/executor.py:391-488 | One row and the paired events, or on an error a failure row that says whether it is retryable and a failed run, or an exception. |
| RunLoop.NextInCycle | backend/app/engine/executor.py:490-497 | In a cyclic run the routed successor, and nothing else, is queued; an empty queue means a dead end. |
| RunLoop.RunQueue | backend/app/engine/executor.py:341-722 | The loop terminates and concludes: rows, totals and events are those the turns over the popped ids call for, and the run ends by exhaustion, by the cap, by the cancel flag, or as the last turn says. |
| RunLoop.BuildQueue | backend/app/engine/executor.py:345-350 | The starting queue is the Kahn schedule, or the chosen entry node for cyclic workflows. |
| RunLoop.RunExecution | backend/app/engine/executor.py:178-311 | Without a workflow, nodes, a tenant, budget left, a well-formed definition or its configurations the run fails with one error and one final event; a run no longer pending is left untouched and silent; every other run concludes, exceptions included. |
| RunLoop.AfterStep | backend/app/engine/executor.py:612-660 | After a completed step the events, the persisted total and the log rows agree again and the walk has advanced by one node. |
| RunLoop.EndHandled | backend/app/engine/executor.py:201-229 | A run that raised in the middle of a step ends failed, with an error and one final event carrying the persisted total. |
| RunOutcomes.HowRunsStop | backend/app/engine/executor.py:372-640 | Below the cap a run that stops with nodes left is cancelled if and only if its flag is set, or a configured agent's pre-check fails, or its result does not fit the debit; it is failed if and only if the agent or the connector returned an error or raised; only a connector's error adds a row. |
| RunOutcomes.HowRunsEnd | backend/app/engine/executor.py:356-369 | A run is completed if and only if no node is left; at the cap it is failed. |
| RunOutcomes.RowsSayWhatRan | backend/app/engine/executor.py:371-640 | Every row was written by its own turn, in order: an uncancelled turn at a connector that succeeded, with no tokens, or at a configured agent within both budget checks, with the tokens of its result; every other turn passed over a node that is neither. |
| RunOutcomes.HopsFollowResults | backend/app/engine/executor.py:490-498 | A hop of a cyclic run is routed by the agent's action and reasoning, or by `connector_call` alone after a connector. |
| RunTheorems.StreamIsWellFormed | backend/app/engine/executor.py:356-722 | The stream is the paired events of steps 1..n, then perhaps an open step, perhaps an error, and one final event with the status and the persisted total (zero at the cap only); rows are numbered consecutively and sum to the total. |
| RunTheorems.AnnouncedTokensArePersisted | backend/app/engine/executor.py:630-660 | At every step boundary the tokens announced so far equal the tokens of the rows so far, and over the whole stream they equal the persisted total. |
| RunTheorems.CompletedRunCoversGraph | backend/app/engine/executor.py:341-722 | In a completed non-cyclic run of an accepted graph, every agent and every connector with an id has exactly one row, other nodes none, and each row follows the rows of all its predecessors. |
| RunTheorems.EveryStepOnce | backend/app/engine/executor.py:345-350 | The Kahn schedule of an acyclic graph with its configurations takes every agent and every connector with an id exactly once, in an order that follows the arcs. |
| RunTheorems.RunnableIffAgentOrConnector | backend/app/engine/executor.py:388-510 | On a definition with its configurations, exactly the agents and the connectors with an id take steps. |
| RunTheorems.LastConfigCounts | backend/app/engine/compiler.py:155-156 | Of several configurations for one node the last counts. |
| RunTheorems.CyclicLogWalksEdges | backend/app/engine/executor.py:356-678 | The rows of a cyclic run start at the entry node and walk real edges, hop by hop as the routing rules choose, and are at most MAX_ITERATIONS. |
| RunTheorems.CyclicLogIsPrefix | backend/app/engine/executor.py:356-678 | A cyclic run logs the nodes it popped in order, all of them while a successor is queued. |
| RunTheorems.CompletedCycleEndsInDeadEnd | backend/app/engine/executor.py:490-498 | A cyclic run that completes ended at a node whose route has no usable target; if every edge names its target, at a node passed over or without an outgoing edge. |
| CappedRun.RunSelfLoop | backend/app/engine/executor.py:359-369 | An agent that loops to itself and spends one token a step fails at the cap with ten tokens persisted and zero in its final event. |
| CappedRun.LoopMeetsCap | backend/app/engine/executor.py:356-369 | So does every cyclic run of a lone self-loop whose every turn completes with one token. |
| TokenLedger.Database.DebitTenant | backend/app/engine/executor.py:582-589 | The conditional update changes one row and adds the tokens, or changes none. |
| TokenLedger.Database.CommitStep | backend/app/engine/executor.py:582-640 | The debit, the log row and the execution's total are booked together, or a refused debit leaves all three unchanged. |
| TokenLedger.InterleavingsKeepBudget | backend/app/engine/executor.py:531-640 | Over every interleaving, usage stays within budget if it started there, its growth is the sum of the execution totals, and each total is the sum of that execution's rows. |
| TokenLedger.WithinBudgetForever | backend/app/engine/executor.py:582-589 | From any moment at which usage is within budget, every later moment is, and usage never shrinks. |
| TokenLedger.BookKeepsBalance | backend/app/engine/executor.py:582-640 | One attempt, booked or refused, keeps the three accounts in balance. |
| TokenLedger.StalePreCheckIsNotEnough | backend/app/engine/executor.py:531-535 | Two executions can both pass the pre-check with steps that together exceed the budget; the debit refuses the second. |
| LedgerOfRuns.LedgerHoldsRuns | backend/app/engine/executor.py:531-640 | Any number of runs, each deciding its debits on the usage the shared ledger shows: usage stays within budget, and for each execution the ledger holds exactly its run's agent rows and its run's total. |
| LedgerOfRuns.LedgerFollows | backend/app/engine/executor.py:580-640 | The same for one execution in the middle of its run. |
| EventBroadcast.Broadcaster.SubscribeWs | backend/app/engine/executor.py:122-128 | A fresh empty queue joins the execution's subscribers and nothing else changes. |
| EventBroadcast.Broadcaster.UnsubscribeWs | backend/app/engine/executor.py:131-139 | The queue leaves that execution's subscribers only, and an unknown one changes nothing. |
| EventBroadcast.Broadcaster.BroadcastWs | backend/app/engine/executor.py:142-149 | The event is appended to each current subscriber's queue of that execution and to no other queue. |
| EventBroadcast.StepFaithful | backend/app/engine/executor.py:122-149 | One operation keeps the subscriber lists and queue contents equal to what the history of operations says. |
| EventBroadcast.QueuesHoldWhatWasBroadcast | backend/app/engine/executor.py:122-149 | After every history a queue holds exactly the events broadcast while it was subscribed, in order. |
| LiveStream.OpenQueueHolds | backend/app/engine/executor.py:122-149 | A queue opened for an execution and not taken off listens to it alone and holds what was broadcast for it since, whatever else is subscribed or broadcast. |
| LiveStream.SubscriberReceivesRun | backend/app/engine/executor.py:142-149 | Whoever is subscribed for a whole run receives exactly its events: the well-formed stream with its one final event. |
| WebhookLineage.NextKeepsInv | backend/app/services/webhook_dispatcher_service.py:138-265 | Every action, late cancellations and overlapping retries included, keeps the lineage: a parent link leads to an older row that failed retryably, raises the attempt by one and keeps the root; one automatic child at most, from rows not dead-lettered and never past max_attempts; a dead letter is a webhook row that failed retryably at max_attempts or beyond. |
| WebhookLineage.HistoriesKeepInv | backend/app/services/webhook_dispatcher_service.py:138-265 | The lineage invariant holds after every history from an empty table. |
| WebhookLineage.RetryKeeps | backend/app/services/webhook_dispatcher_service.py:138-165 | Scheduling a retry of a childless failed row below max_attempts keeps the lineage. |
| WebhookLineage.DeadLetterKeeps | backend/app/services/webhook_dispatcher_service.py:168-186 | Dead-lettering a childless failed row at max_attempts or beyond keeps the lineage. |
| WebhookLineage.RunKeeps | backend/app/services/webhook_dispatcher_service.py:245-251 | Running a candidate, even one cancelled since the scan, keeps the lineage and leaves it childless. |
| WebhookLineage.DispatchKeeps | backend/app/services/webhook_dispatcher_service.py:234-263 | Handling one candidate keeps the lineage, removes no row and changes no other row. |
| WebhookLineage.ManualKeeps | backend/app/services/execution_service.py:282-329 | Retrying a dead letter, any number of times and by whomever, keeps the lineage. |
| WebhookLineage.CancelKeeps | backend/app/services/execution_service.py:379-387 | A cancellation written at any moment keeps the lineage. |
| WebhookLineage.DeadLettersAreRetried | backend/app/services/execution_service.py:271-317 | A manual retry is begun exactly for a failed, dead-lettered webhook execution. |
| WebhookLineage.RetryCarriesWork | backend/app/services/execution_service.py:282-325 | What it creates is the same work for the same workflow, pending and due at once, one attempt on, with the same root. |
| WebhookLineage.RefusedRetryChangesNothing | backend/app/services/execution_service.py:319-325 | A retry that is not admitted leaves the executions as they were. |
| WebhookLineage.AttemptsCountFromOne | backend/app/services/webhook_dispatcher_service.py:59-64 | Missing attempts and attempts below one count as one. |
| WebhookLineage.WindowIsNewest | backend/app/services/dispatch_automation_plan_worker.py:77-91 | A plan looks at the newest thousand rows. |
| WebhookLineage.IngestKeeps | backend/app/services/connector_service.py:472-490 | An ingested event, or a direct creation, adds a parentless first attempt and keeps the lineage. |
| WebhookLineage.RootIsIngested | backend/app/services/webhook_dispatcher_service.py:144-151 | The root of any webhook row is an ingested row no younger than it. |
| WebhookLineage.AttemptNamesRow | backend/app/services/webhook_dispatcher_service.py:138-165 | Within the automatic family of one event no two executions share an attempt number. |
| WebhookLineage.AutomaticFamilyIsBounded | backend/app/services/webhook_dispatcher_service.py:189-207 | Over every history an ingested event has at most max_attempts automatic executions, itself included (one when max_attempts is below one). |
| WebhookLineage.NothingAutomaticBelowManual | backend/app/services/execution_service.py:282-301 | An automatic execution has no manual or planned retry among its ancestors. |
| WebhookLineage.WindowSeesEveryRetry | backend/app/services/dispatch_automation_plan_worker.py:80-98 | For a source in the newest-1000 window, being excluded by the window's children is the same as being excluded by the whole history's. |
| WebhookLineage.PlanRetriesOldestUntouched | backend/app/services/dispatch_automation_plan_worker.py:80-98 | After every history the source a plan finds is the oldest dead letter in the window that nobody has retried by then, and there is none only when every dead letter there has been. |
| WebhookLineage.FindSource | backend/app/services/dispatch_automation_plan_worker.py:91-98 | The source found is eligible and every earlier row is excluded or not a dead letter. |
| LineageRaces.PlansRetryOnce | backend/app/services/dispatch_automation_plan_worker.py:150-171 | Over every history in which no retry shares its source with a plan's retry under way, a plan never retries what anyone has retried before. |
| LineageRaces.PlansSafeIff | backend/app/services/dispatch_automation_plan_worker.py:150-171 | Reading or finding a source keeps that so for all later steps if and only if it does not share the source in this way. |
| LineageRaces.OverlappingPlansRetryTwice | backend/app/services/dispatch_automation_plan_worker.py:150-171 | Two plans that find a source before either creates its retry both retry it. |
| LineageRaces.OneDeadLetter | backend/app/services/webhook_dispatcher_service.py:189-204 | An event whose only attempt fails retryably leaves one dead letter that a plan finds, with no request under way. |
| LineageRaces.RetriedRowsStayFailed | backend/app/services/execution_service.py:379-387 | Over every history in which no row fails retryably while its cancellation is under way, retried rows and dead letters are failed. |
| LineageRaces.FailedStayIff | backend/app/services/execution_service.py:379-387 | A step keeps them failed for all later steps if and only if it is not such a failure. |
| LineageRaces.LateCancelRenamesParent | backend/app/services/execution_service.py:379-387 | An event cancelled too late: its first attempt ends cancelled although it failed and was retried. |
| WebhookDispatcher.ExecutionTable.PendingExecutionCandidates | backend/app/services/webhook_dispatcher_service.py:94-110 | The oldest pending rows, up to the scan limit. |
| WebhookLineage.OldestPending | backend/app/services/webhook_dispatcher_service.py:94-110 | The scan lists pending rows in creation order, no more than the limit, and leaves one out only when older ones fill it. |
| WebhookDispatcher.ExecutionTable.MarkDeadLettered | backend/app/services/webhook_dispatcher_service.py:168-186 | Only the dead-letter mark and the normalised attempt of that row change. |
| WebhookDispatcher.ExecutionTable.ScheduleRetryExecution | backend/app/services/webhook_dispatcher_service.py:138-165 | The retry is a pending child for the same workflow with the same root and one more attempt, due at the end of the backoff; no other row changes. |
| WebhookDispatcher.ExecutionTable.ApplyRetryPolicyAfterDispatch | backend/app/services/webhook_dispatcher_service.py:189-207 | A retryable failure is retried below max_attempts and dead-lettered from there on; nothing else is touched. |
| WebhookDispatcher.ExecutionTable.DispatchCandidate | backend/app/services/webhook_dispatcher_service.py:234-263 | A row that is no webhook execution is skipped, one of a paused workflow counted as paused, one whose time lies ahead deferred, each with nothing changed; any other is run, listed, and retried or dead-lettered by its outcome and attempt. |
| WebhookDispatcher.ExecutionTable.ServeAll | backend/app/services/webhook_dispatcher_service.py:230-265 | Candidates are met in order until as many as the limit have been dispatched, and each meets its fate. |
| WebhookDispatcher.ExecutionTable.ServeCandidate | backend/app/services/webhook_dispatcher_service.py:230-263 | The same after whatever other requests did before the candidate was met. |
| WebhookDispatcher.ExecutionTable.DispatchPending | backend/app/services/webhook_dispatcher_service.py:210-265 | A batch is a run of the state machine; it meets the oldest pending rows, up to the larger of 100 and the limit, until the limit is dispatched; skipped, paused and deferred are exactly the candidates of each kind, and dispatched exactly the webhook executions that were due and whose workflow was not paused when they were met. |
| WebhookDispatcher.ForeignKeepsBatch | backend/app/services/webhook_dispatcher_service.py:210-265 | Whatever other requests do between candidates, they change neither the batch nor the dispatch data of scanned rows. |
| PlanLife.ExclusiveKeeps | backend/app/services/dispatch_automation_plan_worker.py:224-269 | Under exclusive steps a plan's committed state, its open decisions and the run that holds it stay consistent, and decided plans stay decided. |
| PlanLife.PlanRunsOnceAfterApproval | backend/app/services/dispatch_automation_plan_worker.py:224-269 | Over every history from the request on whose steps are exclusive, the plan runs at most once, only after an approval, and never when it was rejected. |
| PlanLife.DecidedStays | backend/app/services/analytics_service.py:1666-1711 | In such a history a plan once rejected, executed, blocked or failed keeps its status and runs no more. |
| PlanLife.SafeIffExclusive | backend/app/services/dispatch_automation_plan_worker.py:230-247 | A step is exclusive if and only if all exclusive continuations after it run the plan properly. |
| PlanLife.OverlappingRunsRunTwice | backend/app/services/dispatch_automation_plan_worker.py:230-247 | Two runs that hold a plan can both carry it out. |
| PlanLife.ApprovedOnceRunTwice | backend/app/services/dispatch_automation_plan_worker.py:230-247 | From the request on: one approval, two runs that both select the plan, and it is carried out twice. |
| PlanLife.StaleDecisionWritten | backend/app/services/analytics_service.py:1666-1711 | A decision read before an approval can be written after the plan has run, making it approved again or rejected. |
| PlanLife.StaleApprovalRunsTwice | backend/app/services/analytics_service.py:1666-1686 | Two approvals read together can run the plan twice. |
| PlanLife.RunHolds | backend/app/services/dispatch_automation_plan_worker.py:240-268 | Whatever others do, a run that selected the plan holds it at the stage its own steps have reached, and its execution is counted once it is committed. |
| PlanLife.RunThroughCounts | backend/app/services/dispatch_automation_plan_worker.py:240-268 | A run that is through with the plan has its execution counted; with nobody else about, the plan has run exactly once more and rests in the run's status. |
| PlanWorker.Automations.Create | backend/app/services/analytics_service.py:1591-1644 | Refused exactly when the recommendation is not current or a plan for it awaits approval; otherwise one plan is appended, awaiting approval. |
| PlanWorker.Automations.Approve | backend/app/services/analytics_service.py:1666-1686 | A conflict exactly when the plan read does not await approval; otherwise the approval is written whatever happened since the read. |
| PlanWorker.Automations.Reject | backend/app/services/analytics_service.py:1689-1711 | The same for a rejection. |
| PlanWorker.Automations.FindDeadLetterRetrySource | backend/app/services/dispatch_automation_plan_worker.py:64-98 | The two loops find the source of `PlanSource`, whose properties are proved in `WebhookLineage`. |
| PlanWorker.Automations.ExecuteResumeGuard | backend/app/services/dispatch_automation_plan_worker.py:101-143 | Blocked while anything is dead-lettered, deferred or throttled, with no workflow resumed; otherwise every paused workflow is resumed. |
| PlanWorker.Automations.ExecuteApprovalGatedRetry | backend/app/services/dispatch_automation_plan_worker.py:150-204 | Finds a source, and after whatever others do meanwhile creates its retry if that is admitted; a run of the lineage machine; blocked exactly without a source or an admission. |
| PlanWorker.Automations.ExecutePlan | backend/app/services/dispatch_automation_plan_worker.py:207-221 | Each kind of plan writes only what it may, unknown kinds are blocked, and the lineage is kept. |
| PlanWorker.Automations.RunPlan | backend/app/services/dispatch_automation_plan_worker.py:240-266 | Whatever others do before and between its steps, the plan at hand goes from selected to settled, and its status, its effect on the executions and the resumed workflows are those its automation calls for; it is failed exactly when its execution raises. |
| PlanWorker.Automations.TryPlan | backend/app/services/dispatch_automation_plan_worker.py:207-265 | By automation: a resume guard is blocked by any open figure and else resumes every workflow; a retry is executed exactly with a source and an admission, and only then or on a refused admission touches the executions; others are blocked. |
| PlanWorker.Automations.RunOnce | backend/app/services/dispatch_automation_plan_worker.py:224-269 | Among steps of others, up to the final commit, the run takes each plan of its answer through select, mark, carry, settle, a last commit and its leave and touches no other plan; each plan's status and deed are those its automation calls for, on the executions as they were by then; claimed = executed + blocked + failed, at most the limit, each counting its plans. |
| RateLimit.Limiter.Cleanup | backend/app/middleware/rate_limit.py:55-73 | The key's list loses exactly the entries before the window, other keys keep theirs, and empty lists are dropped. |
| RateLimit.Limiter.Admit | backend/app/middleware/rate_limit.py:84-100 | Admits if and only if fewer than the limit of the key's admissions lie in the closed window ending now; other keys are unaffected; it crashes exactly when the limit is below one; a rejection names the whole seconds until the oldest of them leaves the window, at least one. |
| RateLimit.FirstRequestUnderZero | backend/app/middleware/rate_limit.py:91-92 | The first request under a limit of zero crashes. |
| RateLimit.CleanupKeepsCount | backend/app/middleware/rate_limit.py:55-73 | The length of the trimmed list is the count over the whole history in the current window. |
| RateLimit.TrimmedCount | backend/app/middleware/rate_limit.py:55-73 | Trimming a list already trimmed at an earlier cutoff is trimming the whole history. |
| RateLimit.NoWindowExceedsLimit | backend/app/middleware/rate_limit.py:84-100 | No closed window of the configured length, anywhere in a run, holds more admissions of one key than the limit. |
| AutomationScheduler.SchedulerLog.Evaluate | backend/app/services/dispatch_automation_worker_scheduler.py:303-387 | Without the lock nothing happens; otherwise scanned tenants split into disabled, due and skipped, each due tenant gets one audit row with its time, its interval and whether its run failed, failed tenants are counted, due tenants are those the snapshot names up to the limit, and runs stay spaced. |
| AutomationScheduler.InspectFleet | backend/app/services/dispatch_automation_worker_scheduler.py:215-300 | The snapshot's figures partition all tenants, and its due tenants are those an unlimited evaluation runs. |
| AutomationScheduler.DueStatesAgree | backend/app/services/analytics_service.py:709-735 | The diagnostics page's rule and the scheduler's rule give the same state for every configuration, latest run and instant. |
| AutomationScheduler.RunsKeepDistance | backend/app/services/dispatch_automation_worker_scheduler.py:160-197 | Any two scheduled runs of a tenant are at least the interval of the later one apart. |
| AutomationScheduler.SpacedAppend | backend/app/services/dispatch_automation_worker_scheduler.py:160-197 | A run that waited out its gap (interval, or at least 30 minutes after a failure) keeps the whole log spaced. |
| AutomationScheduler.DueMeansGap | backend/app/services/dispatch_automation_worker_scheduler.py:160-197 | A tenant called due has waited out its gap by the time its audit row is written. |
| AutomationScheduler.DueRule | backend/app/services/dispatch_automation_worker_scheduler.py:160-197 | An enabled tenant is due when it has not run or its interval has passed, 30 minutes at least after a failed run; otherwise it is in backoff after a failed run and within its interval after another. |
| AutomationScheduler.BackoffHolds | backend/app/services/dispatch_automation_worker_scheduler.py:176-192 | A tenant whose newest run failed is skipped for backoff by every later evaluation before the larger of its interval and 30 minutes has passed. |
| AutomationScheduler.FailureIsFollowedByBackoff | backend/app/services/dispatch_automation_worker_scheduler.py:333-378 | So a tenant whose run fails in an evaluation is skipped for backoff by every later one within that time. |
| AutomationScheduler.LatestIsNewest | backend/app/services/dispatch_automation_worker_scheduler.py:144-157 | The row found is the newest scheduled run of that tenant, and none is found exactly when it never had one. |
| Admission.NextKeepsSound | backend/app/services/execution_service.py:85-112 | Under the row lock a count can be overtaken by bypassing retries only, and an insert commits within its cap plus those. |
| Admission.InterleavingsKeepCaps | backend/app/services/execution_service.py:153-190 | Over every interleaving of creations, ingests, completions and bypasses, active executions stay within ten times the plan's limit plus bypasses, and a direct creation commits within the limit plus the bypasses since its count. |
| Admission.ServedAlone | backend/app/services/execution_service.py:85-112 | A request served on its own is admitted exactly when budget is left and fewer executions are active than the plan's limit, or ten times the limit for a webhook. |
| Admission.NoBudgetNoAdmission | backend/app/services/execution_service.py:161-165 | Without budget a request gives up the lock with nothing inserted. |
| Admission.PlanLimits | backend/app/services/execution_service.py:24-28 | One for free and unknown plans, five for pro, twenty for team. |
| Admission.RoomIffWithinLimit | backend/app/services/execution_service.py:167-186 | The next commit of a direct creation is within the limit if and only if one counted below the limit still has room. |
| Admission.WithinLimitIffRoom | backend/app/services/execution_service.py:167-186 | From any state direct creations commit within the limit over all steps without a bypass if and only if there is such room. |
| Admission.DirectCommitsWithinLimit | backend/app/services/execution_service.py:167-186 | Over every interleaving in which no retry takes that room, direct creations commit within the plan's limit. |
| Admission.WithinLimitIffSpares | backend/app/services/execution_service.py:167-186 | A step keeps that so for all later steps if and only if it is not a retry scheduled while a direct creation counted below the limit leaves no room for both. |
| Admission.BypassesAreSteps | backend/app/services/execution_service.py:85-112 | Without bypass steps the excess is zero, so the caps are the plan's own. |
| Admission.BypassPassesLimit | backend/app/services/webhook_dispatcher_service.py:138-165 | A retry scheduled between count and commit takes a free tenant to two active executions. |
| RefreshTokens.TokenStore.IssueTokenPair | backend/app/services/auth_service.py:46-60 | The new token is live, replaces no other and is replaced by none, and until it expires its holder can rotate it; links stay as they must be. |
| RefreshTokens.TokenStore.RevokeRefreshTokens | backend/app/services/auth_service.py:63-72 | Exactly the user's live rows are revoked; earlier revocation times stay. |
| RefreshTokens.TokenStore.RefreshTokens | backend/app/services/auth_service.py:179-255 | Rotated if and only if the row named agrees in user, tenant and hash, is unrevoked and unexpired, and the user is active: it is revoked, linked to one new live token of its user, and no other row changes. Reused if and only if it agrees and is revoked. Otherwise refused with nothing changed. |
| RefreshTokens.TokenStore.RevokeRefreshToken | backend/app/services/auth_service.py:258-281 | The row named is revoked exactly if its hash agrees and it is live, no other row changes, and presenting the token for a refresh is from then on detected as reuse. |
| RefreshTokens.TokenStore.ChangePassword | backend/app/services/auth_service.py:319-321 | A password change revokes the user's live tokens and no one else's. |
| RefreshTokens.RevokeUser | backend/app/services/auth_service.py:63-72 | The user has no live row left; other users' rows and rows revoked before are as they were; nothing but revocations changes. |
| RefreshTokens.StepKeepsLinks | backend/app/services/auth_service.py:179-281 | Every operation keeps links forward, within one user, from revoked tokens, never meeting; identity, revocations and the links of revoked tokens never change. |
| RefreshTokens.RunsKeepLinks | backend/app/services/auth_service.py:179-281 | The same over every run. |
| RefreshTokens.OnlyLastIsLive | backend/app/services/auth_service.py:251-253 | A rotation chain is acyclic, stays with its user, and only its last token can be live. |
| RefreshTokens.ChainsAreDisjoint | backend/app/services/auth_service.py:251-253 | Chains from different first tokens share no token. |
| RefreshTokens.ExchangedOnce | backend/app/services/auth_service.py:226-253 | A token once rotated is never exchanged again, whatever happens in between; the same presentation is detected as reuse. |
| RefreshTokens.ExpiredIsNeverExchanged | backend/app/services/auth_service.py:237-241 | A token at or past its expiry is never exchanged, whatever was done before. |
| RefreshTokens.ReplayRevokesFamily | backend/app/services/auth_service.py:226-235 | Presenting a revoked token leaves its user without a live token and other users' rows untouched. |
| RefreshTokens.LockedOutUntilLogin | backend/app/services/auth_service.py:63-72 | A user without a live token stays so until a new login, whatever else is run. |
| IncidentAnalytics.Analyze | backend/app/services/analytics_service.py:1308-1352 | For any list of incidents: total = resolved + open; resolved are those with the status and a time, breaches those open or resolved later than the SLA; each day and each severity holds exactly its own incidents' counts, and the days, and the severities, sum to the overall figures. |
| IncidentAnalytics.SeedTrend | backend/app/services/analytics_service.py:1286-1296 | Every day of the period has an entry, all zero. |
| IncidentAnalytics.Counts | backend/app/services/analytics_service.py:1318-1352 | Counting one more row in its bucket keeps buckets exact and their sum equal to the overall figures. |
| IncidentAnalytics.OverallSplits | backend/app/services/analytics_service.py:1308-1352 | Overall figures split into resolved and open, with no more breaches than incidents. |
| IncidentAnalytics.BucketSplits | backend/app/services/analytics_service.py:1318-1352 | So does every day and every severity. |

## Left out

- TopologicalSort.TopologicalSort: assumes distinct node ids, which nothing in the definition checks enforce; with repeated ids the sort emits a node more than once.
- RunLoop.RunExecution: assumes distinct node ids for the same reason. Only agent and connector calls raise; a database statement that raises inside the loop or inside the exception handler is not modelled, nor a tenant row deleted during a run.
- RunLoop.RunAgentStep: the tenant's usage at the pre-check and at the debit are arbitrary inputs of the turn; that the debits of several runs belong to one ledger is the premise of `LedgerOfRuns.LedgerHoldsRuns`. Costs, durations, output data and messages are not modelled.
- TokenLedger.InterleavingsKeepBudget: nobody else resets the monthly usage or changes the budget during a history.
- Routing.ResolveNextNode: conditions, action and reasoning are taken already trimmed and in lower case.
- Terminal execution statuses are not claimed to be absorbing. Cancelling a running execution is the flag a turn reads; cancelling a pending one is a read and a write of `WebhookLineage`. An execution's run with its retry policy is one step there. A cancellation written during the run is overwritten by the run's own final status; one written between the run and the policy is either seen by the policy, which is the outcome `Cancelled` with a retryable log, or not, which is a cancellation written right after the step.
- WebhookLineage.HistoriesKeepInv: one dispatcher worker and one fixed retry policy; an execution's id is its place in creation order, so a child is always created after its parent; user-supplied input data that already carries trigger or dispatch metadata, and Workflow Doctor retries, which copy it, are excluded.
- WebhookDispatcher.ExecutionTable.DispatchPending: safety only. The scan can be filled by deferred or paused rows, so no progress is claimed. The program scans the rows of all tenants and the table is one tenant's; that tenant's share of a batch is its oldest pending rows up to some number, which is a `Scan` with that number as its limit, and other tenants' candidates only lengthen the time between its own.
- WebhookDispatcher.ExecutionTable.PendingExecutionCandidates: over one tenant's table, for the same reason; the program's counters add up over all tenants.
- PlanWorker.Automations.RunOnce: a plan that raises does so before it wrote anything; the order in which the database returns the answer is left open; the resume guard's health figures are inputs; plans requested while the run is under way are not in its table. A database that makes one writer of a row wait for another only rules out some of the interleavings of `PlanLife`.
- PlanWorker.Automations.Create: the count of waiting plans and the insert are one step, so two requests at once can leave two plans for one recommendation.
- AutomationScheduler.SchedulerLog.Evaluate: the report's totals of plans are not modelled; the leader lock is a boolean answer; the latest run is the last row written, as when no two rows share a creation time; writing the audit row does not raise.
- RateLimit.Limiter.Admit: the key is an input; how it is derived from the request is not modelled.
- RefreshTokens.TokenStore.RefreshTokens: one atomic step; tokens are row numbers and hashes are numbers; a user keeps one tenant, and deleting a user, which deletes their tokens, is not modelled.
- Admission.InterleavingsKeepCaps: the plan is fixed during a history and Workflow Doctor retries count as bypasses.
- IncidentAnalytics.Analyze: average resolution times and the order in which severities are listed.
- Numbers are unbounded integers; times are integers or reals, and malformed timestamps are an explicit absent value.
- The compiled LangGraph object, provider calls, tools, HTTP, tenant caches, cryptography, the routes and the user interface.
