# Verification of the DAG engine and the protocols around it

The repository runs a project as a DAG of nodes: an intake compiler builds the DAG, a scheduler advances it,
writers with version checks update its rows, a cascade invalidates what a change affects, and nodes can be
spliced in while it runs. Around that stand a template engine, transactions over one shared connection, item
stores with bounded retries, a circuit breaker and a budget exchange. This project models those parts in Dafny
and proves what they guarantee over every input, every run or every interleaving.

Check everything with `dafny verify dfyconfig.toml`.

## Layout

| file | part of the system |
|---|---|
| `Graph.dfy` | walks, reachability, acyclicity; shared by everything that follows |
| `StateMachine.dfy`, `Nodes.dfy`, `Options.dfy` | the transition table, node rows, optional values and errors |
| `TopologicalSort.dfy`, `CycleDetector.dfy` | Kahn's sort and the independent depth-first cycle check |
| `AdvancePass.dfy`, `PassReports.dfy`, `DagAdvancer.dfy` | one scheduling pass: as a function with its guarantees and what it reports, and as the engine class that refines it |
| `Outcomes.dfy`, `EngineRun.dfy`, `EngineBounds.dfy`, `AllAttempts.dfy`, `Interventions.dfy` | what an executor's return does, whole runs with their bounds and how far these are reached, and runs in which people and the watchdog step in |
| `Intake.dfy`, `CompiledGraph.dfy`, `PhaseOrder.dfy`, `LateFailures.dfy`, `GateApproval.dfy`, `CompiledSchedule.dfy` | the intake compiler, the graph it builds, the order of phases and the approval of gates in every run, and that the scheduler accepts it |
| `VersionedWriters.dfy`, `WritersLand.dfy` | all version-checked writers of a row, interleaved, and when their writes land |
| `Transactions.dfy` | the re-entrant lock and the shared connection, interleaved |
| `TemplateData.dfy`, `Conditionals.dfy`, `EachBlocks.dfy`, `EachTurns.dfy`, `TemplateEngine.dfy`, `TemplateLookups.dfy`, `TemplateExamples.dfy` | paths and item bindings, template rewriting on tokens against a tree evaluator, and templates for which the two differ |
| `Cascade.dfy`, `DynamicDag.dfy`, `Impact.dfy` | two-phase invalidation, node injection, bounded breadth-first search |
| `StateStore.dfy`, `Coverage.dfy` | item reservation and bounded coverage retries |
| `CircuitBreaker.dfy`, `Budget.dfy` | breaker counters against history, budget conservation |
| `InterleavedLimits.dfy` | what a limit is worth when others run between its check and its write |

Ids are opaque numbers of which only equality is observed. Classes stand for the source's objects and for the
tables they update in place; a database row is a value in a map held by such an object.

## Where the code and its promises part

Each of these is a theorem with the exact condition, or a theorem with a concrete input.

- **Phase order.** A gate waits only for the QA nodes of its own phase, and those of a phase that was skipped as
  a whole are done from the start. So a later phase can run before an earlier one is finished exactly when an
  entirely skipped phase lies between two phases with work (`PhaseOrder.PhaseOrderExactly`, with templates and
  answers in `PhaseOrder.HollowPhaseExample`). That covers runs in which nodes are suspended, resumed, retried and
  reset, as long as no executor fails on a node that is done already. Suspending and resuming a running node leaves
  its executor at work beside the next one, and its API limit is written whatever state the row is in. So with such
  late failures a completed node is taken back behind a later phase that has started, and the order is kept in every
  run exactly by DAGs with work in at most one phase (`LateFailures.LateFailuresExactly`).
- **Transactions.** `begin_immediate` ends its block only for `Exception`. A task cancelled inside the block
  releases the lock with the transaction open; from then on calls and blocks commit nothing, until a script run
  through `executescript` commits all that was done since. A script inside a block ends its transaction half way.
  Among the modelled actions, transactions are serial exactly in the runs without either
  (`Transactions.TransactionsAreSerial`, `Transactions.OrphanEndsExactly`, and `Transactions.CancelledInsideABlock`
  for an input). A call cancelled while its statement still waits in the worker thread is not among them: the lock
  is free then, and the statement can still run inside the transaction of another task.
- **Templates.** The expansion of each blocks takes thirty turns on every level. Each tags stay in the output
  exactly if the template needs more: one turn for every outermost block, and then those of the blocks its rendered
  items leave over (`TemplateEngine.RenderSlots`, `EachTurns.ExpandTimesResult`). An item leaves blocks over when
  its body holds more than thirty; the outer loop then expands them with the outer data. So one outermost block is
  enough to lose or double text without a tag, or to leave tags (`TemplateExamples.CrowdedBodySpills`). Where every
  item finishes its own blocks the number of turns is the number of outermost blocks (`EachTurns.ContainedTurns`).
  Ifs outside the each blocks stay if they nest deeper than ten, and no others outside. Inside an each body an if is
  decided against the top-level data while it nests at most ten deep; a deeper one goes through ten more rounds for
  every item around it, against the item's data. It stays only if it outlasts those too
  (`TemplateEngine.SettlesExactly`), and otherwise the text can silently be the wrong one
  (`TemplateExamples.DeepIfReadsTheItem`).
- **Coverage.** With `max_retries = 0` an item without a row is never settled, because there is no row to mark;
  with a reservation that is stuck and retries left, neither. Otherwise `max_retries + 1` rounds settle everything
  (`Coverage.RetriesSettleExactly`). A late mark overwrites a completed item (`StateStore.CompletionIsKeptExactly`).
  An item listed twice can be reported as unresolved although it is complete (`Coverage.RepeatedItemIsReported`).
- **Budget.** A giver needs 1.2 times the shortage and gives 1.5 times, so it can end up overdrawn, by less than
  0.3 times the shortage (`Budget.NeedyGainsWhatGiverLoses`, `Budget.GiverCanBeOverdrawn`).
- **Circuit breaker.** A failure in HALF_OPEN never reopens it (`CircuitBreaker.HalfOpenSurvivesFailures`).
- **Injection.** `inject_node` does not check for cycles: it creates one exactly when a child is, or leads to,
  the parent (`DynamicDag.InjectionKeepsAcyclicExactly`, `DynamicDag.InjectionCanCloseACycle`). Repairs never do.
  Of a child listed twice, the first edges stay although the call fails.
- **Limits.** The injection and reallocation limits are counted first and written to later. With w callers in
  between at a time the count can pass its limit by w - 1 and by no more (`InterleavedLimits.InterleavedLimitExactly`).
- **Writers.** `_transition_node` gives up after three attempts: with three writes of others in between it writes
  nothing although the table allowed its target throughout, and only logs that. With two it always writes or
  finds its target (`WritersLand.TransitionIsServed`, `WritersLand.ThirdWriteDefeats`).
- **Gates.** A FAILED gate with retries left is launched like any failed node, so an executor's success completes it
  without approval; no other gate without automatic approval is completed unapproved
  (`EngineBounds.GateNeedsApproval`, `EngineBounds.FailedGateNeedsNobody`).
- **Scheduling.** A dependency on an unknown node is reported as a cycle. The cap of five covers all launches
  but the automatic retries of FAILED nodes. Runs that start without a node to retry never get one and keep the cap
  (`EngineBounds.CapInEveryRun`); otherwise one pass launches all of them (`EngineBounds.RetriesPassTheCap`).
  The docstring of the state machine speaks of ten states; there are eleven.

## Model

| member | source | states |
|---|---|---|
| TopologicalSort.Sort | engine/core/dag_advancer.py:61-98 | the sort answers exactly if ids are unique, every dependency is known and the dependencies are acyclic; its answer is a permutation of the ids with every dependency earlier and the roots first, by priority |
| TopologicalSort.BuildDictionaries | engine/core/dag_advancer.py:67-73 | in-degrees and successor lists agree with the dependency edges, duplicates included |
| TopologicalSort.SortByPriorityCorrect | engine/core/dag_advancer.py:76-81 | the start queue is a permutation of the roots in ascending priority |
| TopologicalSort.ReleaseSuccessors | engine/core/dag_advancer.py:84-90 | taking a node out lowers exactly its successors and queues those that reach in-degree 0 |
| TopologicalSort.SortableIsNeverStuck | engine/core/dag_advancer.py:84-98 | on a sortable DAG the queue cannot run empty before every node is placed |
| TopologicalSort.FullOrderMeansSortable | engine/core/dag_advancer.py:92-98 | a full order proves the dependencies known and acyclic: soundness of the length test |
| CycleDetector.CheckNoCycle | engine/core/validation_gateway.py:94-126 | the cycle error is raised if and only if the active edges contain a cycle |
| CycleDetector.Search.Dfs | engine/core/validation_gateway.py:110-122 | the search either has found a cycle, or has finished the node with all it reaches in reverse topological order |
| CycleDetector.FinishedIsAcyclic | engine/core/validation_gateway.py:110-126 | finishing every node proves the graph acyclic |
| CycleDetector.DetectorAgreesWithSort | engine/core/validation_gateway.py:94-126 | on a DAG whose edge endpoints are all its nodes, the detector rejects exactly what the sort rejects |
| AdvancePass.DecisionSettles | engine/core/dag_advancer.py:225-283 | after its turn no node is NOT_STARTED or INVALID; READY, BLOCKED and FAILED each have their one reason |
| AdvancePass.DecisionIsLegal | engine/core/dag_advancer.py:225-283 | every state a turn writes follows the transition table |
| AdvancePass.DecisionLaunches | engine/core/dag_advancer.py:239-283 | a node enters IN_PROGRESS only by a launch, with all dependencies done, counted against the cap unless it is an automatic retry |
| AdvancePass.PassGuarantees | engine/core/dag_advancer.py:219-283 | over any schedule from any states: every row settles, changes along the table only, launches are safe and distinct, and non-FAILED launches with the running nodes never exceed max(5, running before) |
| AdvancePass.PassIsAFixpoint | engine/core/dag_advancer.py:219-283 | a second pass with no event in between changes no row, launches nothing and reports no gate, also under the cap |
| AdvancePass.NoSilentStall | engine/core/dag_advancer.py:224-293 | after a pass either everything is done or some node is running, waiting for a human, suspended, or failed for good |
| AdvancePass.ScheduleSurvives | engine/core/dag_advancer.py:219-224 | a pass leaves the dependency graph, hence any schedule, as it is |
| PassReports.PassReportsExactly | engine/core/dag_advancer.py:219-295 | gate_pending names, once each, exactly the gates the pass left waiting for approval; blocked, once each, exactly the nodes left BLOCKED that were not before or have a dependency that is FAILED, NEEDS_HUMAN or INVALID |
| PassReports.GateAfterPass | engine/core/dag_advancer.py:397-416 | a gate whose dependencies are done is COMPLETED by a pass with automatic approval and waits without, unless passed over; no other node is completed or waits, and a gate is run only if it is FAILED with retries left |
| StateMachine.TableByTarget | engine/core/state_machine.py:56-72 | the transition table by target: from which states each state can be entered |
| DagAdvancer.DagAdvancer.TransitionNode | engine/core/dag_advancer.py:468-523 | without interference the write happens exactly if the table allows it, and raises the version by one |
| DagAdvancer.DagAdvancer.LaunchNode | engine/core/dag_advancer.py:297-305 | a launch moves the row to IN_PROGRESS and reports the node |
| DagAdvancer.DagAdvancer.HandleGate | engine/core/dag_advancer.py:397-416 | an auto-approved gate runs through to COMPLETED, any other stops at AWAITING_APPROVAL and is reported; no transition is refused |
| DagAdvancer.DagAdvancer.VisitNode | engine/core/dag_advancer.py:224-283 | the body of the loop refines the decision of the pass and never meets a refused transition |
| DagAdvancer.DagAdvancer.RunPass | engine/core/dag_advancer.py:219-295 | the loop equals the sweep of the pass model; completed exactly when all but the gates are done |
| DagAdvancer.DagAdvancer.LoadNodes | engine/core/dag_advancer.py:422-466 | every row of the DAG is listed, once |
| DagAdvancer.DagAdvancer.AdvanceDag | engine/core/dag_advancer.py:181-295 | missing, paused and empty DAGs are left alone, an unschedulable one is only marked corrupted, any other gets one full pass |
| DagAdvancer.DagAdvancer.RunNodeSafeInner | engine/core/dag_advancer.py:312-395 | the end of an execution: completed, suspended without counting an attempt, retried while attempts are left, otherwise FAILED |
| Outcomes.OutcomeUsesOneUp | engine/core/dag_advancer.py:312-395 | every executor outcome leaves the node strictly fewer outcomes to come |
| Outcomes.PassAddsNone | engine/core/dag_advancer.py:239-283 | a pass adds none |
| Outcomes.OutcomeOfRunningNode | engine/core/dag_advancer.py:312-395 | success completes, the API limit suspends without counting an attempt, any other failure counts one and leaves the node READY while attempts are left and FAILED otherwise |
| EngineRun.OneExecutorPerNode | engine/core/dag_advancer.py:297-320 | in every run of passes, executor outcomes and gate approvals no node has two executors, and executors work only for IN_PROGRESS nodes |
| EngineRun.RunsAreFinite | engine/core/dag_advancer.py:240-395 | a run holds at most the sum over the nodes of max(1, max_retries - retry_count) executor outcomes |
| EngineRun.ExhaustedStaysFailed | engine/core/dag_advancer.py:240-253 | a node that used up its retries is never launched again |
| EngineRun.RepeatedAdvanceIsIdle | engine/core/dag_advancer.py:139-170 | two advance requests in a row do the work of one |
| EngineBounds.CapInEveryRun | engine/core/dag_advancer.py:219-395 | from a state without a FAILED node that has retries left, no run reaches one, and at every moment at most five nodes are in progress, or as many as at the start |
| EngineBounds.RetriesPassTheCap | engine/core/dag_advancer.py:240-253 | a pass puts all FAILED nodes with retries left and nothing to wait for in progress at once |
| EngineBounds.GateNeedsApproval | engine/core/dag_advancer.py:397-416 | in every run a gate without automatic approval, nobody at work for it and not FAILED with retries left, is COMPLETED only after its approval |
| EngineBounds.FailedGateNeedsNobody | engine/core/dag_advancer.py:240-253 | a gate that is FAILED with retries left and has its dependencies done is completed by a run without approval |
| EngineBounds.SteppingInSetsGoing | api/server.py:3030-3054 | resuming, retrying or resetting a node makes the next pass launch it, or leave it READY because five run, once its dependencies are done; a retry gives back all attempts, a resumption none |
| AllAttempts.MostOutcomes | engine/core/dag_advancer.py:307-395 | where nothing has failed, the most executor outcomes a run can hold are exactly the attempts left to the TASK and QA nodes |
| AllAttempts.FiniteBoundIsAttained | engine/core/dag_advancer.py:307-395 | for nodes none of which has started, some run holds exactly the sum of max(1, max_retries - retry_count) outcomes |
| Cascade.OnlyInvalidCannotBeInvalidated | engine/core/state_machine.py:56-72 | the table lets every state but INVALID become INVALID, so phase 2 refuses nothing else |
| Intake.Store.CreateDagAndNodes | engine/intake/processor.py:661-767 | for well-named templates the inserted rows and edges are exactly the closed form: TASK and QA pairs, declared order inside a phase, gates between consecutive phases |
| Intake.Store.InsertPhase | engine/intake/processor.py:701-741 | each template becomes a TASK and a QA row, SKIPPED if it does not apply or is excluded, joined by an edge |
| Intake.Store.InsertOrderEdges | engine/intake/processor.py:743-754 | a declared pair adds an edge from the first template's QA node to the second's TASK node, if both exist |
| Intake.Store.InsertPhaseGates | engine/intake/processor.py:773-846 | one gate behind every active phase but the last: fed by all QA nodes of the phase, in front of all TASK nodes of the next |
| CompiledGraph.EveryTaskHasItsQaPair | engine/intake/processor.py:703-741 | each TASK has exactly one successor, its QA, and each QA exactly one predecessor, its TASK |
| CompiledGraph.IntoTask | engine/intake/processor.py:743-846 | a TASK waits exactly for the QA nodes declared before it and for the gate in front of its phase |
| CompiledGraph.IntoGate | engine/intake/processor.py:828-840 | a gate waits exactly for the QA nodes of its phase |
| CompiledGraph.CompiledIsAcyclic | engine/intake/processor.py:661-846 | acyclic declared dependencies inside phases compile to an acyclic graph |
| CompiledGraph.EndpointsAreKnown | engine/intake/processor.py:661-846 | every edge joins inserted nodes |
| CompiledGraph.PlanExists | engine/intake/processor.py:661-846 | every list of specs, dependencies and answers has a compiled graph, so nothing stated of compiled graphs is empty |
| CompiledGraph.SkippedExactly | engine/intake/processor.py:684-733 | each template has its TASK and QA row, in order, and they start SKIPPED exactly if it is excluded by name or meant for new projects, upgrades or scopes this project is none of; otherwise NOT_STARTED |
| CompiledSchedule.CompiledIsSchedulable | engine/core/dag_advancer.py:61-98 | the scheduler accepts every compiled DAG: no unknown dependency, no cycle |
| Interventions.RunsAreOrderly | engine/core/dag_advancer.py:219-395 | in every run of passes, outcomes and approvals, with nodes suspended, resumed, retried and reset in between, in which no executor fails on a done node: nothing is underway and no executor at work before the dependencies are done, and SKIPPED stays where the compiler put it |
| PhaseOrder.OrderlyWithoutHollowPhase | engine/intake/processor.py:773-846 | without an entirely skipped phase between working ones, no TASK runs or completes before all earlier phases are done |
| PhaseOrder.AdversaryWins | engine/intake/processor.py:773-846 | with one, some run starts a later TASK while an earlier one has not finished; the run is constructed |
| PhaseOrder.PhaseOrderExactly | engine/intake/processor.py:661-846 | every such run of the compiled DAG keeps the phase order if and only if there is no such phase |
| PhaseOrder.HollowPhaseExample | engine/intake/processor.py:684-709 | three templates in three phases, the middle one excluded in the answers, compile to a DAG that does not always keep the phase order |
| LateFailures.RunUntilStarted | engine/core/dag_advancer.py:181-320 | while nothing has failed, letting executors succeed and approving gates launches any given TASK or QA node in finitely many steps; the run is constructed |
| LateFailures.SuspendAndResume | api/server.py:3006-3054 | suspending and resuming a running node leaves its executor in flight while the node is READY again |
| LateFailures.LateFailureBreaksTheOrder | engine/core/dag_advancer.py:322-336 | without a hollow phase, an executor left over that way and stopped by the API limit takes a completed node back after a later phase has started; the run is constructed |
| LateFailures.LateFailuresExactly | engine/core/dag_advancer.py:322-336 | over all runs, late failures included, the phase order is kept if and only if at most one phase has work |
| GateApproval.GateStaysShut | engine/intake/processor.py:809-827 | every gate but the one between BUILD and VERIFY under automatic review stays uncompleted in every run, whoever steps in, that does not approve it |
| GateApproval.ApprovalNeededExactly | engine/intake/processor.py:809-827 | some run starts a TASK behind a gate without approving the gate if and only if the review was set to automatic and the gate stands between BUILD and VERIFY |
| VersionedWriters.StepWritesFromTheCurrentRow | engine/core/cascade.py:150-163 | a write lands only from a snapshot of the current row, along the table, raising the version by one |
| VersionedWriters.HistoryIsLegal | engine/core/dag_advancer.py:468-523 | under any interleaving of the version-checked writers the state history of a row is a path of the table and its version counts the writes |
| VersionedWriters.StaleWriteNeverLands | engine/core/validation_gateway.py:325-393 | once the row moved past a writer's snapshot, its update changes nothing, whenever it comes |
| VersionedWriters.OnlyOneOfTwoLands | api/server.py:624-628 | of two writers that read the same version at most one writes |
| VersionedWriters.WritersFinish | engine/core/dag_advancer.py:468-523 | every writer ends after at most six steps of its own, the three attempts included |
| WritersLand.WriteLandsAlone | engine/core/dag_advancer.py:468-523 | a writer of any kind that takes its steps without interference writes its target exactly if its guard accepts the row, with one version more, or two for the retry of a COMPLETED node |
| WritersLand.TransitionIsServed | engine/core/dag_advancer.py:470-519 | a transition the table allows from every state it reads ends with its target written or found, if others write at most twice in between |
| WritersLand.ThirdWriteDefeats | engine/core/dag_advancer.py:470-523 | with three writes of others in between it can give up without writing |
| Transactions.AsyncRLock.constructor | engine/db/adapter.py:27-30 | a new lock is free |
| Transactions.AsyncRLock.Acquire | engine/db/adapter.py:32-39 | the owner re-enters and counts up; another task waits while the inner lock is taken |
| Transactions.AsyncRLock.Release | engine/db/adapter.py:41-48 | only the owner releases; the last release frees the inner lock |
| Transactions.LockStaysConsistent | engine/db/adapter.py:24-55 | owner, count and inner lock agree with the holds of all tasks in every interleaving |
| Transactions.DisciplineIsKeptExactly | engine/db/adapter.py:167-219 | a step keeps the transaction discipline if and only if it neither abandons a block nor runs a script while a transaction is open |
| Transactions.TransactionsAreSerial | engine/db/adapter.py:167-219 | in every interleaving, if and only if no step is of that kind: all operations between BEGIN and its end belong to one task, and the database is the committed blocks run one after another |
| Transactions.FreshIsSound | engine/db/adapter.py:138-160 | a fresh connection with a free lock is a possible start |
| Transactions.AbandonOrphans | engine/db/adapter.py:190-207 | a block left by a cancellation frees the lock and leaves the transaction open |
| Transactions.OrphanEndsExactly | engine/db/adapter.py:190-219 | an orphaned transaction survives every step but a script, saving nothing; a script commits all that was done since |
| Transactions.OrphanLastsUntilScript | engine/db/adapter.py:190-207 | in runs without scripts no block can be entered again and nothing is ever committed |
| Transactions.CancelledInsideABlock | engine/db/adapter.py:190-207 | a fresh connection, one task that enters a block and is cancelled in it: the run is possible and leaves the transaction orphaned |
| Conditionals.RoundOnTokens | engine/composition/renderer.py:844-863 | one regular-expression round decides exactly the innermost ifs of the tree, in any context |
| Conditionals.RoundProgress | engine/composition/renderer.py:844-863 | a round lowers the nesting of ifs by one and adds no each block |
| Conditionals.ProcessConditionals | engine/composition/renderer.py:844-863 | all ifs are decided if they nest at most ten deep, and an if block is left exactly if not |
| EachBlocks.FindPartner | engine/composition/renderer.py:883-900 | the counting scan returns the first position where closings outnumber openings, or nothing |
| EachBlocks.PartnerIsTheTrueOne | engine/composition/renderer.py:883-904 | in a printed template that is the closing tag of the block in question, however deep its body nests |
| EachBlocks.FillOnTokens | engine/composition/renderer.py:931-956 | filling slots on tokens is filling them on the tree |
| EachTurns.ExpandFirstProgress | engine/composition/renderer.py:876-926 | one turn replaces the first block, leaves one turn fewer to go and does not change what the last turn leaves |
| EachTurns.ExpandTimesResult | engine/composition/renderer.py:874-928 | n turns leave no each block exactly if the template needs at most n, counting the blocks its items leave over |
| EachTurns.ContainedTurns | engine/composition/renderer.py:913-924 | if the body of every item reached holds at most thirty blocks after its ifs, the turns are the outermost blocks |
| EachTurns.LevelsOkIsContained | engine/composition/renderer.py:874 | that is so for any data if no each body has more than thirty blocks on its level |
| TemplateEngine.ProcessEachBlocks | engine/composition/renderer.py:866-928 | thirty turns on the tokens of any well-nested template; an each tag is left exactly if it needs more |
| TemplateEngine.ExpandOne | engine/composition/renderer.py:876-926 | one turn replaces the first block by its rendered items, or by nothing if its key is no list |
| TemplateEngine.RenderOne | engine/composition/renderer.py:915-924 | an item is rendered by its ifs, thirty turns of its each blocks and its slots, in that order |
| TemplateLookups.PathsCompose | engine/composition/renderer.py:1001-1027 | a path is followed part by part: the rest reads what was found so far |
| TemplateLookups.OneStep | engine/composition/renderer.py:1013-1027 | one step reads the entry of that name, or the list item at that index, from the end if negative; nothing anywhere else |
| TemplateLookups.FalsyExactly | engine/composition/renderer.py:855-858 | exactly None, false, zero and what is empty fail an if |
| TemplateLookups.NameInItem | engine/composition/renderer.py:915-919 | inside an item _item is the item and _index its position, any other name its own entry if it has one, else what it is outside |
| TemplateLookups.PathInItem | engine/composition/renderer.py:915-919 | a path that begins with _item continues in the item |
| TemplateLookups.ItemsAreShown | engine/composition/renderer.py:866-928 | an each block around a _item slot shows the formatted items in order, and for an item that is None what _item is outside |
| TemplateLookups.PositionsAreShown | engine/composition/renderer.py:866-928 | around an _index slot it shows the positions from zero |
| TemplateEngine.RenderSlots | engine/composition/renderer.py:782-841 | an each tag stays exactly if more than thirty turns are needed after the ifs; with at most thirty outermost blocks and items that finish their own, rendering equals the template's meaning; an if outside the each blocks keeps its tags if it nests deeper than ten; where every if is reached by its rounds a tag is left exactly if the turns do not suffice; with ifs at most ten deep the meaning is the evaluator's |
| TemplateEngine.RoundsOutside | engine/composition/renderer.py:844-863 | of the ifs outside the each blocks the rounds leave exactly those that nest deeper than ten |
| TemplateEngine.SettlesExactly | engine/composition/renderer.py:844-924 | every if is reached exactly if those outside the blocks nest at most ten deep and those inside a body at most ten more per level |
| TemplateEngine.RoundsKeepMeaning | engine/composition/renderer.py:844-924 | a round uses up one decider and keeps the meaning: ten against the top-level data, then ten against each item on the way in |
| TemplateEngine.MeaningIsEvaluation | engine/composition/renderer.py:792-795 | while ifs nest no deeper than the top-level rounds, the meaning is the plain evaluator's |
| TemplateEngine.ExpandFirstSettles | engine/composition/renderer.py:915-926 | where every if has been reached, expanding a block brings none back, even in the blocks an item leaves over |
| TemplateExamples.DeepIfReadsTheItem | engine/composition/renderer.py:920 | eleven to twenty nested ifs in an each body: no tag stays, but the outer ifs are decided against the item and the text is lost |
| TemplateExamples.CrowdedBodySpills | engine/composition/renderer.py:874-928 | an each body of n > 30 blocks in a template with one outermost block: below sixty, 30 + (n - 30) * w texts and no tag where the evaluator shows n, w being the length of the top-level list; from sixty on tags stay |
| TemplateEngine.EvaluateDecided | engine/composition/renderer.py:792-795 | deciding all ifs first, against the top-level data, does not change the meaning |
| TemplateEngine.ShowExpanded | engine/composition/renderer.py:866-956 | where items finish their own blocks, nested expansion gives every item its own rounds and shows each slot by its innermost binding that is not None, whatever ifs are left |
| Cascade.CascadeInvalidator.GetDownstreamNodes | engine/core/cascade.py:218-240 | lists exactly the nodes reachable by a non-empty active path, each once, on cyclic graphs too |
| Cascade.CascadeInvalidator.Phase1MarkPending | engine/core/cascade.py:47-90 | exactly the reachable rows are marked, no state changes, and an earlier mark keeps its source |
| Cascade.CascadeInvalidator.Phase2ApplyInvalid | engine/core/cascade.py:96-167 | one marked row becomes INVALID or, if SKIPPED or not invalidatable, only loses its mark; the answer tells whether the state was written |
| Cascade.CascadeInvalidator.ProcessPendingBatch | engine/core/cascade.py:169-190 | exactly the selected rows go through phase 2 and the answer counts the states written |
| Cascade.CascadeInvalidator.Drain | engine/core/cascade.py:169-190 | batches of any sizes terminate with no mark left, every row treated once |
| Cascade.CascadeInvalidator.Invalidate | engine/core/cascade.py:47-190 | marking then draining leaves exactly the marked or reachable non-SKIPPED rows INVALID, all other states and earlier sources as they were |
| DynamicDag.DynamicDagExtension.DetectsInjectionLoop | engine/core/dynamic_dag.py:273-297 | true exactly if the parent is among the first twenty of the injected_by chain or the chain is longer |
| DynamicDag.DynamicDagExtension.InjectNode | engine/core/dynamic_dag.py:77-205 | the checks in their order, then the row and its edges; a duplicate child fails half way and leaves what was inserted |
| DynamicDag.InjectionExactly | engine/core/dynamic_dag.py:77-205 | a call succeeds exactly if the DAG exists and has fewer than twenty injected nodes, parent and children are in it, the parent is not on the injected_by chain or the chain too long, and no child is listed twice; then exactly the node and its edges are added, and a refused request changes nothing |
| DynamicDag.DynamicDagExtension.InjectRepairNode | engine/core/dynamic_dag.py:207-257 | a repair goes between the failed node and one of its predecessors |
| DynamicDag.InjectionKeepsAcyclicExactly | engine/core/dynamic_dag.py:91-257 | a successful injection keeps the graph acyclic if and only if no child is, or leads to, the parent |
| DynamicDag.InjectionCanCloseACycle | engine/core/dynamic_dag.py:121-190 | a node injected between a node and itself is accepted and closes a cycle |
| DynamicDag.RepairsAreSafe | engine/core/dynamic_dag.py:207-257 | a repair never closes a cycle; without a predecessor it is always rejected and changes nothing |
| DynamicDag.HopLimitNeverRejects | engine/core/dynamic_dag.py:273-297 | for chains inside one DAG below the injection limit the hop limit never decides: the check answers exactly whether the parent is on the chain |
| DynamicDag.InjectionsAreBounded | engine/core/dynamic_dag.py:261-271 | over any sequence of injections, one at a time, a DAG never has more than twenty nodes that carry injected_by |
| InterleavedLimits.InterleavedLimitExactly | engine/core/dynamic_dag.py:101-143 | with at most w callers between the count and the insert, the count never passes the limit by more than w - 1, some interleaving gets it there, and the limit holds exactly for w = 1 |
| DynamicDag.InjectionKeepsChains | engine/core/dynamic_dag.py:77-205 | injections on behalf of a node of the DAG keep every chain inside it and well-founded |
| DynamicDag.RepairRunsAreSafe | engine/core/dynamic_dag.py:207-257 | any sequence of repairs keeps the graph acyclic, the chains inside and the limit |
| Impact.BfsDistances | engine/core/impact_analyzer.py:227-252 | exactly the nodes within ten hops of some root, each with its true shortest distance, on any graph |
| Impact.BuildAdjacency | engine/core/impact_analyzer.py:233-235 | the adjacency dictionary holds exactly the edges |
| Impact.NothingMissed | engine/core/impact_analyzer.py:242-251 | a finished search has every node within the bound, at most at its distance |
| StateStore.AtomicStateStore.Reserve | engine/core/state_store.py:49-94 | succeeds exactly for new, pending and failed items and keeps the retry count |
| StateStore.AtomicStateStore.CompleteItem | engine/core/state_store.py:96-106 | completes an existing row, whatever its status |
| StateStore.AtomicStateStore.FailItem | engine/core/state_store.py:108-118 | fails an existing row and counts the attempt |
| StateStore.AtomicStateStore.MarkNeedsHuman | engine/core/state_store.py:120-129 | marks an existing row and does nothing without one |
| StateStore.AtomicStateStore.MarkSkipped | engine/core/state_store.py:131-142 | skips an item, inserting its row if there is none |
| StateStore.AtomicStateStore.ListIncomplete | engine/core/state_store.py:179-197 | the expected items that are neither complete nor skipped, in order |
| StateStore.OneHolderOneCompletion | engine/core/state_store.py:49-142 | in every interleaving of workers, marks and skips no item has two holders and none is completed twice |
| StateStore.CompletionIsKeptExactly | engine/core/state_store.py:120-142 | a completed item stays complete exactly until someone marks or skips it |
| StateStore.SelectionsAddUp | engine/core/coverage.py:87-98 | sorting the expected items by status loses and doubles none |
| Coverage.CoverageVerifier.Verify | engine/core/coverage.py:66-106 | expected = produced + missing + needs_human, missing with needs_human is a permutation of what the store lists as incomplete, and the report is complete exactly if all expected items were produced |
| Coverage.CoverageVerifier.RetryMissing | engine/core/coverage.py:108-173 | a round gives every listed item its one turn: mark when retries are used up, else reserve and complete or fail |
| Coverage.EveryItemHasItsTurn | engine/core/coverage.py:119-173 | in a round each listed item waits for a human if its retries are used up, else is complete or failed once more by its own outcome if nobody holds it, else stays |
| Coverage.UnresolvedIsWhatIsLeft | engine/core/coverage.py:119-173 | the returned list forgets no item that is neither complete afterwards nor reserved by another worker, and for distinct items holds no other |
| Coverage.RepeatedItemIsReported | engine/core/coverage.py:119-173 | an item listed twice that fails and then succeeds is returned although it is complete |
| Coverage.RetriesSettleExactly | engine/core/coverage.py:108-173 | max_retries + 1 rounds of a single worker leave nothing missing, whatever regenerating answers, if and only if no expected item is stuck in a reservation or, with max_retries = 0, without a row |
| Coverage.ZeroRetriesNeverSettle | engine/core/coverage.py:124-131 | an unreserved item stays missing for ever when retries are switched off |
| CircuitBreaker.CircuitBreaker.CheckCall | engine/core/circuit_breaker.py:50-66 | a call is refused exactly if the row is still OPEN after the attempt to half-open it |
| CircuitBreaker.CircuitBreaker.TryHalfOpen | engine/core/circuit_breaker.py:169-190 | only an OPEN row whose timeout has passed becomes HALF_OPEN |
| CircuitBreaker.CircuitBreaker.RecordSuccess | engine/core/circuit_breaker.py:68-103 | resets the failure count in CLOSED, counts or closes in HALF_OPEN, nothing in OPEN or without a row |
| CircuitBreaker.CircuitBreaker.RecordFailure | engine/core/circuit_breaker.py:105-147 | counts the failure, opens from CLOSED at the threshold, and answers CLOSED without a row |
| CircuitBreaker.CountersMatchHistory | engine/core/circuit_breaker.py:68-147 | the counters are the lengths of the current runs of failures and successes |
| CircuitBreaker.OpensExactly | engine/core/circuit_breaker.py:120-130 | it opens exactly at the fifth failure in a row while CLOSED |
| CircuitBreaker.ClosesExactly | engine/core/circuit_breaker.py:78-88 | it closes exactly at the third success in a row while HALF_OPEN |
| CircuitBreaker.OnlyForward | engine/core/circuit_breaker.py:50-147 | the only moves are CLOSED to OPEN to HALF_OPEN to CLOSED |
| CircuitBreaker.WritesAreCounted | engine/core/circuit_breaker.py:68-190 | every write counts one version; opening remembers the time, half-opening resets the successes, closing resets everything |
| CircuitBreaker.HalfOpenSurvivesFailures | engine/core/circuit_breaker.py:124 | no number of failures reopens a HALF_OPEN breaker |
| CircuitBreaker.NoCallBeforeTimeout | engine/core/circuit_breaker.py:169-190 | no call is admitted within 60 s of opening, and the first check after that admits one |
| Budget.Engagement.TryBudgetRealloc | engine/core/budget_scaler.py:194-287 | at most two transfers, from the phase with the most left among those above 1.2 times the shortage; an unknown needy phase fails without saving anything |
| Budget.Engagement.FindDonor | engine/core/budget_scaler.py:234-248 | the donor has the most left, the one asked earlier of equals; none exactly if nobody can give |
| Budget.WhoGives | engine/core/budget_scaler.py:225-248 | DESIGN and BUILD never give; whoever gives has the most left, of equals DELIVER before VERIFY before DEFINE |
| Budget.NeedyGainsWhatGiverLoses | engine/core/budget_scaler.py:243-258 | the needy phase gains floor(1.5 * shortage), at least the shortage, from one other phase whose headroom stays above -0.3 times the shortage and goes negative exactly if it had less than the transfer |
| Budget.RunsConserve | engine/core/budget_scaler.py:194-287 | over any sequence of calls, one at a time, the phase limits keep their sum and at most two calls move anything |
| Budget.GiverCanBeOverdrawn | engine/core/budget_scaler.py:243-258 | a shortage of 10 overdraws a phase with 13 tokens left |

## Left out

- The executor, role checks, agents, language models and the terminate callback of the cascade: the executor's outcome is an arbitrary choice of completed, raised or API limit; the others do not touch the modelled columns.
- DagAdvancer.DagAdvancer.AdvanceDag: no other writer interferes with the pass; interference is modelled for single rows in `VersionedWriters`, and the schedule is any topological order.
- TopologicalSort.Sort: the order among nodes that become free later is the queue's and is not promised beyond topological.
- Writers that set a state without checking the version (manual node operations, gate feedback, revisions, the API-limit suspension as a writer among others): they do not follow the discipline, so the interleaving theorem does not range over them.
- Intake.Store.CreateDagAndNodes: template names must be distinct and not start with the QA prefix, as the shipped ones do; deduplication of unusual names is not modelled, nor are fields other than type, phase, state and auto-approval.
- EngineRun.OneExecutorPerNode: runs consist of passes, executor outcomes and gate approvals; where others step in, a node can be relaunched while its first executor is still at work (`LateFailures.SuspendAndResume`). A pass is one atomic event in all runs of `EngineRun` and of the modules built on it (`EngineBounds`, `AllAttempts`, `Interventions`, `PhaseOrder`, `LateFailures`, `GateApproval`), while the source awaits at every write and outcomes can land in between.
- PhaseOrder.PhaseOrderExactly: runs do not invalidate: the cascade, a retry of a COMPLETED or INVALID node and a rejected gate are no events, nor are the executor's own check of its dependencies, manual node operations, and decisions to skip a node or take that back. Runs in which an executor fails on a done node are the subject of `LateFailures`.
- TemplateEngine.RenderSlots: templates are well nested and token-level; text that contains tags after substitution, malformed nesting, HTML escaping, value formatting (an arbitrary function) and the single-brace substitution are not modelled. Equality with the template's meaning is stated where every item finishes its own blocks; beyond that the result is given by the turns, not by an evaluator.
- Transactions.TransactionsAreSerial: a statement is an arbitrary function on the database, and so is a script, which leaves no transaction of its own open; closing the connection, statements still running in a worker thread after a cancellation, failing rollbacks and the PostgreSQL adapter are not modelled.
- Cascade.CascadeInvalidator.Phase2ApplyInvalid: no other writer changes the row between its read and its write, so the version conflict never arises here; it does in `VersionedWriters`.
- Cascade.CascadeInvalidator.ProcessPendingBatch: rows are selected in any order, not by queue time, and phase 2 meets no concurrent writer; the clean-up of timed-out marks repeats phase 2 and is not modelled.
- DynamicDag.DynamicDagExtension.InjectNode: database failures other than a duplicate edge, inactive edges, the re-queue after an injection and node attributes other than the DAG and injected_by are not modelled.
- DynamicDag.InjectionsAreBounded: each call is one step; calls that overlap between count and insert are the subject of `InterleavedLimits`.
- Impact.BfsDistances: severity, scheduling and reporting of the analysis use the distances and are not modelled.
- StateStore.AtomicStateStore.Reserve: rows of one engagement and node; the insert race cannot occur under the store's lock.
- Coverage.CoverageVerifier.RetryMissing: what regenerating an item yields is an arbitrary sequence of successes and failures; saved reports and the ratio are not modelled.
- CircuitBreaker.CircuitBreaker.CheckCall: each method is one step, times are whole seconds, and the row starts CLOSED with zero counters in the history theorems.
- Budget.RunsConserve: each call is one step; overlapping calls can pass the limit of two as `InterleavedLimits` says, and can overwrite each other's override.
- Budget.Engagement.TryBudgetRealloc: products with 1.2 and 1.5 are exact rather than floating point; an engagement without a row and overrides that are no objects are not modelled.
- Circuit breaker metrics, pre-scaling of budgets, change and failure classifiers, model and account routing, HTTP routes, dashboards and notifications: mostly single decisions that would add easy members only.
