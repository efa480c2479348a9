# Verification of the llmasm task-graph machine

llmasm compiles a planner's proposal into a typed task graph and runs that graph
on a small virtual machine. This project models both halves and proves how they
depend on each other: what the compiler's validators accept is what keeps the
executor from stalling, and a run computes a meaning that depends neither on the
order in which ready nodes are executed nor on the order in which nodes are stored.

The model follows the source's structure, one module per component.

- **Runtime.** `TaskGraph`, `RunState`, `Storage`, `Scheduler`, `Expansion`,
  `Execution` and `Executor` hold the machine. The storage, the scheduler and the
  executor are classes whose methods update fields in place; each is proved equal
  to a function on a snapshot of the storage. `Termination`, `Reachability`,
  `Pruning`, `Completion`, `Denotation`, `EdgeOrder`, `Reruns`, `Ledger` and
  `RunCache` prove theorems about that function; `SkipRules`, `Turns`, `Inputs` and
  `Growth` say what it does on states, artifacts and edges alone. `Reachability`
  defines a run as any sequence of turns of *ready* nodes, so its theorems hold for
  every scheduling order, and shows that `execute` is one such run.
- **Compiler.** `Acyclicity`, `Validation`, `Transforms`, `Typing`, `Wiring`,
  `Compilation`, `SparseProposals`, `Persistence` and `Repair`, with `Validity`,
  `WiringRules` and `NormalizedNodes` saying what they do outright. `EndToEnd` and
  `CompiledTypes` join the two halves; `ShadowExample`, `DeclaredPortExample` and
  `RetypingExample` are proposals on which a promise fails, `ReuseExamples` runs on
  which one does, and `ChainExample` is a proposal that meets the hypotheses of all
  the theorems.
- **Algorithms.** `ArtifactCache`, `Chunking`, `QaPairs`, `ContextSelection`.

Tools, models, routers' models, prompt rendering, schema parsing, serialisation
and hashing are functions of what they are given (`Env`); they may raise any of
the three kinds of exception. The tool registry, tool-name inference and the
cleaning of schema references are the functions of a `Catalog`.

## What turned out not to hold

The model keeps the code as it is. Where a promise of the documentation fails,
a lemma shows it and another gives the exact condition.

- *Validated means persisted-valid* fails when a proposal repeats a node name:
  the dry run gives both nodes one identifier, the real run gives the edges to
  the later one only. It holds if and only if no node that needs edges is
  followed by one of the same name (`PersistedIsValidExactly`).
- *Delivered values have their port's schema* fails in two ways: for a transform
  between equal schemas (`TransformOnEqualSchemasRetypes`), and for a port declared
  with another schema than its node's (`DeclaredPortIsNotKept`), since validation
  compares ports and gathering reads with the node's schema. On every graph it holds
  if and only if the port's schema is the one the content is read with or, where
  there is a transform, its target (`DeliveredTypeExactly`);
  `ValidatedFitsExactly` says which validated edges those are, and ports left to
  the compiler never fail in the second way (`CompiledRunDeliversPortTypes`).
- *The cache index agrees with the live artifacts* fails after superseding the
  older of two artifacts with one key (`MissExactly` is the exact condition).
  Runs never supersede, so along a run it holds (`RunLookupsAreExact`).
- *Each question is paired with the answer stored immediately after it* fails on
  one question with two answers (`TwoAnswersAreNotAdjacent`). For items stored at
  different times and every limit of at least one, the result is the newest `limit`
  adjacent pairs if and only if, among the questions it takes to find them, none is
  followed by two answers before the next question (`RecentIsAdjacentExactly`). A
  limit below one still yields one pair.
- *A reused result means what the original meant* fails for a not-found result
  and for a routing decision, whose marks a cache hit drops (`ReuseAgreesExactly`,
  at an input `ReusedNotFoundSkipsNothing`), and for two inputs that change places
  (`SwappedInputsAreServed`). `RerunAgrees` gives conditions under which a second
  run in the same storage has the same outcome.

## Model

| member | source | states |
|---|---|---|
| `Acyclicity.ValidateAcyclic` | llmasm/graph/validation.py:205-230 | returns no issue exactly when the edge relation has no cycle, for every edge list, unknown and repeated identifiers included |
| `Acyclicity.CycleCheck.Visit` | llmasm/graph/validation.py:214-225 | one recursive visit: it ends, keeps the finished nodes in an order in which everything a node points to comes earlier, and answers false only when a cycle exists |
| `Acyclicity.Adjacency` | llmasm/graph/validation.py:208-210 | the dictionary built from nodes and edges lists exactly the edges, with every source as a key |
| `Acyclicity.AcyclicHasRank` | llmasm/graph/validation.py:205-230 | every acyclic edge list has a rank that grows along each edge; what the validator accepts can be ordered topologically |
| `Acyclicity.RankedIsAcyclic` | llmasm/graph/validation.py:205-230 | the converse: an edge list with a rank has no cycle |
| `ArtifactCache.SortedIsCanonical` | llmasm/storage/memory.py:156 | two input lists get the same key exactly when they hold the same inputs equally often |
| `ArtifactCache.FindIsServing` | llmasm/storage/memory.py:234-243 | after any history, a lookup answers from the last step that offered an artifact for the key with no supersession of that key since |
| `ArtifactCache.HitIsNewestLive` | llmasm/storage/memory.py:151-164 | a hit is the newest unsuperseded artifact with the key and the same inputs in any order |
| `ArtifactCache.MissExactly` | llmasm/storage/memory.py:158-164 | a lookup misses exactly when each live matching artifact was followed by the supersession of some artifact of its key |
| `ArtifactCache.SupersedingAnOlderCopyHidesTheLiveOne` | llmasm/storage/memory.py:164 | the index is not a plain scan of live artifacts: superseding the older of two copies removes the entry of the newer, live one |
| `RunCache.RunLookupsAreExact` | llmasm/runtime/executor.py:129-148 | in every reachable state of a run from an empty store, a lookup misses exactly when no stored artifact matches, and otherwise serves the matching artifact with the greatest identifier |
| `Storage.InMemoryStorage.PersistArtifact` | llmasm/storage/memory.py:151-156 | stores the artifact and indexes it when it has a key and inputs and is not superseded; everything else is unchanged |
| `Storage.InMemoryStorage.UpdateArtifact` | llmasm/storage/memory.py:158-164 | marks the artifact superseded and drops the index entry of its key, or reports an unknown artifact and changes nothing |
| `Storage.InMemoryStorage.FindCachedArtifact` | llmasm/storage/memory.py:234-243 | answers as the lookup that the history theorems are about |
| `Storage.InMemoryStorage.PutRunNodeState` | llmasm/storage/memory.py:107-116 | replaces one node's state and nothing else |
| `Storage.InMemoryStorage.PersistCheckpoint` | llmasm/runtime/executor.py:488-507 | appends the program counter and exactly the succeeded and the failed nodes |
| `Schedulers.Scheduler.NextNode` | llmasm/runtime/scheduler.py:15-58 | the propagation loop ends with exactly the least closed set of nodes skipped, then the first pending node in graph order whose upstreams have finished is returned, or None if there is none |
| `Schedulers.Scheduler.SkipIfBlocked` | llmasm/runtime/scheduler.py:28-42 | one pass of the loop body: it skips the node exactly when a rule applies, with the reason it would have had at the start |
| `Schedulers.SkippableIsMonotone` | llmasm/runtime/scheduler.py:77-117 | skipping more pending nodes never makes a skippable node unskippable |
| `Schedulers.LeastSkipIsClosed` | llmasm/runtime/scheduler.py:21-42 | the intersection of all sets closed under the three skip rules is itself closed |
| `Schedulers.LeastSkipIsLeast` | llmasm/runtime/scheduler.py:21-42 | that set is contained in every closed set |
| `Schedulers.AfterSkipsIsQuiescent` | llmasm/runtime/scheduler.py:24-42 | after propagation no pending node is skippable |
| `Schedulers.SkipsIgnoreNodeOrder` | llmasm/runtime/scheduler.py:21-42 | neither the skipped set nor the recorded reasons depend on the order of the nodes |
| `SkipRules.SkippedExactly` | llmasm/runtime/scheduler.py:34-42 | after each propagation of a run of a graph that does not grow, a node is skipped if and only if it is a model with a not-found upstream, or an edge into it was not taken by its router, or it has upstreams and every one of them was skipped |
| `SkipRules.ReasonExactly` | llmasm/runtime/scheduler.py:33-41 | all a propagation records with a skip, and the reason: a not-found upstream goes before the others |
| `SkipRules.ChosenExactly` | llmasm/runtime/scheduler.py:46-57 | ready means still pending after propagation with every upstream succeeded, expanded or skipped |
| `SkipRules.NextIsEarliest` | llmasm/runtime/scheduler.py:47-58 | the scheduler returns the earliest ready node of the list |
| `Expansion.Expand` | llmasm/runtime/expansion.py:58-119 | adds one fresh pending node per proposed node and one edge per proposed edge between known names, later names shadowing earlier ones, and returns the new identifiers |
| `Expansion.AddProposedNodes` | llmasm/runtime/expansion.py:69-86 | the node loop: the graph, the states, the generator and the name table after it |
| `Expansion.AddProposedEdges` | llmasm/runtime/expansion.py:88-105 | the edge loop: edges with an unknown end are dropped, the others appended |
| `Termination.AddNodesIsSane` | llmasm/runtime/expansion.py:70-86 | growth keeps identifiers distinct and known, and adds exactly the nested weight of the proposed nodes to the pending weight |
| `Termination.TurnIsLighter` | llmasm/runtime/executor.py:102-119 | every turn of the loop strictly lowers the nested weight of the pending nodes, however it ends and whatever it requests |
| `Termination.TurnStaysSane` | llmasm/runtime/executor.py:102-119 | every turn keeps identifiers distinct and known and the generator ahead of everything stored |
| `Executors.Executor.Execute` | llmasm/runtime/executor.py:64-119 | ends on every graph, cyclic or growing, in the state and with the result of the recursive run function: returned, stalled, or raised |
| `Executors.Executor.EnsureNodeStates` | llmasm/runtime/executor.py:454-458 | gives each node without a state a fresh one and keeps the others |
| `Executors.Executor.GatherInputs` | llmasm/runtime/executor.py:322-352 | collects values and digests edge by edge as the gathering function says, with its error cases |
| `Executors.Executor.InvokeNode` | llmasm/runtime/executor.py:166-265 | the node's value or exception and all it does to the storage: the prompt artifact, or the growth of the graph |
| `Executors.Executor.ExecuteNode` | llmasm/runtime/executor.py:121-164 | cache hit or invocation, the artifact stored and the state recorded |
| `Executors.Executor.TakeTurn` | llmasm/runtime/executor.py:102-119 | one turn with its two checkpoints, or the mark each kind of exception leaves |
| `Turns.TurnExactly` | llmasm/runtime/executor.py:121-320 | the whole turn of a node that does not grow the graph, kind by kind: gathering raised, or the cache served a copy, or the node's handling raised, or what it returned is recorded with its port, key, inputs and marks |
| `Turns.HandlingExactly` | llmasm/runtime/executor.py:166-320 | what handling a node comes to: the foreign code's answer, a missing tool input, the final answer, the branch, or an unsupported kind |
| `Turns.ExceptionsExactly` | llmasm/runtime/executor.py:105-118 | the status and message each kind of exception leaves on the node, and the run's status |
| `Turns.CheckpointsExactly` | llmasm/runtime/executor.py:102-119 | one checkpoint before the execution and a second after it exactly when nothing was raised, each listing the succeeded and the failed nodes |
| `Turns.DeterministicRouterDecides` | llmasm/runtime/executor.py:268-275 | a deterministic router that ran uncached recorded its not-found branch exactly when its first gathered input was a not-found, its default branch otherwise, with their defaults |
| `Turns.DeterministicRouterPrunes` | llmasm/runtime/scheduler.py:86-108 | over a whole run, no target of an edge labelled otherwise than that branch is ever chosen |
| `Turns.ModelRouterDecides` | llmasm/runtime/executor.py:302-320 | a model-assisted router recorded the branch the model answered |
| `Turns.FinalAnswersExactly` | llmasm/runtime/executor.py:240-251 | a final node stores an answer that is its input, or a not-found input's detail, or its input's text with its source |
| `Turns.PromptIsStored` | llmasm/runtime/executor.py:195-214 | a model or compress node that is not served stores its prompt under its own port and without a key, whatever the provider does |
| `Turns.StopsExactly` | llmasm/runtime/executor.py:75-101 | with nothing ready the run succeeds exactly when a final node has succeeded or nothing is pending, and fails as stalled otherwise |
| `Turns.PreparedExactly` | llmasm/runtime/executor.py:69-72 | a run starts marked running with a fresh state for each node that has none |
| `Turns.RunStatusExactly` | llmasm/runtime/executor.py:105-119 | turns that succeed leave the run's status alone |
| `Growth.ExpandExactly` | llmasm/runtime/expansion.py:58-119 | an expand node ends expanded, and the graph is the old one, then one fresh pending node per proposed one without its ports, then the proposed edges between the last nodes of known names |
| `Growth.ReportExactly` | llmasm/runtime/executor.py:253-260 | its output describes exactly the identifiers of the added nodes |
| `Growth.NoRequestRaises` | llmasm/runtime/executor.py:253-254 | without a request it raises and the graph stays as it was |
| `Inputs.InputsExactly` | llmasm/runtime/executor.py:329-351 | with data edges at different ports a node gathers exactly what its edges bring: the first piece on the edge's port or else the first of all, read with the source's schema or RawText, passed through the named transform; router edges bring nothing |
| `Inputs.EdgeGathers` | llmasm/runtime/executor.py:329-351 | one edge: an output that cannot be loaded raises, a missing required input raises, nothing to deliver adds nothing, and the picked piece is added with its digest or raises what reading it raised |
| `Inputs.DeliverRaises` | llmasm/runtime/executor.py:348-350 | reading raises what the schema raised, or an unknown transform, or what the transform raised |
| `Inputs.PutKeepsPlaces` | llmasm/runtime/executor.py:351 | a second input at a port takes the place of the first |
| `Reachability.ExecutionIsARun` | llmasm/runtime/executor.py:73-119 | the executor's result is the end of a run of the step relation, so what holds in every reachable state holds of it |
| `Reachability.ExecutedAtMostOnce` | llmasm/runtime/executor.py:121-125 | along every run, a node chosen at any point, whether its turn then succeeds or raises, was not executed before |
| `Reachability.FinishedIsFinal` | llmasm/runtime/executor.py:466-474 | a succeeded, expanded or skipped node's state and every stored artifact are never changed again, nor by the turn of any chosen node, be it the one that raises |
| `Reachability.OutcomeIsFinal` | llmasm/runtime/executor.py:73-119 | however the executor stops, what was finished at any point of the run is unchanged in the state it leaves |
| `Reachability.UpstreamsRunFirst` | llmasm/runtime/scheduler.py:44-58 | when a node is chosen, whether its turn then succeeds or raises, each of its upstreams was skipped or was executed by an earlier step |
| `Reachability.StepsAreChosen` | llmasm/runtime/executor.py:73-106 | the nodes a run executes are chosen ones, so what is said of chosen nodes holds of them |
| `Reachability.ReadyHasData` | llmasm/runtime/scheduler.py:46-57 | each upstream of a chosen node was skipped or holds a loadable output |
| `Reachability.GatherFailure` | llmasm/runtime/executor.py:322-352 | with such upstreams, gathering succeeds or raises exactly what reading the content picked on one of the data edges raised |
| `Reachability.MissingExactly` | llmasm/runtime/executor.py:335-340 | an edge whose required input is missing raises the missing-input error, and no other edge does by itself |
| `Reachability.RequiredInputsArePresent` | llmasm/runtime/executor.py:336-340 | in every reachable state and for every environment, no edge into a node the scheduler chose lacks its input, and gathering succeeds or raises what reading a picked content raised: the missing-input error is never raised |
| `Reachability.RunIsConsistent` | llmasm/runtime/executor.py:121-164 | in every reachable state each node is pending or skipped and untouched, or was attempted once and holds exactly one stored output |
| `Pruning.LeastSkipIsSupported` | llmasm/runtime/scheduler.py:21-42 | propagation skips nothing without a rule that still applies at the end |
| `Pruning.RunIsJustified` | llmasm/runtime/scheduler.py:34-42 | in every reachable state of a graph that does not grow, each skipped node has a skip rule that applies and no executed node has one |
| `Pruning.UnselectedNeverRuns` | llmasm/runtime/scheduler.py:86-108 | if a router records a branch at any point of the run, no target of an edge labelled otherwise is chosen at any point of it, before or after, and so none is executed, not even by a turn that raises |
| `Pruning.BranchesAreExclusive` | llmasm/runtime/scheduler.py:105-107 | two targets of differently labelled edges of that router are never both chosen in one run |
| `Pruning.RouterRecordsBranch` | llmasm/runtime/executor.py:162-164 | a router that succeeded has recorded a branch, unless its result came from the cache |
| `Completion.ReachableNeverStuck` | llmasm/runtime/scheduler.py:44-58 | in every reachable state of an accepted graph, no ready node means no pending node |
| `Completion.NeverStalls` | llmasm/runtime/executor.py:75-101 | the stall error is never raised on an accepted graph, whatever the handlers return |
| `Completion.ReturnedIsComplete` | llmasm/runtime/executor.py:75-101 | a run that returns has left every node succeeded or skipped |
| `Denotation.RunIsMeant` | llmasm/runtime/scheduler.py:15-58 | in every reachable state, in whatever order ready nodes were executed, each node no longer pending shows the outcome of the recursive definition over the DAG |
| `Denotation.ReturnsIffNothingFails` | llmasm/runtime/executor.py:105-119 | the run returns exactly when no node's recursive outcome is a failure |
| `Denotation.RunComputesDenotation` | llmasm/runtime/executor.py:73-119 | a run that returns gives every node the status, output, not-found mark and branch of the recursive definition |
| `Denotation.NodeOrderIsIrrelevant` | llmasm/runtime/scheduler.py:47-57 | storing the nodes in another order changes neither whether the run returns nor any node's outcome |
| `Denotation.DistinctNamesAreCold` | llmasm/runtime/executor.py:515-520 | distinct node names and an empty index rule out cache hits |
| `Denotation.UncachedIsCold` | llmasm/runtime/executor.py:509-513 | a graph none of whose nodes is looked up needs nothing of the cache, of its keys or of its names |
| `Denotation.ColdIsWarm` | llmasm/runtime/executor.py:128-136 | both are special cases of the hypothesis of the four theorems above: no other node shares the key of a node that is looked up, and every hit there can be is genuine, that is, unmarked and equal to what the handler would return |
| `Denotation.TurnStaysWarm` | llmasm/runtime/executor.py:129-148 | every turn, hit or not, keeps that hypothesis |
| `Denotation.ReuseAgreesExactly` | llmasm/runtime/executor.py:129-136 | why hits must be unmarked: a hit shows its value's outcome exactly when that value is neither a not-found nor a routing decision |
| `Reruns.EarnedIsWarm` | llmasm/runtime/executor.py:128-136 | when hits are genuine: digests tell contents apart, nodes that are looked up have at most one data edge and no marked results, and the cache was filled by executions of the same graph |
| `Reruns.RunStaysEarned` | llmasm/runtime/executor.py:137-148 | along every run, what the cache holds under the key of such a node was returned by it for inputs with those digests |
| `Reruns.RerunAgrees` | llmasm/runtime/executor.py:64-119 | running the graph again in the same storage, reused results and all, returns again with every node's outcome the same, any number of times |
| `ReuseExamples.ReusedNotFoundSkipsNothing` | llmasm/runtime/executor.py:129-136 | two nodes run twice in one storage: the first time the not-found result skips the second node, the second time it is reused and the second node is chosen |
| `ReuseExamples.SwappedInputsAreServed` | llmasm/storage/memory.py:156 | a tool's result for the inputs (x, y) is served for (y, x), because the key holds sorted digests only |
| `EdgeOrder.GatherIsContributions` | llmasm/runtime/executor.py:329-352 | with data edges at different ports, gathering succeeds exactly when each edge delivers and collects what each contributes |
| `EdgeOrder.DenoteIgnoresEdgeOrder` | llmasm/storage/memory.py:124-126 | with such ports and handlers that ignore the order of their inputs (or nodes with one data edge), the recursive outcome does not depend on the order in which edges are listed |
| `EdgeOrder.EdgeOrderIsIrrelevant` | llmasm/runtime/executor.py:324 | under that condition the edge order changes neither whether the run returns nor any node's outcome |
| `EdgeOrder.SharedPortKeepsTheLast` | llmasm/runtime/executor.py:351 | of two edges into one port the later listed wins, so there the order does show |
| `Ledger.RunIsBalanced` | llmasm/runtime/executor.py:102-119 | in every reachable state there are two checkpoints per executed node and one artifact per executed node plus one per uncached model or compress node, and completed sets only grow |
| `Ledger.ReturnedIsBalanced` | llmasm/runtime/executor.py:488-507 | the same at the end of a run that returns, whose last checkpoint lists exactly the succeeded nodes |
| `Validation.ValidateRequiredPorts` | llmasm/graph/validation.py:24-62 | no issue exactly when required kinds and required input ports are fed and every edge joins ports that exist |
| `Validation.ValidateEdgeCompatibility` | llmasm/graph/validation.py:79-109 | no issue exactly when every edge not leaving a router fits its schemas directly or by its registered transform |
| `Validation.ValidateRouterNodes` | llmasm/graph/validation.py:282-316 | no issue exactly when every router declares a routing decision, labels all its edges and has two distinct labels |
| `Validation.ValidateGraph` | llmasm/compiler/compiler.py:179-190 | no issue from any validator exactly when the graph is valid |
| `Validity.PortsSatisfiedExactly` | llmasm/graph/validation.py:30-61 | required ports said outright on nodes, ports and edges |
| `Validity.EdgesCompatibleExactly` | llmasm/graph/validation.py:86-108 | edge compatibility said outright: equal schemas, or a registered transform from the one or from any to the other, with port schemas before node schemas |
| `Validity.RoutersOkExactly` | llmasm/graph/validation.py:286-315 | router checks said outright, with two edges of different labels |
| `Validity.NodesOkExactly` | llmasm/graph/validation.py:177-204 | the supported kinds and the terminal node said outright |
| `Transforms.CanTransformExactly` | llmasm/graph/transforms.py:48-56 | a transform may be used from its own source schema or, marked as such, from any, and only to its own target |
| `Transforms.DefaultTransformsExactly` | llmasm/graph/transforms.py:90-97 | which built-in transform leads between which different schemas |
| `Transforms.DefaultResultsExactly` | llmasm/graph/transforms.py:69-87 | what the built-in transforms return and when they raise |
| `Typing.DeliveredTypeExactly` | llmasm/runtime/executor.py:348-351 | on every graph a delivered value has its port's schema exactly when the schema it is read with, or its transform's target, is that schema |
| `Typing.ValidatedFitsExactly` | llmasm/graph/validation.py:95-108 | what validation adds, exactly: without a transform the edge fits iff the source's port repeats the schema its content is read with; with one, iff the two ports' schemas differ or the transform's target is the port's |
| `Typing.RepeatedSchemasFit` | llmasm/graph/validation.py:95-108 | where ports repeat their nodes' schemas, an edge without a transform or between different schemas fits |
| `Typing.RunDeliversPortTypes` | llmasm/runtime/executor.py:322-352 | where every data edge fits, everything gathered has the schema of its port, in every reachable state |
| `Typing.RepeatedSchemasArePreserved` | llmasm/runtime/executor.py:322-352 | the same for validated graphs whose ports repeat their nodes' schemas and whose transforms join different schemas |
| `CompiledTypes.CompiledPortsAreTyped` | llmasm/compiler/compiler.py:263-291 | no port of a compiled graph has an empty schema, whatever the planner declared |
| `CompiledTypes.PortlessPortsRepeat` | llmasm/compiler/compiler.py:276-291 | ports left to the compiler repeat their nodes' schemas |
| `CompiledTypes.CompiledRunDeliversPortTypes` | llmasm/compiler/compiler.py:127-149 | from the proposal to the port: an approved proposal without ports of its own and with transforms only between different schemas gets runs in which everything gathered has the schema of its port |
| `DeclaredPortExample.DeclaredPortIsNotKept` | llmasm/compiler/compiler.py:249-275 | a declared port of another schema than its node's breaks the property: the proposal is approved, the graph valid and without transforms, and a RawText reaches a Summary port |
| `RetypingExample.TransformOnEqualSchemasRetypes` | llmasm/graph/transforms.py:48-56 | a transform between equal schemas breaks the property: the proposal is approved, the persisted graph valid, both ends declare a Summary, and a RawText is delivered |
| `Transforms.DefaultRegistryIsWellTyped` | llmasm/graph/transforms.py:69-97 | each built-in transform that returns a value returns its declared schema |
| `Wiring.CanonicalEdges` | llmasm/compiler/compiler.py:440-487 | appends an edge from the intent to each unfed processing node, and one from the last sink to an unfed final |
| `Wiring.PlannerEdgesAreKept` | llmasm/compiler/compiler.py:451 | the planner's edges come first and unchanged, for every input |
| `Wiring.CanonicalIsIdempotent` | llmasm/compiler/compiler.py:440-487 | canonicalising twice adds nothing more, for every list of nodes and edges |
| `Wiring.CanonicalIsRanked` | llmasm/compiler/compiler.py:440-487 | on the proposals it is meant for the result is acyclic, the intent first and the final last |
| `Wiring.EveryNodeIsFed` | llmasm/compiler/compiler.py:471-485 | every node but the intent has an incoming edge from a known node |
| `Wiring.EveryNodeIsReachable` | llmasm/compiler/compiler.py:440-449 | the documented connectedness: a path leads from the intent to every node |
| `WiringRules.CanonicalExactly` | llmasm/compiler/compiler.py:440-487 | the edges after canonicalisation: the planner's, then one plain edge from the first intent per unreached processing node in node order, then one to the first final from the last processing node that leads nowhere |
| `WiringRules.CompletedEdges` | llmasm/compiler/compiler.py:221-242 | the edge to an injected final node comes from the last model or compress node that no edge to a known node leaves |
| `WiringRules.WiredExactly` | llmasm/compiler/compiler.py:300-315 | the graph's edges are exactly the canonical edges between known names, joining the last nodes of those names |
| `NormalizedNodes.ProposedNodeBecomes` | llmasm/compiler/compiler.py:203-299 | every proposed node keeps its place, name, metadata and request; a tool node with a registered tool, named or suggested by its name, stays one and carries that tool, any other tool node becomes a model node with no execution, other nodes keep theirs; schemas and ports by kind |
| `NormalizedNodes.InjectedNodes` | llmasm/compiler/compiler.py:213-239 | a missing intent is injected first with the user's prompt, a missing final last |
| `Compilation.Normalize` | llmasm/compiler/compiler.py:192-340 | the graph of the completed proposal, wired along the canonical edges; an issue exactly when some declared port has no direction |
| `Compilation.NormalizeNodes` | llmasm/compiler/compiler.py:243-299 | the node loop: nodes in order, the name table with later nodes winning, and the port issues |
| `Compilation.NormalizeNode` | llmasm/compiler/compiler.py:247-298 | one node with its canonical fields, its directed ports and the default ports it lacks |
| `Compilation.NormalizePorts` | llmasm/compiler/compiler.py:249-276 | the port loop: directed ports kept in order, the others reported |
| `Compilation.ValidateProposal` | llmasm/compiler/compiler.py:173-190 | no issue exactly when the dry run has none and its graph is valid |
| `SparseProposals.SparseProposalIsWired` | llmasm/compiler/compiler.py:276-330 | a proposal without ports that is well shaped once completed satisfies ports, cycles, terminal and routers after normalisation, dry or real: only edge types and single-node checks can still reject it |
| `SparseProposals.CompletedHasItsTools` | llmasm/compiler/compiler.py:342-355 | after recovery every tool node names a registered tool |
| `SparseProposals.CanonicalEnds` | llmasm/compiler/compiler.py:440-487 | both ends of every canonical edge are nodes, and none leads to an intent |
| `Persistence.PersistedIsValidExactly` | llmasm/compiler/compiler.py:127-149 | for every proposal, prompt and choice of fresh identifiers, the persisted graph is valid exactly when the dry run's is and no node that needs edges is followed by one of the same name |
| `Persistence.DistinctNamesPersistValid` | llmasm/compiler/compiler.py:173-190 | with distinct names, what was approved is valid once persisted |
| `Persistence.AcyclicityCarriesOver` | llmasm/compiler/compiler.py:245-246 | renaming the nodes of one proposal carries the cycle verdict over |
| `Persistence.OwnersAgree` | llmasm/compiler/compiler.py:245-246 | renaming carries the port and router verdicts of each unshadowed node over, in both directions |
| `ShadowExample.ApprovedButPersistedInvalid` | llmasm/compiler/compiler.py:245-246 | with a repeated name the promise fails: a concrete proposal is approved and its persisted graph is rejected |
| `Repair.AttemptsExactly` | llmasm/compiler/repair.py:39-61 | each attempt after the first answers a prompt quoting the output before it with what its parser or its validator found wrong |
| `Repair.CompileWithRepair` | llmasm/compiler/repair.py:26-67 | returns the first attempt that parses and validates, each prompt built from the attempt before it; otherwise reports the last attempt's issues and output |
| `EndToEnd.CompiledGraphIsAccepted` | llmasm/compiler/compiler.py:127-149 | an approved proposal with distinct names and no expand node persists to a graph that meets the hypotheses of every whole-run theorem |
| `EndToEnd.ValidGraphNeverStalls` | llmasm/runtime/executor.py:75-101 | a graph that passes the validators and has no expand node never stalls, whatever the handlers do |
| `EndToEnd.CompileAndRun` | llmasm/compiler/compiler.py:126-149 | the whole call: something runs exactly when one of the allowed planner attempts passes; it is the first such proposal, it persists to a valid graph exactly when no node that needs edges is shadowed, and its run stalls only then or when the graph may grow |
| `EndToEnd.PersistAndRun` | llmasm/compiler/compiler.py:147-149 | the second half: an approved proposal normalised for real, stored and executed |
| `EndToEnd.BuiltInsReturnTheirSchema` | llmasm/runtime/executor.py:240-275 | on a valid graph, final and router nodes return values of the schema they declare |
| `ChainExample.BareRuns` | llmasm/compiler/compiler.py:84-163 | three bare nodes without an edge meet the hypotheses of the compiler's and the run's theorems together, for all handlers, prompts and identifiers |
| `Chunking.ChunkSentences` | llmasm/chunking.py:77-124 | the chunks are those of the specified windows, numbered in order, each announcing the total |
| `Chunking.ChunksHold` | llmasm/chunking.py:126-138 | each chunk is numbered, announces the total, reports its own count, and holds exactly its window's sentences in order, each at the offset of those before it |
| `Chunking.WindowsAreCutRight` | llmasm/chunking.py:90-117 | each window but the last ends exactly at the first sentence, beyond the one that opened it, for which the target leaves no room |
| `Chunking.CountTokensIsCeiling` | llmasm/providers/base.py:47-50 | the estimate is the least integer not below 1.35 times the words |
| `Chunking.Pass` | llmasm/chunking.py:87-117 | the loop over the sentences emits exactly the specified windows |
| `Chunking.OverlapTail` | llmasm/chunking.py:99-106 | the copied tail is the longest suffix that fits the overlap, with its token sum |
| `Chunking.OverlapIsLongest` | llmasm/chunking.py:99-106 | every longer suffix exceeds the overlap |
| `Chunking.WindowsAreGood` | llmasm/chunking.py:77-124 | windows run from the first sentence to the last with strictly increasing ends, each starting with the longest suffix of its predecessor that fits the overlap, none over max(target, overlap + longest sentence) |
| `Chunking.EverySentenceIsCovered` | llmasm/chunking.py:77-124 | every sentence lies in some window |
| `Chunking.JoinedCount` | llmasm/providers/base.py:47-50 | joining k sentences loses at most k-1 tokens to rounding and gains none |
| `Chunking.ReportedCountIsClose` | llmasm/chunking.py:126-138 | a chunk's reported count lies within k-1 below its window's token sum, and that sum within the window bound |
| `QaPairs.GetRecentQaPairs` | llmasm/conversation/memory.py:232-263 | the texts of the specified pairs of the log's questions and answers |
| `QaPairs.TextsExactly` | llmasm/conversation/memory.py:258-263 | every returned pair is the text of a question of the log, then the text of an answer of it that is not older |
| `QaPairs.RecentPairs` | llmasm/conversation/memory.py:250-263 | the loop with its early stop computes those pairs, for every limit |
| `QaPairs.NextAnswer` | llmasm/conversation/memory.py:254-257 | the first unused answer that is not older than the question |
| `QaPairs.NewestFirstProperties` | llmasm/conversation/memory.py:239-248 | sorting keeps the items and puts newer ones first |
| `QaPairs.NewestFirstIsStable` | llmasm/conversation/memory.py:239-248 | items of one time keep their order |
| `QaPairs.GreedyIsGood` | llmasm/conversation/memory.py:252-260 | no answer is used twice and none is older than its question |
| `QaPairs.GreedyIsMaximum` | llmasm/conversation/memory.py:252-260 | no matching of answers to questions is larger than the greedy one |
| `QaPairs.RecentIsOptimal` | llmasm/conversation/memory.py:232-263 | for a limit of at least one the result is a matching of min(limit, largest matching) pairs |
| `QaPairs.GreedyIsAdjacentExactly` | llmasm/conversation/memory.py:253-260 | on logs with strictly different times the pairs are the adjacent ones exactly when no turn holds two answers |
| `QaPairs.RecentIsAdjacentExactly` | llmasm/conversation/memory.py:232-263 | the documented promise for every limit of at least one: the result is the newest limit adjacent pairs exactly when, among the questions it takes to find them, no turn holds two answers |
| `QaPairs.TwoAnswersAreNotAdjacent` | llmasm/conversation/memory.py:235-236 | a log on which the promise fails: of one question and two answers the second answer is paired |
| `QaPairs.TurnsNeededIsLeast` | llmasm/conversation/memory.py:261-262 | that number of questions is the least whose adjacent pairs reach the limit, or all questions |
| `QaPairs.PrefixPairs` | llmasm/conversation/memory.py:252-262 | the pairs of the newest k questions are the pairs whose questions are among them |
| `ContextSelection.MergeAll` | llmasm/runtime/context.py:183-188 | the dictionary after all items, insertion order included |
| `ContextSelection.MergedProperties` | llmasm/runtime/context.py:183-188 | that dictionary has one item per identifier that occurs, with the greatest score it occurs with |
| `ContextSelection.Trim` | llmasm/runtime/context.py:239-247 | keeps each item that still fits, in order |
| `ContextSelection.SelectContext` | llmasm/runtime/context.py:183-218 | the trimmed list of reserved summaries, ranked chunks and ranked other items |
| `ContextSelection.SelectedExactly` | llmasm/runtime/context.py:190-218 | no item but a summary is selected below the minimal score; every merged item at or above it is, unless it no longer fits; summaries precede chunks, chunks the rest, both by rank |
| `ContextSelection.SummariesFitReserve` | llmasm/runtime/context.py:193-207 | the summaries come first and fit the reserve of at most 128 tokens, and a summary is left out only if it would not |
| `ContextSelection.MergeNew` | llmasm/runtime/context.py:185-187 | an item of a new identifier comes last |
| `ContextSelection.MergeKnown` | llmasm/runtime/context.py:185-187 | an item of a known identifier takes the place of one of lower score and otherwise changes nothing |
| `ContextSelection.SelectionIsGood` | llmasm/runtime/context.py:205-218 | within the budget, every reserved summary kept as a prefix, and no dropped item would still fit |
| `ContextSelection.SelectionIsUnique` | llmasm/runtime/context.py:183-218 | whatever was retrieved, no identifier is selected twice and each selected item has the best score its identifier was retrieved with |
| `ContextSelection.DroppedDoesNotFit` | llmasm/runtime/context.py:239-247 | an item dropped by trimming would not fit at the end either |
| `ContextSelection.FittingPrefixSurvives` | llmasm/runtime/context.py:205-218 | items that fit together survive trimming as a prefix, whatever follows them |
| `ContextSelection.RankedProperties` | llmasm/runtime/context.py:194-203 | ranking keeps the items and orders them by score, then by size |
| `ContextSelection.RankedIsStable` | llmasm/runtime/context.py:194-203 | items that rank alike keep the order in which they were merged |

## Left out

- Denotation.RunComputesDenotation: whole-run outcomes assume of the nodes that are looked up in the cache, and only of them, that no other node has their key and that any hit on them is genuine; a graph without such nodes needs neither, distinct names and an empty index are enough, and `EarnedIsWarm` covers storages in use. They also assume that the graph has no expand node.
- Reruns.EarnedIsWarm: asks at most one data edge of a node that is looked up; with two, `SwappedInputsAreServed` shows a hit that is not genuine.
- EdgeOrder.EdgeOrderIsIrrelevant: where two data edges share a port, or a handler reads the first of several inputs, the order of edges does show.
- Completion.NeverStalls: for graphs without expand nodes, because the executor applies an expansion without validating it; termination is proved with expand nodes.
- Pruning.BranchesAreExclusive: for routers that succeeded and recorded a branch; a skipped router, or one whose result was reused, records none.
- Schedulers.SkipsIgnoreNodeOrder: reasons are compared within one propagation; which propagation reaches a node first, and so its reason, may differ between scheduling orders.
- Executors.Executor.Execute: run timestamps are not modelled; the status stays running after a fatal or a retryable error, as in the code.
- Validation.ValidateGraph: the checks of single nodes (schema names, tools, models, budgets) are one predicate of the node; the order of the issues is not part of the claim.
- EndToEnd.CompileAndRun: the planner, the parser and the wording of the feedback are functions of the text they get; goals and stored compilation failures are left out.
- QaPairs.GetRecentQaPairs: identifiers of memory items are distinct, as the storage's dictionary guarantees.
- Chunking.ChunkSentences: starts from the list of sentences; the regular-expression splitter and the constructor's argument checks are not modelled, and no bound between target and overlap is assumed.
- Edge identifiers: edges form a sequence and are read in that order, where the code sorts them by a random identifier; all theorems hold for every sequence.
- Digests of inputs are integers and may collide, except where a lemma says not; node, artifact and edge identifiers come from a generator that never repeats.
- Tool-call and model-call records, embeddings, workspace edges, few-shot examples, goals and compilation-failure records: write-only here.
- An expansion request is a field of the node; the payload's parsing is not modelled, except that a missing one is an error, and it is not part of the cache key.
- `validate_expansion`, which no caller in the runtime uses.
- Deep copies: the model's records are values, so no caller can change what is stored.
- Context retrieval and the optional model filter; scores are real numbers, token estimates exact arithmetic.
- PostgreSQL storage, providers, built-in tools, exporters, chat front end, dialogue classification.
- Resuming a run after a retryable error: no code resets the state.
