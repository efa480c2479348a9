/** From a planner proposal to the end of its run: what the validators accept is
    what keeps the executor from stalling. */
module EndToEnd {
  import opened TaskGraphs
  import opened Acyclicity
  import opened ArtifactCache
  import opened RunStates
  import opened Storage
  import opened Transforms
  import opened Execution
  import opened Termination
  import opened Executors
  import opened Reachability
  import opened Pruning
  import opened Completion
  import opened Denotation
  import opened Validation
  import opened Compilation
  import opened Persistence
  import opened Repair

  /** A graph in a storage that holds nothing else. */
  function Loaded(g: TaskGraph, nextId: nat): Vm {
    Vm(g.nodes, g.edges, map[], EMPTY_STORE, [], RunPending, None, nextId)
  }

  ghost predicate IdsBelow(nodes: seq<Node>, nextId: nat) {
    DistinctIds(nodes) && forall n, k: nat :: n in nodes && k >= nextId ==> n.id != FreshId(k)
  }

  lemma LoadedIsUnstarted(g: TaskGraph, nextId: nat)
    requires IdsBelow(g.nodes, nextId)
    ensures Unstarted(Loaded(g, nextId)) && Fresh(Prepared(Loaded(g, nextId)))
    ensures StatesOfNodes(Prepared(Loaded(g, nextId)))
  {
    PreparedIsFresh(Loaded(g, nextId));
  }

  /** A valid graph that does not grow starts runs of which every whole-run
      theorem holds. */
  lemma ValidGraphIsAccepted(registry: Registry, local: NodeBody -> bool, g: TaskGraph, nextId: nat)
    returns (rank: Id -> nat)
    requires IsValid(registry, local, g) && IdsBelow(g.nodes, nextId) && ExpandFree(g.nodes)
    ensures Accepted(Prepared(Loaded(g, nextId)), rank)
  {
    LoadedIsUnstarted(g, nextId);
    rank := AcyclicHasRank(g.edges);
    forall e | e in g.edges ensures Lookup(g.nodes, e.from).Some? {
      assert EdgeFits(g.nodes, e);
    }
  }

  /** No stall: the executor returns or a node's execution raises. */
  lemma ValidGraphNeverStalls(env: Env, local: NodeBody -> bool, g: TaskGraph, nextId: nat)
    requires IsValid(env.registry, local, g) && IdsBelow(g.nodes, nextId) && ExpandFree(g.nodes)
    ensures Sane(Prepared(Loaded(g, nextId)))
    ensures !RunFrom(env, Prepared(Loaded(g, nextId))).1.Stalled?
  {
    var rank := ValidGraphIsAccepted(env.registry, local, g, nextId);
    NeverStalls(env, Prepared(Loaded(g, nextId)), rank);
  }

  ghost predicate DistinctNames(c: Catalog, p: Proposal) {
    forall i, j :: 0 <= i < j < |Completed(c, p).nodes| ==>
      Completed(c, p).nodes[i].name != Completed(c, p).nodes[j].name
  }

  function NodeCount(c: Catalog, p: Proposal): nat {
    |Completed(c, p).nodes|
  }

  lemma PersistedIds(c: Catalog, p: Proposal, prompt: string, nextId: nat)
    ensures IdsBelow(Normalized(c, p, prompt, false, nextId).nodes, nextId + NodeCount(c, p))
  {
    hide CanonicalBody;
    var bodies := Completed(c, p).nodes;
    NodesAre(c, bodies, InjectedPrompt(c, p, prompt), false, nextId);
    RealIdsAreDistinct(c, bodies, InjectedPrompt(c, p, prompt), nextId);
  }

  lemma PersistedNames(c: Catalog, p: Proposal, prompt: string, nextId: nat)
    requires DistinctNames(c, p)
    ensures var nodes := Normalized(c, p, prompt, false, nextId).nodes;
      forall m, n :: m in nodes && n in nodes && m.body.name == n.body.name ==> m == n
  {
    hide CanonicalBody, Completed, Harmless, Expansion.EdgesFor, Wiring.Canonical, Expansion.NamesOf;
    var nodes := Normalized(c, p, prompt, false, nextId).nodes;
    RealBodies(c, Completed(c, p).nodes, InjectedPrompt(c, p, prompt), nextId);
    forall m, n | m in nodes && n in nodes && m.body.name == n.body.name ensures m == n {
      var i, j :| 0 <= i < |nodes| && 0 <= j < |nodes| && nodes[i] == m && nodes[j] == n;
    }
  }

  /** What the compiler approves and persists satisfies the hypotheses of the
      run theorems: no stall, one meaning, order independence. */
  lemma CompiledGraphIsAccepted(c: Catalog, registry: Registry, local: NodeBody -> bool, p: Proposal, prompt: string,
                                nextId: nat)
    returns (rank: Id -> nat)
    requires Approved(c, registry, local, p) && DistinctNames(c, p)
    requires ExpandFree(Normalized(c, p, prompt, false, nextId).nodes)
    ensures var vm := Prepared(Loaded(Normalized(c, p, prompt, false, nextId), nextId + NodeCount(c, p)));
      Accepted(vm, rank) && Cold(vm)
  {
    hide IsValid, Normalized, Approved, Completed;
    var g := Normalized(c, p, prompt, false, nextId);
    DistinctNamesPersistValid(c, registry, local, p, prompt, nextId);
    PersistedIds(c, p, prompt, nextId);
    PersistedNames(c, p, prompt, nextId);
    rank := ValidGraphIsAccepted(registry, local, g, nextId + NodeCount(c, p));
    DistinctNamesAreCold(Prepared(Loaded(g, nextId + NodeCount(c, p))));
  }

  /** The repair loop's validator answers as `ValidateProposal` does. */
  ghost predicate Judges(planner: Planner, c: Catalog, registry: Registry, local: NodeBody -> bool) {
    forall p :: planner.validate(p) == [] <==> Approved(c, registry, local, p)
  }

  /** Ask the planner, repair, persist and run. Something is run exactly when one
      of the allowed attempts passes; it is the first such proposal, it persists
      to a valid graph exactly when no node that needs edges is shadowed, and its
      run can stall only then or when the graph may grow. */
  method CompileAndRun(planner: Planner, plannerPrompt: string, maxAttempts: int,
                       c: Catalog, env: Env, local: NodeBody -> bool, prompt: string, nextId: nat)
    returns (compiled: RepairResult, result: Option<RunResult>)
    requires Judges(planner, c, env.registry, local)
    ensures compiled.Compiled? <==>
      exists k: nat :: k < maxAttempts && Passes(planner, Output(planner, plannerPrompt, k))
    ensures compiled.Compiled? ==>
      exists k: nat :: k < maxAttempts && FirstToPass(planner, plannerPrompt, k, compiled.proposal)
    ensures compiled.Compiled? ==>
      && Approved(c, env.registry, local, compiled.proposal)
      && (IsValid(env.registry, local, Normalized(c, compiled.proposal, prompt, false, nextId))
          <==> NoHarmfulShadow(c, Completed(c, compiled.proposal).nodes))
    ensures result.Some? <==> compiled.Compiled?
    ensures result == Some(Stalled) ==>
      || !NoHarmfulShadow(c, Completed(c, compiled.proposal).nodes)
      || !ExpandFree(Normalized(c, compiled.proposal, prompt, false, nextId).nodes)
  {
    hide IsValid, Normalized, Approved, Completed, NoHarmfulShadow, ExpandFree, Output, Passes, FirstToPass;
    compiled := CompileWithRepair(planner, plannerPrompt, maxAttempts);
    result := None;
    if compiled.Compiled? {
      var p := compiled.proposal;
      PassedIsValidated(planner, plannerPrompt, p);
      ApprovedPersistsValidExactly(c, env.registry, local, p, prompt, nextId);
      var outcome := PersistAndRun(c, env, local, p, prompt, nextId);
      result := Some(outcome);
    }
  }

  lemma PassedIsValidated(planner: Planner, plannerPrompt: string, p: Proposal)
    requires exists k: nat :: FirstToPass(planner, plannerPrompt, k, p)
    ensures planner.validate(p) == []
  {}

  lemma ApprovedPersistsValidExactly(c: Catalog, registry: Registry, local: NodeBody -> bool, p: Proposal,
                                     prompt: string, nextId: nat)
    requires Approved(c, registry, local, p)
    ensures IsValid(registry, local, Normalized(c, p, prompt, false, nextId)) <==>
      NoHarmfulShadow(c, Completed(c, p).nodes)
  {
    hide IsValid, Normalized, Completed, NoHarmfulShadow;
    PersistedIsValidExactly(c, registry, local, p, prompt, nextId);
  }

  /** The approved proposal, normalised for real, stored and executed. */
  method PersistAndRun(c: Catalog, env: Env, local: NodeBody -> bool, p: Proposal, prompt: string, nextId: nat)
    returns (outcome: RunResult)
    requires Approved(c, env.registry, local, p)
    ensures outcome.Stalled? ==>
      !NoHarmfulShadow(c, Completed(c, p).nodes) || !ExpandFree(Normalized(c, p, prompt, false, nextId).nodes)
  {
    hide IsValid, Normalized, Approved, Completed, NoHarmfulShadow, ExpandFree;
    hide RunFrom, Prepared, Sane, Unstarted, Fresh, StatesOfNodes, IdsBelow;
    var g, _ := Normalize(c, p, prompt, false, nextId);
    PersistedIds(c, p, prompt, nextId);
    var next := nextId + NodeCount(c, p);
    LoadedIsUnstarted(g, next);
    var storage := new InMemoryStorage(g, next);
    var executor := new Executor(storage, env);
    outcome := executor.Execute();
    ApprovedRunsNeverStall(c, env, local, p, prompt, nextId);
  }

  lemma ApprovedRunsNeverStall(c: Catalog, env: Env, local: NodeBody -> bool, p: Proposal, prompt: string, nextId: nat)
    requires Approved(c, env.registry, local, p)
    ensures var g := Normalized(c, p, prompt, false, nextId);
      var vm := Prepared(Loaded(g, nextId + NodeCount(c, p)));
      NoHarmfulShadow(c, Completed(c, p).nodes) && ExpandFree(g.nodes) ==> Sane(vm) && !RunFrom(env, vm).1.Stalled?
  {
    hide IsValid, Normalized, Completed, NoHarmfulShadow, ExpandFree, Sane, RunFrom, Prepared;
    PersistedIds(c, p, prompt, nextId);
    PersistedIsValidExactly(c, env.registry, local, p, prompt, nextId);
    if NoHarmfulShadow(c, Completed(c, p).nodes) && ExpandFree(Normalized(c, p, prompt, false, nextId).nodes) {
      ValidGraphNeverStalls(env, local, Normalized(c, p, prompt, false, nextId), nextId + NodeCount(c, p));
    }
  }

  /** The kinds the executor answers itself return what their node declares:
      normalisation fixes a final node's schema, validation a router's. */
  lemma BuiltInsReturnTheirSchema(c: Catalog, env: Env, local: NodeBody -> bool, p: Proposal, prompt: string,
                                  dryRun: bool, nextId: nat,
                                  n: Node, direct: seq<Input>)
    requires var g := Normalized(c, p, prompt, dryRun, nextId); IsValid(env.registry, local, g) && n in g.nodes
    requires (n.body.kind.Final? || n.body.kind.Router?) && Handle(env, n, direct).Ok?
    ensures n.body.outputSchema == Some(Handle(env, n, direct).value.schema)
  {
    hide Normalized, Handle, IsValid, RouterOk;
    if n.body.kind.Final? {
      FinalDeclaresAnswer(c, p, prompt, dryRun, nextId, n);
      FinalAnswers(env, n, direct);
    } else {
      RoutersAreChecked(env.registry, local, Normalized(c, p, prompt, dryRun, nextId), n);
      RoutersDecide(env, n, direct);
    }
  }

  lemma RoutersAreChecked(registry: Registry, local: NodeBody -> bool, g: TaskGraph, n: Node)
    requires IsValid(registry, local, g) && n in g.nodes && n.body.kind.Router?
    ensures n.body.outputSchema == Some("RoutingDecision")
  {
    hide PortsSatisfied, EdgesCompatible, NodesOk, HasTerminal, Acyclic;
    assert RouterOk(g.edges, n);
  }

  lemma FinalAnswers(env: Env, n: Node, direct: seq<Input>)
    requires n.body.kind.Final?
    ensures Handle(env, n, direct).Ok? && Handle(env, n, direct).value.schema == "FinalAnswer"
  {}

  lemma FinalDeclaresAnswer(c: Catalog, p: Proposal, prompt: string, dryRun: bool, nextId: nat, n: Node)
    requires n in Normalized(c, p, prompt, dryRun, nextId).nodes && n.body.kind.Final?
    ensures n.body.outputSchema == Some("FinalAnswer")
  {
    hide NodeAt, Completed, Expansion.EdgesFor, Wiring.Canonical, Expansion.NamesOf;
    var bodies := Completed(c, p).nodes;
    var nodes := Nodes(c, bodies, InjectedPrompt(c, p, prompt), dryRun, nextId);
    NodesAre(c, bodies, InjectedPrompt(c, p, prompt), dryRun, nextId);
    var i :| 0 <= i < |nodes| && nodes[i] == n;
    FinalIsTyped(c, bodies[i], i, InjectedPrompt(c, p, prompt), dryRun, nextId);
  }

  lemma FinalIsTyped(c: Catalog, body: NodeBody, k: nat, prompt: Option<string>, dryRun: bool, nextId: nat)
    requires NodeAt(c, body, k, prompt, dryRun, nextId).body.kind.Final?
    ensures NodeAt(c, body, k, prompt, dryRun, nextId).body.outputSchema == Some("FinalAnswer")
  {
    hide DeclaredPorts, WithDefaultPort;
  }
}
