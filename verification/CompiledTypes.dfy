/** Port types on compiled graphs: what normalisation adds to validation so that
    a run delivers what its ports declare, and a proposal for which it does not. */
module CompiledTypes {
  import opened TaskGraphs
  import opened RunStates
  import opened Schedulers
  import opened Transforms
  import opened Execution
  import opened Executors
  import opened Reachability
  import opened Pruning
  import opened Expansion
  import opened Validation
  import opened Wiring
  import opened Typing
  import opened Compilation
  import opened Persistence
  import opened EndToEnd

  // ----- the ports of a normalised node -----

  ghost predicate AllTyped(ports: seq<Port>) {
    forall p :: p in ports ==> p.schemaRef != ""
  }

  lemma {:induction false} DeclaredPortsAreTyped(c: Catalog, ports: seq<Port>, input: Option<string>,
                                                 output: Option<string>)
    ensures AllTyped(DeclaredPorts(c, ports, input, output))
  {
    if ports != [] {
      DeclaredPortsAreTyped(c, ports[..|ports| - 1], input, output);
    }
  }

  lemma CanonicalPortsAreTyped(c: Catalog, n: NodeBody)
    ensures AllTyped(CanonicalBody(c, n).ports)
  {
    hide CanonicalFields, DeclaredPorts;
    var fields := CanonicalFields(c, n);
    DeclaredPortsAreTyped(c, n.ports, fields.0, fields.1);
  }

  lemma PortlessRepeatsSchemas(c: Catalog, n: NodeBody)
    requires n.ports == []
    ensures RepeatsSchemas(CanonicalBody(c, n))
  {
    hide CanonicalFields;
  }

  lemma NodeOfBody(c: Catalog, p: Proposal, prompt: string, dryRun: bool, nextId: nat, n: Node) returns (body: NodeBody)
    requires n in Normalized(c, p, prompt, dryRun, nextId).nodes
    ensures body in Completed(c, p).nodes
    ensures n.body.ports == CanonicalBody(c, body).ports
    ensures n.body.inputSchema == CanonicalBody(c, body).inputSchema
    ensures n.body.outputSchema == CanonicalBody(c, body).outputSchema
  {
    hide CanonicalBody, Completed, EdgesFor, Canonical, NamesOf;
    var bodies := Completed(c, p).nodes;
    var nodes := Nodes(c, bodies, InjectedPrompt(c, p, prompt), dryRun, nextId);
    NodesAre(c, bodies, InjectedPrompt(c, p, prompt), dryRun, nextId);
    var i :| 0 <= i < |nodes| && nodes[i] == n;
    body := bodies[i];
  }

  /** No port of a compiled graph leaves its schema empty, whatever was declared. */
  lemma CompiledPortsAreTyped(c: Catalog, p: Proposal, prompt: string, dryRun: bool, nextId: nat)
    ensures PortsTyped(Normalized(c, p, prompt, dryRun, nextId).nodes)
  {
    hide Normalized, CanonicalBody;
    forall n, port | n in Normalized(c, p, prompt, dryRun, nextId).nodes && port in n.body.ports
      ensures port.schemaRef != ""
    {
      var body := NodeOfBody(c, p, prompt, dryRun, nextId, n);
      CanonicalPortsAreTyped(c, body);
    }
  }

  /** Ports left to the compiler repeat their nodes' schemas. */
  lemma PortlessPortsRepeat(c: Catalog, p: Proposal, prompt: string, dryRun: bool, nextId: nat)
    requires forall n :: n in Completed(c, p).nodes ==> n.ports == []
    ensures PortsRepeatSchemas(Normalized(c, p, prompt, dryRun, nextId).nodes)
  {
    hide Normalized, CanonicalBody, Completed;
    forall n | n in Normalized(c, p, prompt, dryRun, nextId).nodes ensures RepeatsSchemas(n.body) {
      var body := NodeOfBody(c, p, prompt, dryRun, nextId, n);
      PortlessRepeatsSchemas(c, body);
    }
  }

  /** The stored form of an approved proposal. */
  function Stored(c: Catalog, p: Proposal, prompt: string, nextId: nat): Vm {
    Prepared(Loaded(Normalized(c, p, prompt, false, nextId), nextId + NodeCount(c, p)))
  }

  lemma StoredIsValidated(c: Catalog, registry: Registry, local: NodeBody -> bool, p: Proposal, prompt: string,
                          nextId: nat)
    requires Approved(c, registry, local, p) && NoHarmfulShadow(c, Completed(c, p).nodes) && "" !in registry
    ensures Validated(registry, Normalized(c, p, prompt, false, nextId))
  {
    hide Normalized, Completed, NoHarmfulShadow, PortsSatisfied, EdgesCompatible;
    PersistedIsValidExactly(c, registry, local, p, prompt, nextId);
  }

  /** From the proposal to the port: a planner that leaves the ports to the
      compiler and puts transforms only between different schemas gets runs in
      which everything gathered has the schema of its port. */
  lemma CompiledRunDeliversPortTypes(c: Catalog, env: Env, local: NodeBody -> bool, p: Proposal, prompt: string,
                                     nextId: nat,
                                     tr: seq<Vm>, ns: seq<Node>, i: nat, n: Node)
    requires Approved(c, env.registry, local, p) && NoHarmfulShadow(c, Completed(c, p).nodes)
    requires WellTyped(env.registry) && "" !in env.registry
    requires forall b :: b in Completed(c, p).nodes ==> b.ports == []
    requires var g := Normalized(c, p, prompt, false, nextId);
      forall e :: e in g.edges && TransformOf(e).Some? ==> PortType(g.nodes, e) != Some(ReadSchema(g.nodes, e.from))
    requires IsRun(env, tr, ns) && tr[0] == Stored(c, p, prompt, nextId) && ExpandFree(tr[0].nodes)
    requires i < |tr| && Chosen(tr[i], n)
    ensures n.id in AfterSkips(tr[i]).states && GathersPortTypes(env, tr[i], n)
  {
    hide Normalized, Approved, Completed, NoHarmfulShadow, Validated, PortsRepeatSchemas;
    hide IsRun, Chosen, GathersPortTypes;
    StoredIsValidated(c, env.registry, local, p, prompt, nextId);
    PortlessPortsRepeat(c, p, prompt, false, nextId);
    assert tr[0].nodes == Normalized(c, p, prompt, false, nextId).nodes;
    assert TaskGraph(tr[0].nodes, tr[0].edges) == Normalized(c, p, prompt, false, nextId);
    RepeatedSchemasArePreserved(env, tr, ns, i, n);
  }
}
