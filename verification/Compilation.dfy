/** Normalisation of a planner proposal into a task graph, done twice: once as a
    dry run that is validated, once for real. What the dry run proves about the
    graph that is persisted. */
module Compilation {
  import opened TaskGraphs
  import opened Transforms
  import opened Expansion
  import opened Validation
  import opened Wiring

  /** What normalisation asks of the registries: which tools exist, which tool a
      node name suggests, a tool's schemas, and what a schema reference says once
      placeholders are discarded. */
  datatype Catalog = Catalog(
    hasTool: string -> bool,
    inferTool: string -> Option<string>,
    toolSchemas: string -> (string, string),
    clean: string -> Option<string>)

  datatype Proposal = Proposal(nodes: seq<NodeBody>, edges: seq<ProposalEdge>)

  // ----- one node -----

  function ToolOf(c: Catalog, n: NodeBody): Option<string> {
    var named := Field(n.execution, "tool");
    if Missing(named) then c.inferTool(n.name) else named
  }

  /** A tool node without a registered tool becomes a plain model node. */
  function RecoverHallucinatedTool(c: Catalog, n: NodeBody): NodeBody {
    if n.kind.Tool? && (Missing(ToolOf(c, n)) || !c.hasTool(ToolOf(c, n).value))
    then n.(kind := Model, execution := map[], allowCache := None)
    else n
  }

  function Clean(c: Catalog, value: Option<string>): Option<string> {
    if value.Some? then c.clean(value.value) else None
  }

  function DeclaredSchema(c: Catalog, declared: Option<string>, metadata: map<string, string>,
                          key: string): Option<string> {
    OrElse(Clean(c, declared), Clean(c, Field(metadata, key)))
  }

  function Default(value: Option<string>, default: string): Option<string> {
    OrElse(value, Some(default))
  }

  /** `_canonical_node_fields`: input schema, output schema, execution. */
  function CanonicalFields(c: Catalog, n: NodeBody): (Option<string>, Option<string>, map<string, string>) {
    var input := DeclaredSchema(c, n.inputSchema, n.metadata, "input_schema");
    var output := DeclaredSchema(c, n.outputSchema, n.metadata, "output_schema");
    match n.kind
    case Intent => (None, Some("RawText"), n.execution)
    case Final => (Some("Summary"), Some("FinalAnswer"), n.execution)
    case Model => ProcessingFields(input, output, n.execution)
    case Compress => ProcessingFields(input, output, n.execution)
    case Tool =>
      var tool := ToolOf(c, n);
      var execution := if !Missing(tool) then n.execution["tool" := tool.value] else n.execution;
      if !Missing(tool) && c.hasTool(tool.value)
      then (Default(input, c.toolSchemas(tool.value).0), Default(output, c.toolSchemas(tool.value).1), execution)
      else (input, output, execution)
    case _ => (input, output, n.execution)
  }

  function ProcessingFields(input: Option<string>, output: Option<string>,
                            execution: map<string, string>): (Option<string>, Option<string>, map<string, string>) {
    (Default(input, "RawText"),
     if output == Some("FinalAnswer") then Some("Summary") else Default(output, "Summary"),
     execution)
  }

  function Direction(value: string): Option<string> {
    if value == "in" || value == "input" then Some("input")
    else if value == "out" || value == "output" then Some("output")
    else None
  }

  function CanonicalPort(c: Catalog, p: Port, direction: string, input: Option<string>, output: Option<string>): Port {
    var schema := if Clean(c, Some(p.schemaRef)).Some? then Clean(c, Some(p.schemaRef))
                  else if direction == "input" then input else output;
    Port(p.name, direction, Default(schema, "RawText").value, p.required)
  }

  function DeclaredPorts(c: Catalog, ports: seq<Port>, input: Option<string>, output: Option<string>): seq<Port> {
    if ports == [] then []
    else
      var p := ports[|ports| - 1];
      DeclaredPorts(c, ports[..|ports| - 1], input, output)
      + if Direction(p.direction).Some? then [CanonicalPort(c, p, Direction(p.direction).value, input, output)] else []
  }

  predicate HasDirection(ports: seq<Port>, direction: string) {
    exists p | p in ports :: p.direction == direction
  }

  function WithDefaultPort(ports: seq<Port>, name: string, schema: Option<string>): seq<Port> {
    if Missing(schema) || HasDirection(ports, name) then ports else ports + [Port(name, name, schema.value, true)]
  }

  /** The persisted form of a proposed node, identifier aside. */
  function CanonicalBody(c: Catalog, n: NodeBody): NodeBody {
    var (input, output, execution) := CanonicalFields(c, n);
    var declared := DeclaredPorts(c, n.ports, input, output);
    NodeBody(n.name, n.kind, input, output,
             WithDefaultPort(WithDefaultPort(declared, "input", input), "output", output),
             execution, n.allowCache, n.metadata["proposal_name" := n.name], n.expansion)
  }

  predicate PortsDirected(n: NodeBody) {
    forall p | p in n.ports :: Direction(p.direction).Some?
  }

  // ----- injected nodes -----

  function Recovered(c: Catalog, nodes: seq<NodeBody>): seq<NodeBody> {
    seq(|nodes|, i requires 0 <= i < |nodes| => RecoverHallucinatedTool(c, nodes[i]))
  }

  /** The injected intent; its prompt is stamped on when it gets its identifier. */
  const ROOT_PROMPT := NodeBody("root_prompt", Intent, None, Some("RawText"), [], map[], None, map[], None)

  function WithIntent(nodes: seq<NodeBody>): seq<NodeBody> {
    if FirstOf(nodes, Intent).Some? then nodes else [ROOT_PROMPT] + nodes
  }

  predicate LeadsOn(nodes: seq<NodeBody>, edges: seq<ProposalEdge>, name: string) {
    exists e | e in edges :: e.from == name && exists n | n in nodes :: n.name == e.to
  }

  /** The last model or compress node with no edge to a known node. */
  function InjectionSink(candidates: seq<NodeBody>, nodes: seq<NodeBody>, edges: seq<ProposalEdge>): Option<NodeBody> {
    if candidates == [] then None
    else
      var n := candidates[|candidates| - 1];
      if (n.kind.Model? || n.kind.Compress?) && !LeadsOn(nodes, edges, n.name) then Some(n)
      else InjectionSink(candidates[..|candidates| - 1], nodes, edges)
  }

  function FinalNode(sink: Option<NodeBody>): NodeBody {
    NodeBody("final", Final, if sink.Some? then sink.value.outputSchema else None, Some("FinalAnswer"),
             [], map[], None, map[], None)
  }

  function WithFinal(p: Proposal): Proposal {
    if FirstOf(p.nodes, Final).Some? then p
    else
      var sink := InjectionSink(p.nodes, p.nodes, p.edges);
      Proposal(p.nodes + [FinalNode(sink)],
               if sink.Some? then p.edges + [PlainEdge(sink.value.name, "final")] else p.edges)
  }

  /** The proposal whose nodes get identifiers. */
  function Completed(c: Catalog, p: Proposal): Proposal {
    WithFinal(Proposal(WithIntent(Recovered(c, p.nodes)), p.edges))
  }

  // ----- the graph -----

  /** The dry run names the k-th node after itself, the real run takes the
      generator's k-th next identifier. */
  function IdAt(dryRun: bool, nextId: nat, k: nat, name: string): Id {
    if dryRun then NamedId(name) else FreshId(nextId + k)
  }

  /** The injected intent, always first, carries the prompt. */
  function Stamp(body: NodeBody, k: nat, prompt: Option<string>): NodeBody {
    if k == 0 && prompt.Some? then body.(metadata := body.metadata["prompt" := prompt.value]) else body
  }

  function NodeAt(c: Catalog, body: NodeBody, k: nat, prompt: Option<string>, dryRun: bool, nextId: nat): Node {
    Node(IdAt(dryRun, nextId, k, body.name), Stamp(CanonicalBody(c, body), k, prompt))
  }

  function Nodes(c: Catalog, bodies: seq<NodeBody>, prompt: Option<string>, dryRun: bool, nextId: nat): seq<Node> {
    if bodies == [] then []
    else
      var k := |bodies| - 1;
      Nodes(c, bodies[..k], prompt, dryRun, nextId) + [NodeAt(c, bodies[k], k, prompt, dryRun, nextId)]
  }

  /** Edges name nodes; the last node of a name is meant, and edges to unknown
      names are dropped. */
  function Wired(nodes: seq<Node>, edges: seq<ProposalEdge>): TaskGraph {
    TaskGraph(nodes, EdgesFor(NamesOf(nodes), edges))
  }

  function InjectedPrompt(c: Catalog, p: Proposal, prompt: string): Option<string> {
    if FirstOf(Recovered(c, p.nodes), Intent).None? then Some(prompt) else None
  }

  function Normalized(c: Catalog, p: Proposal, prompt: string, dryRun: bool, nextId: nat): TaskGraph {
    var completed := Completed(c, p);
    Wired(Nodes(c, completed.nodes, InjectedPrompt(c, p, prompt), dryRun, nextId),
          Canonical(completed.nodes, completed.edges))
  }

  /** The inner loop over a node's declared ports: those without a direction are
      reported and left out. */
  method NormalizePorts(c: Catalog, n: NodeBody, input: Option<string>, output: Option<string>)
    returns (ports: seq<Port>, issues: seq<Issue>)
    ensures ports == DeclaredPorts(c, n.ports, input, output)
    ensures issues == [] <==> PortsDirected(n)
  {
    ports, issues := [], [];
    for i := 0 to |n.ports|
      invariant ports == DeclaredPorts(c, n.ports[..i], input, output)
      invariant issues == [] <==> forall j :: 0 <= j < i ==> Direction(n.ports[j].direction).Some?
    {
      assert n.ports[..i + 1][..i] == n.ports[..i];
      var p := n.ports[i];
      if Direction(p.direction).None? {
        issues := issues + [Issue("PORT_DIRECTION_INVALID", Some(n.name))];
      } else {
        ports := ports + [CanonicalPort(c, p, Direction(p.direction).value, input, output)];
      }
    }
    assert n.ports[..|n.ports|] == n.ports;
  }

  method NormalizeNode(c: Catalog, n: NodeBody) returns (body: NodeBody, issues: seq<Issue>)
    ensures body == CanonicalBody(c, n)
    ensures issues == [] <==> PortsDirected(n)
  {
    var (input, output, execution) := CanonicalFields(c, n);
    var ports;
    ports, issues := NormalizePorts(c, n, input, output);
    if !Missing(input) && !HasDirection(ports, "input") {
      ports := ports + [Port("input", "input", input.value, true)];
    }
    if !Missing(output) && !HasDirection(ports, "output") {
      ports := ports + [Port("output", "output", output.value, true)];
    }
    body := NodeBody(n.name, n.kind, input, output, ports, execution, n.allowCache,
                     n.metadata["proposal_name" := n.name], n.expansion);
  }

  lemma NodesStep(c: Catalog, bodies: seq<NodeBody>, i: nat, prompt: Option<string>, dryRun: bool, nextId: nat)
    requires i < |bodies|
    ensures var node := NodeAt(c, bodies[i], i, prompt, dryRun, nextId);
      var nodes := Nodes(c, bodies[..i], prompt, dryRun, nextId);
      && Nodes(c, bodies[..i + 1], prompt, dryRun, nextId) == nodes + [node]
      && NamesOf(nodes + [node]) == NamesOf(nodes)[node.body.name := node.id]
      && node.body.name == bodies[i].name
  {
    hide CanonicalFields, WithDefaultPort, DeclaredPorts;
    assert bodies[..i + 1][..i] == bodies[..i];
    var node := NodeAt(c, bodies[i], i, prompt, dryRun, nextId);
    var nodes := Nodes(c, bodies[..i], prompt, dryRun, nextId);
    assert (nodes + [node])[..|nodes|] == nodes;
  }

  /** The loop over the nodes: `nodes` and `name_to_id` grow together. */
  method NormalizeNodes(c: Catalog, bodies: seq<NodeBody>, prompt: Option<string>, dryRun: bool, nextId: nat)
    returns (nodes: seq<Node>, nameToId: Names, issues: seq<Issue>)
    ensures nodes == Nodes(c, bodies, prompt, dryRun, nextId) && nameToId == NamesOf(nodes)
    ensures issues == [] <==> forall i :: 0 <= i < |bodies| ==> PortsDirected(bodies[i])
  {
    hide CanonicalBody, PortsDirected;
    nodes, nameToId, issues := [], map[], [];
    for i := 0 to |bodies|
      invariant nodes == Nodes(c, bodies[..i], prompt, dryRun, nextId) && nameToId == NamesOf(nodes)
      invariant issues == [] <==> forall j :: 0 <= j < i ==> PortsDirected(bodies[j])
    {
      var body, found := NormalizeNode(c, bodies[i]);
      issues := issues + found;
      var node := Node(IdAt(dryRun, nextId, i, bodies[i].name), Stamp(body, i, prompt));
      NodesStep(c, bodies, i, prompt, dryRun, nextId);
      nodes := nodes + [node];
      nameToId := nameToId[bodies[i].name := node.id];
    }
    assert bodies[..|bodies|] == bodies;
  }

  /** `_normalize`: complete the proposal, give its nodes identifiers, then wire
      the canonical edges. */
  method Normalize(c: Catalog, p: Proposal, prompt: string, dryRun: bool, nextId: nat)
    returns (g: TaskGraph, issues: seq<Issue>)
    ensures g == Normalized(c, p, prompt, dryRun, nextId)
    ensures issues == [] <==> forall i :: 0 <= i < |Completed(c, p).nodes| ==> PortsDirected(Completed(c, p).nodes[i])
  {
    var completed := Completed(c, p);
    var nodes, nameToId;
    nodes, nameToId, issues := NormalizeNodes(c, completed.nodes, InjectedPrompt(c, p, prompt), dryRun, nextId);
    var canonical := CanonicalEdges(completed.nodes, completed.edges);
    g := TaskGraph(nodes, EdgesFor(nameToId, canonical));
  }

  /** `_validate_proposal`: the issues of the dry run and of every validator. */
  method ValidateProposal(c: Catalog, registry: Registry, local: NodeBody -> bool, p: Proposal)
    returns (issues: seq<Issue>)
    ensures issues == [] <==> Approved(c, registry, local, p)
  {
    var g, found := Normalize(c, p, "", true, 0);
    var more := ValidateGraph(registry, local, g);
    issues := found + more;
  }

  ghost predicate Approved(c: Catalog, registry: Registry, local: NodeBody -> bool, p: Proposal) {
    && (forall i :: 0 <= i < |Completed(c, p).nodes| ==> PortsDirected(Completed(c, p).nodes[i]))
    && IsValid(registry, local, Normalized(c, p, "", true, 0))
  }
}
