/** The validators that decide whether a compiled graph may be persisted. Each
    method builds its issue list as it walks the graph; its contract says which
    graphs get an empty one. */
module Validation {
  import opened TaskGraphs
  import opened Transforms
  import Acyclicity

  datatype Issue = Issue(code: string, nodeName: Option<string>)

  // ----- required ports -----

  predicate InputRequired(kind: NodeKind) {
    kind.Tool? || kind.Model? || kind.Compress? || kind.Final?
  }

  predicate Reaches(edges: seq<Edge<Id>>, id: Id) {
    exists e | e in edges :: e.to == id
  }

  predicate ReachesPort(edges: seq<Edge<Id>>, id: Id, port: string) {
    exists e | e in edges :: e.to == id && e.toPort == port
  }

  predicate HasPort(ports: seq<Port>, name: string, direction: string) {
    PortSchema(ports, name, direction).Some?
  }

  predicate MustBeFed(p: Port) {
    p.direction == "input" && p.required
  }

  predicate NodeIsFed(edges: seq<Edge<Id>>, n: Node) {
    n.body.kind.Intent?
    || ((InputRequired(n.body.kind) ==> Reaches(edges, n.id))
        && forall p | p in n.body.ports && MustBeFed(p) :: ReachesPort(edges, n.id, p.name))
  }

  predicate EdgeFits(nodes: seq<Node>, e: Edge<Id>) {
    var src, dst := Lookup(nodes, e.from), Lookup(nodes, e.to);
    && src.Some? && dst.Some?
    && HasPort(src.value.body.ports, e.fromPort, "output")
    && HasPort(dst.value.body.ports, e.toPort, "input")
  }

  predicate PortsSatisfied(g: TaskGraph) {
    && (forall n | n in g.nodes :: NodeIsFed(g.edges, n))
    && forall e | e in g.edges :: EdgeFits(g.nodes, e)
  }

  method NodeInputIssues(edges: seq<Edge<Id>>, n: Node) returns (issues: seq<Issue>)
    ensures issues == [] <==> NodeIsFed(edges, n)
  {
    issues := [];
    if n.body.kind.Intent? {
      return;
    }
    if InputRequired(n.body.kind) && !Reaches(edges, n.id) {
      issues := [Issue("PORT_UNSATISFIED", Some(n.body.name))];
    }
    ghost var reached := issues == [];
    for i := 0 to |n.body.ports|
      invariant issues == [] <==> reached && forall j :: 0 <= j < i && MustBeFed(n.body.ports[j]) ==>
        ReachesPort(edges, n.id, n.body.ports[j].name)
    {
      var p := n.body.ports[i];
      if MustBeFed(p) && !ReachesPort(edges, n.id, p.name) {
        issues := issues + [Issue("PORT_UNSATISFIED", Some(n.body.name))];
      }
    }
  }

  method EdgePortIssues(nodes: seq<Node>, e: Edge<Id>) returns (issues: seq<Issue>)
    ensures issues == [] <==> EdgeFits(nodes, e)
  {
    issues := [];
    var src, dst := Lookup(nodes, e.from), Lookup(nodes, e.to);
    if src.None? || dst.None? {
      return [Issue("PORT_UNSATISFIED", None)];
    }
    if !HasPort(src.value.body.ports, e.fromPort, "output") {
      issues := issues + [Issue("PORT_UNSATISFIED", Some(src.value.body.name))];
    }
    if !HasPort(dst.value.body.ports, e.toPort, "input") {
      issues := issues + [Issue("PORT_UNSATISFIED", Some(dst.value.body.name))];
    }
  }

  method ValidateRequiredPorts(g: TaskGraph) returns (issues: seq<Issue>)
    ensures issues == [] <==> PortsSatisfied(g)
  {
    issues := [];
    for i := 0 to |g.nodes|
      invariant issues == [] <==> forall j :: 0 <= j < i ==> NodeIsFed(g.edges, g.nodes[j])
    {
      var found := NodeInputIssues(g.edges, g.nodes[i]);
      issues := issues + found;
    }
    ghost var fed := issues == [];
    for i := 0 to |g.edges|
      invariant issues == [] <==> fed && forall j :: 0 <= j < i ==> EdgeFits(g.nodes, g.edges[j])
    {
      var found := EdgePortIssues(g.nodes, g.edges[i]);
      issues := issues + found;
    }
  }

  // ----- edge compatibility -----

  /** `a or b` on optional strings: the empty string counts as missing. */
  function OrElse(a: Option<string>, b: Option<string>): Option<string> {
    if a.Some? && a.value != "" then a else b
  }

  predicate Missing(a: Option<string>) {
    a.None? || a.value == ""
  }

  function SourceSchema(src: Node, e: Edge<Id>): Option<string> {
    OrElse(PortSchema(src.body.ports, e.fromPort, "output"), src.body.outputSchema)
  }

  function TargetSchema(dst: Node, e: Edge<Id>): Option<string> {
    OrElse(PortSchema(dst.body.ports, e.toPort, "input"), dst.body.inputSchema)
  }

  predicate TypesFit(registry: Registry, fromSchema: Option<string>, toSchema: Option<string>,
                     transform: Option<string>) {
    || Missing(fromSchema) || Missing(toSchema)
    || ((Missing(transform) || transform.value in registry)
        && CanTransform(registry, fromSchema.value, toSchema.value, transform))
  }

  predicate EdgeCompatible(registry: Registry, nodes: seq<Node>, e: Edge<Id>) {
    var src, dst := Lookup(nodes, e.from), Lookup(nodes, e.to);
    src.None? || dst.None? || src.value.body.kind.Router?
    || TypesFit(registry, SourceSchema(src.value, e), TargetSchema(dst.value, e), e.transform)
  }

  predicate EdgesCompatible(registry: Registry, g: TaskGraph) {
    forall e | e in g.edges :: EdgeCompatible(registry, g.nodes, e)
  }

  method ValidateEdgeCompatibility(registry: Registry, g: TaskGraph) returns (issues: seq<Issue>)
    ensures issues == [] <==> EdgesCompatible(registry, g)
  {
    issues := [];
    for i := 0 to |g.edges|
      invariant issues == [] <==> forall j :: 0 <= j < i ==> EdgeCompatible(registry, g.nodes, g.edges[j])
    {
      var e := g.edges[i];
      var src, dst := Lookup(g.nodes, e.from), Lookup(g.nodes, e.to);
      if src.None? || dst.None? || src.value.body.kind.Router? {
        continue;
      }
      var fromSchema, toSchema := SourceSchema(src.value, e), TargetSchema(dst.value, e);
      if Missing(fromSchema) || Missing(toSchema) {
        continue;
      }
      if !Missing(e.transform) && e.transform.value !in registry {
        issues := issues + [Issue("UNKNOWN_TRANSFORM", Some(dst.value.body.name))];
      } else if !CanTransform(registry, fromSchema.value, toSchema.value, e.transform) {
        issues := issues + [Issue("SCHEMA_MISMATCH", Some(dst.value.body.name))];
      }
    }
  }

  // ----- routers -----

  function Branches(edges: seq<Edge<Id>>, id: Id): set<string> {
    set e | e in edges && e.from == id && !Missing(Branch(e)) :: Branch(e).value
  }

  predicate RouterOk(edges: seq<Edge<Id>>, n: Node) {
    n.body.kind.Router? ==>
      && n.body.outputSchema == Some("RoutingDecision")
      && (forall e | e in edges && e.from == n.id :: !Missing(Branch(e)))
      && |Branches(edges, n.id)| >= 2
  }

  predicate RoutersOk(g: TaskGraph) {
    forall n | n in g.nodes :: RouterOk(g.edges, n)
  }

  method RouterIssues(edges: seq<Edge<Id>>, n: Node) returns (issues: seq<Issue>)
    requires n.body.kind.Router?
    ensures issues == [] <==> RouterOk(edges, n)
  {
    issues := [];
    if n.body.outputSchema != Some("RoutingDecision") {
      issues := [Issue("ROUTER_SCHEMA", Some(n.body.name))];
    }
    ghost var typed := issues == [];
    var branches := {};
    for i := 0 to |edges|
      invariant issues == [] <==>
        typed && forall j :: 0 <= j < i && edges[j].from == n.id ==> !Missing(Branch(edges[j]))
      invariant branches == Branches(edges[..i], n.id)
    {
      var e := edges[i];
      assert edges[..i + 1] == edges[..i] + [e];
      if e.from == n.id {
        if Missing(Branch(e)) {
          issues := issues + [Issue("ROUTER_UNLABELLED_BRANCH", Some(n.body.name))];
        } else {
          branches := branches + {Branch(e).value};
        }
      }
    }
    assert edges[..|edges|] == edges;
    if |branches| < 2 {
      issues := issues + [Issue("ROUTER_SINGLE_BRANCH", Some(n.body.name))];
    }
  }

  method ValidateRouterNodes(g: TaskGraph) returns (issues: seq<Issue>)
    ensures issues == [] <==> RoutersOk(g)
  {
    issues := [];
    for i := 0 to |g.nodes|
      invariant issues == [] <==> forall j :: 0 <= j < i ==> RouterOk(g.edges, g.nodes[j])
    {
      if g.nodes[i].body.kind.Router? {
        var found := RouterIssues(g.edges, g.nodes[i]);
        issues := issues + found;
      }
    }
  }

  // ----- terminal node, cycles, and checks of single nodes -----

  predicate HasTerminal(g: TaskGraph) {
    exists n | n in g.nodes :: n.body.kind.Final?
  }

  predicate Supported(kind: NodeKind) {
    !kind.MemoryQuery? && !kind.Goal? && !kind.Observation?
  }

  /** A body without what differs between the dry run and the real one. */
  function WithoutPrompt(body: NodeBody): NodeBody {
    body.(metadata := body.metadata - {"prompt"})
  }

  /** The schema, tool, model and budget checks look at one node at a time; they
      read neither its identifier nor the user's prompt. */
  predicate NodesOk(local: NodeBody -> bool, g: TaskGraph) {
    forall n | n in g.nodes :: Supported(n.body.kind) && local(WithoutPrompt(n.body))
  }

  ghost predicate IsValid(registry: Registry, local: NodeBody -> bool, g: TaskGraph) {
    && EdgesCompatible(registry, g) && NodesOk(local, g) && PortsSatisfied(g)
    && HasTerminal(g) && Acyclicity.Acyclic(g.edges) && RoutersOk(g)
  }

  /** All validators on one graph, as the compiler calls them. */
  method ValidateGraph(registry: Registry, local: NodeBody -> bool, g: TaskGraph) returns (issues: seq<Issue>)
    ensures issues == [] <==> IsValid(registry, local, g)
  {
    issues := ValidateEdgeCompatibility(registry, g);
    if !NodesOk(local, g) {
      issues := issues + [Issue("NODE", None)];
    }
    var ports := ValidateRequiredPorts(g);
    issues := issues + ports;
    if !HasTerminal(g) {
      issues := issues + [Issue("NO_TERMINAL_NODE", None)];
    }
    var acyclic := Acyclicity.ValidateAcyclic(seq(|g.nodes|, i requires 0 <= i < |g.nodes| => g.nodes[i].id), g.edges);
    if !acyclic {
      issues := issues + [Issue("ILLEGAL_CYCLE", None)];
    }
    var routers := ValidateRouterNodes(g);
    issues := issues + routers;
  }
}
