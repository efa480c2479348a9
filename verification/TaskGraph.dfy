/** The data model shared by the compiler and the runtime: task graphs, their
    nodes and edges, and the values that flow along the edges.

    Node and edge records are split into what does not depend on an identifier
    (`NodeBody`, also the planner's node declaration) and the identifier itself,
    so that the planner's graph over names and the persisted graph over
    identifiers are instances of the same types. */
module TaskGraphs {

  datatype Option<+T> = None | Some(value: T)

  /** The dry run names a node after its proposal name; every other identifier
      comes from a generator that never repeats itself. */
  datatype Id = NamedId(name: string) | FreshId(number: nat)

  datatype NodeKind =
    | Intent | Tool | Model | MemoryQuery | Compress
    | Router | Expand | Goal | Observation | Final

  datatype Port = Port(name: string, direction: string, schemaRef: string, required: bool)

  datatype NodeBody = NodeBody(
    name: string,
    kind: NodeKind,
    inputSchema: Option<string>,
    outputSchema: Option<string>,
    ports: seq<Port>,
    execution: map<string, string>,
    allowCache: Option<bool>,
    metadata: map<string, string>,
    expansion: Option<ExpansionRequest>)

  /** A dataflow edge between endpoints of type I: names in a proposal,
      identifiers in a persisted graph. */
  datatype Edge<+I> = Edge(
    from: I,
    fromPort: string,
    to: I,
    toPort: string,
    transform: Option<string>,
    required: bool,
    metadata: map<string, string>)

  type ProposalEdge = Edge<string>

  datatype ExpansionRequest = ExpansionRequest(
    reason: string,
    nodes: seq<NodeBody>,
    edges: seq<ProposalEdge>)

  datatype Node = Node(id: Id, body: NodeBody)

  datatype TaskGraph = TaskGraph(nodes: seq<Node>, edges: seq<Edge<Id>>)

  /** Contents of a JSON record, every field in its serialised form. */
  type Content = map<string, string>

  datatype Value = Value(schema: string, content: Content)

  function Field(m: map<string, string>, key: string): Option<string> {
    if key in m then Some(m[key]) else None
  }

  function Branch<I>(e: Edge<I>): Option<string> {
    Field(e.metadata, "branch")
  }

  /** An edge as the compiler synthesises it: default ports, nothing else. */
  function PlainEdge(from: string, to: string): ProposalEdge {
    Edge(from, "output", to, "input", None, true, map[])
  }

  /** The same edge between other endpoints. */
  function Reattach<I, J>(e: Edge<I>, from: J, to: J): Edge<J> {
    Edge(from, e.fromPort, to, e.toPort, e.transform, e.required, e.metadata)
  }

  /** Dictionary lookup in `{node.id: node for node in nodes}`: the last node
      with the identifier wins. */
  function Lookup(nodes: seq<Node>, id: Id): (r: Option<Node>)
    ensures r.None? <==> forall n :: n in nodes ==> n.id != id
    ensures r.Some? ==> r.value in nodes && r.value.id == id
  {
    if nodes == [] then None
    else if nodes[|nodes| - 1].id == id then Some(nodes[|nodes| - 1])
    else Lookup(nodes[..|nodes| - 1], id)
  }

  ghost predicate DistinctIds(nodes: seq<Node>) {
    forall i, j :: 0 <= i < j < |nodes| ==> nodes[i].id != nodes[j].id
  }

  lemma {:induction false} LookupDistinct(nodes: seq<Node>, n: Node)
    requires DistinctIds(nodes) && n in nodes
    ensures Lookup(nodes, n.id) == Some(n)
  {
    var last := |nodes| - 1;
    if nodes[last].id != n.id {
      assert n in nodes[..last];
      LookupDistinct(nodes[..last], n);
    } else {
      var i :| 0 <= i < |nodes| && nodes[i] == n;
    }
  }

  /** The first port with the given name and direction decides. */
  function PortSchema(ports: seq<Port>, name: string, direction: string): Option<string> {
    if ports == [] then None
    else if ports[0].name == name && ports[0].direction == direction then Some(ports[0].schemaRef)
    else PortSchema(ports[1..], name, direction)
  }

  /** The preferred port name for a node's artifacts. */
  function OutputPortName(ports: seq<Port>): string {
    if ports == [] then "output"
    else if ports[0].direction == "output" then ports[0].name
    else OutputPortName(ports[1..])
  }
}
