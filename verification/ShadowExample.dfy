/** Two nodes of one name: a proposal the compiler approves and persists as a
    graph its own validators reject. */
module ShadowExample {
  import opened TaskGraphs
  import opened Acyclicity
  import opened Transforms
  import opened Expansion
  import opened Validation
  import opened Wiring
  import opened Compilation
  import opened Persistence

  function Body(name: string, kind: NodeKind, input: Option<string>, output: Option<string>,
                ports: seq<Port>): NodeBody {
    NodeBody(name, kind, input, output, ports, map[], None, map[], None)
  }

  const ASK := Body("ask", Intent, None, Some("RawText"), [])
  const THINK := Body("think", Model, Some("RawText"), Some("Summary"), [])
  const REPLY := Body("reply", Final, Some("Summary"), Some("FinalAnswer"), [])

  /** The planner repeated a node; the edges go by name. */
  const TWICE := Proposal([ASK, THINK, THINK, REPLY], [PlainEdge("ask", "think"), PlainEdge("think", "reply")])

  /** The catalog keeps the two schema names these nodes use. */
  ghost predicate KeepsNames(c: Catalog) {
    c.clean("RawText") == Some("RawText") && c.clean("Summary") == Some("Summary")
  }

  /** The checks of single nodes have nothing against these. */
  ghost predicate Accepts(local: NodeBody -> bool, bodies: seq<NodeBody>) {
    forall b :: b in bodies ==> local(WithoutPrompt(b))
  }

  lemma FirstNodes()
    ensures FirstOf(TWICE.nodes, Intent) == Some(ASK) && FirstOf(TWICE.nodes, Final) == Some(REPLY)
  {
    assert TWICE.nodes[1..][1..][1..][0] == REPLY;
  }

  lemma NothingToRecover(c: Catalog)
    ensures Recovered(c, TWICE.nodes) == TWICE.nodes
  {}

  lemma NothingToComplete(c: Catalog)
    ensures Completed(c, TWICE) == TWICE
  {
    hide Recovered, FirstOf;
    NothingToRecover(c);
    FirstNodes();
  }

  lemma NothingToConnect()
    ensures Canonical(TWICE.nodes, TWICE.edges) == TWICE.edges
  {
    hide FirstOf, Feeds, LastSink;
    FirstNodes();
    assert TWICE.edges[0].to == "think" && TWICE.edges[1].to == "reply";
    assert THINK in TWICE.nodes;
    NothingToFeed("ask", TWICE.nodes, TWICE.edges);
    assert TWICE.edges + [] == TWICE.edges;
  }

  function InputPort(schema: string): Port {
    Port("input", "input", schema, true)
  }

  function OutputPort(schema: string): Port {
    Port("output", "output", schema, true)
  }

  function Named(body: NodeBody, ports: seq<Port>): Node {
    Node(NamedId(body.name), body.(ports := ports, metadata := map["proposal_name" := body.name]))
  }

  const ASK_NODE := Named(ASK, [OutputPort("RawText")])
  const THINK_NODE := Named(THINK, [InputPort("RawText"), OutputPort("Summary")])
  const REPLY_NODE := Named(REPLY, [InputPort("Summary"), OutputPort("FinalAnswer")])
  const DRY_NODES := [ASK_NODE, THINK_NODE, THINK_NODE, REPLY_NODE]

  lemma CanonicalBodies(c: Catalog)
    requires KeepsNames(c)
    ensures CanonicalBody(c, ASK) == ASK_NODE.body
    ensures CanonicalBody(c, THINK) == THINK_NODE.body
    ensures CanonicalBody(c, REPLY) == REPLY_NODE.body
  {
    assert c.clean("RawText") == Some("RawText") && c.clean("Summary") == Some("Summary");
  }

  lemma DryNodes(c: Catalog)
    requires KeepsNames(c)
    ensures Nodes(c, TWICE.nodes, None, true, 0) == DRY_NODES
  {
    hide CanonicalBody;
    CanonicalBodies(c);
    NodesAre(c, TWICE.nodes, None, true, 0);
  }

  function DryEdge(from: string, to: string): Edge<Id> {
    Reattach(PlainEdge(from, to), NamedId(from), NamedId(to))
  }

  const DRY_GRAPH := TaskGraph(DRY_NODES, [DryEdge("ask", "think"), DryEdge("think", "reply")])

  lemma DryNames()
    ensures NamesOf(DRY_NODES) == map["ask" := NamedId("ask"), "think" := NamedId("think"), "reply" := NamedId("reply")]
  {
    assert DRY_NODES[..3] == [ASK_NODE, THINK_NODE, THINK_NODE];
    assert DRY_NODES[..3][..2] == [ASK_NODE, THINK_NODE];
    assert [ASK_NODE, THINK_NODE][..1] == [ASK_NODE];
    assert NamesOf([]) == map[];
    assert NamesOf([ASK_NODE]) == map["ask" := NamedId("ask")];
    assert NamesOf([ASK_NODE, THINK_NODE]) == map["ask" := NamedId("ask"), "think" := NamedId("think")];
  }

  lemma DryEdges()
    ensures Wired(DRY_NODES, TWICE.edges) == DRY_GRAPH
  {
    DryNames();
    assert TWICE.edges[..1] == [PlainEdge("ask", "think")];
    assert EdgesFor(NamesOf(DRY_NODES), [PlainEdge("ask", "think")]) == [DryEdge("ask", "think")] by {
      assert [PlainEdge("ask", "think")][..0] == [];
    }
  }

  lemma DryLookups()
    ensures Lookup(DRY_NODES, NamedId("ask")) == Some(ASK_NODE)
    ensures Lookup(DRY_NODES, NamedId("think")) == Some(THINK_NODE)
    ensures Lookup(DRY_NODES, NamedId("reply")) == Some(REPLY_NODE)
  {
    assert DRY_NODES[..3] == [ASK_NODE, THINK_NODE, THINK_NODE];
    assert DRY_NODES[..3][..2] == [ASK_NODE, THINK_NODE];
    assert [ASK_NODE, THINK_NODE][..1] == [ASK_NODE];
  }

  lemma DryNodeIsFed(n: Node)
    requires n in DRY_NODES
    ensures NodeIsFed(DRY_GRAPH.edges, n)
  {
    assert DRY_GRAPH.edges[0].to == NamedId("think") && DRY_GRAPH.edges[1].to == NamedId("reply");
    assert ReachesPort(DRY_GRAPH.edges, NamedId("think"), "input");
    assert ReachesPort(DRY_GRAPH.edges, NamedId("reply"), "input");
  }

  lemma DryEdgeFits(registry: Registry, e: Edge<Id>)
    requires e in DRY_GRAPH.edges
    ensures EdgeFits(DRY_NODES, e) && EdgeCompatible(registry, DRY_NODES, e)
  {
    hide Lookup;
    DryLookups();
    if e.from == NamedId("ask") {
      DryPortSchemas(ASK_NODE, THINK_NODE);
    } else {
      DryPortSchemas(THINK_NODE, REPLY_NODE);
    }
  }

  lemma DryPortSchemas(src: Node, dst: Node)
    requires (src == ASK_NODE && dst == THINK_NODE) || (src == THINK_NODE && dst == REPLY_NODE)
    ensures !Missing(PortSchema(src.body.ports, "output", "output"))
    ensures PortSchema(src.body.ports, "output", "output") == PortSchema(dst.body.ports, "input", "input")
  {}

  lemma DryIsAcyclic()
    ensures Acyclic(DRY_GRAPH.edges)
  {
    RankedIsAcyclic(DRY_GRAPH.edges,
                    (id: Id) => if id == NamedId("ask") then 0 else if id == NamedId("think") then 1 else 2);
  }

  const CHAIN_BODIES := [ASK_NODE.body, THINK_NODE.body, REPLY_NODE.body]

  lemma DryNodesAreOk(local: NodeBody -> bool)
    requires Accepts(local, CHAIN_BODIES)
    ensures NodesOk(local, DRY_GRAPH) && HasTerminal(DRY_GRAPH) && RoutersOk(DRY_GRAPH)
  {
    assert DRY_NODES[3] == REPLY_NODE && REPLY_NODE in DRY_GRAPH.nodes;
    assert ASK_NODE.body in CHAIN_BODIES && THINK_NODE.body in CHAIN_BODIES && REPLY_NODE.body in CHAIN_BODIES;
  }

  lemma DryIsValid(registry: Registry, local: NodeBody -> bool)
    requires Accepts(local, CHAIN_BODIES)
    ensures IsValid(registry, local, DRY_GRAPH)
  {
    hide NodeIsFed, EdgeFits, EdgeCompatible, NodesOk, HasTerminal, RoutersOk, Acyclic;
    forall n | n in DRY_GRAPH.nodes ensures NodeIsFed(DRY_GRAPH.edges, n) {
      DryNodeIsFed(n);
    }
    forall e | e in DRY_GRAPH.edges ensures EdgeFits(DRY_NODES, e) && EdgeCompatible(registry, DRY_NODES, e) {
      DryEdgeFits(registry, e);
    }
    DryIsAcyclic();
    DryNodesAreOk(local);
  }

  /** Approved, and yet what is persisted fails validation: the first of the two
      nodes gets no edge. */
  lemma ApprovedButPersistedInvalid(c: Catalog, registry: Registry, local: NodeBody -> bool, prompt: string,
                                    nextId: nat)
    requires KeepsNames(c) && Accepts(local, CHAIN_BODIES)
    ensures Approved(c, registry, local, TWICE)
    ensures !IsValid(registry, local, Normalized(c, TWICE, prompt, false, nextId))
  {
    hide IsValid, CanonicalBody, Nodes;
    NothingToComplete(c);
    NothingToConnect();
    DryNodes(c);
    DryEdges();
    DryIsValid(registry, local);
    NoPromptInjected(c);
    CanonicalBodies(c);
    PersistedIsValidExactly(c, registry, local, TWICE, prompt, nextId);
    assert ShadowedAt(TWICE.nodes, 1) by {
      assert TWICE.nodes[2].name == TWICE.nodes[1].name;
    }
  }

  lemma NoPromptInjected(c: Catalog)
    ensures InjectedPrompt(c, TWICE, "") == None
    ensures forall i :: 0 <= i < |TWICE.nodes| ==> PortsDirected(TWICE.nodes[i])
  {
    assert Recovered(c, TWICE.nodes) == TWICE.nodes;
    assert FirstOf(TWICE.nodes, Intent) == Some(ASK);
  }
}
