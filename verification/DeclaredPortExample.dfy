/** A planner may declare a port of another schema than its node's: the graph is
    approved and valid, has no transform, and delivers the wrong type. */
module DeclaredPortExample {
  import opened TaskGraphs
  import opened Acyclicity
  import opened Transforms
  import opened Expansion
  import opened Execution
  import opened Validation
  import opened Wiring
  import opened Typing
  import opened Compilation
  import opened Persistence
  import opened ShadowExample

  /** An intent always produces RawText; this one announces a Summary. */
  const BOAST := ASK.(ports := [Port("output", "output", "Summary", true)])
  const BOASTING := Proposal([BOAST, REPLY], [PlainEdge("ask", "reply")])

  const BOAST_BODY := BOAST.(metadata := map["proposal_name" := "ask"])
  const REPLY_BODY := REPLY_NODE.body

  function Boasted(a: Id, b: Id): TaskGraph {
    TaskGraph([Node(a, BOAST_BODY), Node(b, REPLY_BODY)], [Reattach(PlainEdge("ask", "reply"), a, b)])
  }

  // ----- what normalisation makes of it -----

  lemma BoastingIsComplete(c: Catalog)
    ensures Completed(c, BOASTING) == BOASTING
    ensures forall prompt :: InjectedPrompt(c, BOASTING, prompt) == None
  {
    assert Recovered(c, BOASTING.nodes) == BOASTING.nodes;
    assert BOASTING.nodes[1..][0] == REPLY;
  }

  lemma BoastingIsLeftAlone()
    ensures Canonical(BOASTING.nodes, BOASTING.edges) == BOASTING.edges
  {}

  lemma BoastingBodies(c: Catalog)
    requires KeepsNames(c)
    ensures CanonicalBody(c, BOAST) == BOAST_BODY && CanonicalBody(c, REPLY) == REPLY_BODY
  {
    hide CanonicalFields;
    CanonicalBodies(c);
    BoastFields(c);
    var declared := BOAST.ports[0];
    assert c.clean("Summary") == Some("Summary");
    assert BOAST.ports[..0] == [] && DeclaredPorts(c, [], None, Some("RawText")) == [];
    assert DeclaredPorts(c, BOAST.ports, None, Some("RawText")) == [declared];
  }

  lemma BoastFields(c: Catalog)
    ensures CanonicalFields(c, BOAST) == (None, Some("RawText"), map[])
  {}

  lemma BoastingNodes(c: Catalog, dryRun: bool, nextId: nat)
    requires KeepsNames(c)
    ensures Nodes(c, BOASTING.nodes, None, dryRun, nextId)
         == Boasted(IdAt(dryRun, nextId, 0, "ask"), IdAt(dryRun, nextId, 1, "reply")).nodes
  {
    hide CanonicalBody;
    BoastingBodies(c);
    NodesAre(c, BOASTING.nodes, None, dryRun, nextId);
  }

  lemma BoastedIsWired(a: Id, b: Id)
    requires a != b
    ensures Wired(Boasted(a, b).nodes, BOASTING.edges) == Boasted(a, b)
  {
    var first, both := [Node(a, BOAST_BODY)], Boasted(a, b).nodes;
    assert both[..1] == first && first[..0] == [];
    assert NamesOf(first) == map["ask" := a];
    assert NamesOf(both) == map["ask" := a, "reply" := b];
    assert BOASTING.edges[..0] == [] && EdgesFor(NamesOf(both), []) == [];
    assert EdgesFor(NamesOf(both), BOASTING.edges) == [Reattach(PlainEdge("ask", "reply"), a, b)];
  }

  lemma BoastedGraph(c: Catalog, prompt: string, dryRun: bool, nextId: nat)
    requires KeepsNames(c)
    ensures Normalized(c, BOASTING, prompt, dryRun, nextId)
         == Boasted(IdAt(dryRun, nextId, 0, "ask"), IdAt(dryRun, nextId, 1, "reply"))
  {
    hide Completed, Canonical, Nodes, Wired, InjectedPrompt;
    BoastingIsComplete(c);
    BoastingIsLeftAlone();
    BoastingNodes(c, dryRun, nextId);
    BoastedIsWired(IdAt(dryRun, nextId, 0, "ask"), IdAt(dryRun, nextId, 1, "reply"));
  }

  // ----- it is valid -----

  lemma BoastedLookups(a: Id, b: Id)
    requires a != b
    ensures Lookup(Boasted(a, b).nodes, a) == Some(Node(a, BOAST_BODY))
    ensures Lookup(Boasted(a, b).nodes, b) == Some(Node(b, REPLY_BODY))
  {
    assert Boasted(a, b).nodes[..1] == [Node(a, BOAST_BODY)];
  }

  lemma BoastedPorts()
    ensures PortSchema(BOAST_BODY.ports, "output", "output") == Some("Summary")
    ensures PortSchema(REPLY_BODY.ports, "input", "input") == Some("Summary")
  {}

  lemma BoastedEdgeFits(registry: Registry, a: Id, b: Id)
    requires a != b
    ensures var g := Boasted(a, b); EdgeFits(g.nodes, g.edges[0]) && EdgeCompatible(registry, g.nodes, g.edges[0])
  {
    hide Lookup, PortSchema;
    BoastedLookups(a, b);
    BoastedPorts();
  }

  lemma BoastedIsFed(a: Id, b: Id)
    requires a != b
    ensures var g := Boasted(a, b); NodeIsFed(g.edges, g.nodes[0]) && NodeIsFed(g.edges, g.nodes[1])
  {
    var g := Boasted(a, b);
    assert g.edges[0].to == b && g.edges[0] in g.edges;
    assert ReachesPort(g.edges, b, "input") && Reaches(g.edges, b);
  }

  lemma BoastedIsValid(registry: Registry, local: NodeBody -> bool, a: Id, b: Id)
    requires a != b && Accepts(local, [BOAST_BODY, REPLY_BODY])
    ensures IsValid(registry, local, Boasted(a, b))
  {
    hide NodeIsFed, EdgeFits, EdgeCompatible, Acyclic;
    var g := Boasted(a, b);
    BoastedIsFed(a, b);
    BoastedEdgeFits(registry, a, b);
    RankedIsAcyclic(g.edges, (id: Id) => if id == a then 0 else 1);
    assert g.nodes[1] in g.nodes;
    assert BOAST_BODY in [BOAST_BODY, REPLY_BODY] && REPLY_BODY in [BOAST_BODY, REPLY_BODY];
  }

  /** Approved and valid once persisted, without any transform; yet whatever is
      delivered to the Summary port is a RawText. */
  lemma DeclaredPortIsNotKept(c: Catalog, env: Env, local: NodeBody -> bool, prompt: string, nextId: nat,
                              content: Content)
    requires KeepsNames(c) && Accepts(local, [BOAST_BODY, REPLY_BODY])
    ensures Approved(c, env.registry, local, BOASTING)
    ensures var g := Normalized(c, BOASTING, prompt, false, nextId);
      && IsValid(env.registry, local, g) && |g.edges| == 1 && g.edges[0].transform.None?
      && PortType(g.nodes, g.edges[0]) == Some("Summary")
      && var delivered := Deliver(env, ReadSchema(g.nodes, g.edges[0].from), g.edges[0], content);
         delivered.Ok? ==> delivered.value.schema == "RawText"
  {
    hide IsValid, Completed, Normalized, Lookup, PortSchema;
    BoastingIsComplete(c);
    BoastedGraph(c, "", true, 0);
    BoastedGraph(c, prompt, false, nextId);
    BoastedIsValid(env.registry, local, NamedId("ask"), NamedId("reply"));
    BoastedIsValid(env.registry, local, FreshId(nextId), FreshId(nextId + 1));
    BoastedLookups(FreshId(nextId), FreshId(nextId + 1));
    BoastedPorts();
  }
}
