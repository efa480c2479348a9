/** A planner may put a transform between equal schemas: the graph is approved
    and valid, and the transform changes the type of what it delivers. */
module RetypingExample {
  import opened TaskGraphs
  import opened Acyclicity
  import opened Transforms
  import opened Expansion
  import opened Execution
  import opened Validation
  import opened Wiring
  import opened Typing
  import opened Compilation
  import opened Persistence
  import opened ShadowExample

  const TO_THINK := PlainEdge("ask", "think")
  const AS_JSON := PlainEdge("think", "reply").(transform := Some("to_json_string"))
  const RETYPING := Proposal([ASK, THINK, REPLY], [TO_THINK, AS_JSON])

  function Retyped(a: Id, b: Id, d: Id): TaskGraph {
    TaskGraph([Node(a, ASK_NODE.body), Node(b, THINK_NODE.body), Node(d, REPLY_NODE.body)],
              [Reattach(TO_THINK, a, b), Reattach(AS_JSON, b, d)])
  }

  // ----- what normalisation makes of it -----

  lemma RetypingFirsts()
    ensures FirstOf(RETYPING.nodes, Intent) == Some(ASK) && FirstOf(RETYPING.nodes, Final) == Some(REPLY)
  {
    assert RETYPING.nodes[1..][1..][0] == REPLY;
  }

  lemma RetypingIsComplete(c: Catalog)
    ensures Completed(c, RETYPING) == RETYPING
    ensures forall prompt :: InjectedPrompt(c, RETYPING, prompt) == None
  {
    hide FirstOf;
    RetypingFirsts();
    assert Recovered(c, RETYPING.nodes) == RETYPING.nodes;
  }

  lemma RetypingIsConnected()
    ensures Canonical(RETYPING.nodes, RETYPING.edges) == RETYPING.edges
  {
    hide FirstOf, Feeds, LastSink;
    RetypingFirsts();
    assert RETYPING.edges[0].to == "think" && RETYPING.edges[1].to == "reply";
    NothingToFeed("ask", RETYPING.nodes, RETYPING.edges);
    assert RETYPING.edges + [] == RETYPING.edges;
  }

  lemma RetypingNodes(c: Catalog, dryRun: bool, nextId: nat)
    requires KeepsNames(c)
    ensures Nodes(c, RETYPING.nodes, None, dryRun, nextId)
         == Retyped(IdAt(dryRun, nextId, 0, "ask"), IdAt(dryRun, nextId, 1, "think"),
                    IdAt(dryRun, nextId, 2, "reply")).nodes
  {
    hide CanonicalBody;
    CanonicalBodies(c);
    NodesAre(c, RETYPING.nodes, None, dryRun, nextId);
  }

  ghost predicate Distinct(a: Id, b: Id, d: Id) {
    a != b && b != d && a != d
  }

  lemma RetypedNames(a: Id, b: Id, d: Id)
    ensures NamesOf(Retyped(a, b, d).nodes) == map["ask" := a, "think" := b, "reply" := d]
  {
    var all := Retyped(a, b, d).nodes;
    assert all[..2] == [all[0], all[1]] && [all[0], all[1]][..1] == [all[0]];
    assert NamesOf([all[0]]) == map["ask" := a];
    assert NamesOf([all[0], all[1]]) == map["ask" := a, "think" := b];
  }

  lemma RetypedIsWired(a: Id, b: Id, d: Id)
    ensures Wired(Retyped(a, b, d).nodes, RETYPING.edges) == Retyped(a, b, d)
  {
    var names := NamesOf(Retyped(a, b, d).nodes);
    RetypedNames(a, b, d);
    assert RETYPING.edges[..1] == [TO_THINK] && [TO_THINK][..0] == [];
    assert EdgesFor(names, []) == [];
    assert EdgesFor(names, [TO_THINK]) == [Reattach(TO_THINK, a, b)];
  }

  lemma RetypedGraph(c: Catalog, prompt: string, dryRun: bool, nextId: nat)
    requires KeepsNames(c)
    ensures Normalized(c, RETYPING, prompt, dryRun, nextId)
         == Retyped(IdAt(dryRun, nextId, 0, "ask"), IdAt(dryRun, nextId, 1, "think"), IdAt(dryRun, nextId, 2, "reply"))
  {
    hide Completed, Canonical, Nodes, Wired, InjectedPrompt;
    RetypingIsComplete(c);
    RetypingIsConnected();
    RetypingNodes(c, dryRun, nextId);
    RetypedIsWired(IdAt(dryRun, nextId, 0, "ask"), IdAt(dryRun, nextId, 1, "think"), IdAt(dryRun, nextId, 2, "reply"));
  }

  // ----- it is valid -----

  lemma RetypedLookups(a: Id, b: Id, d: Id)
    requires Distinct(a, b, d)
    ensures Lookup(Retyped(a, b, d).nodes, a) == Some(Node(a, ASK_NODE.body))
    ensures Lookup(Retyped(a, b, d).nodes, b) == Some(Node(b, THINK_NODE.body))
    ensures Lookup(Retyped(a, b, d).nodes, d) == Some(Node(d, REPLY_NODE.body))
  {
    var all := Retyped(a, b, d).nodes;
    assert all[..2] == [all[0], all[1]] && [all[0], all[1]][..1] == [all[0]];
  }

  lemma RetypedPorts()
    ensures PortSchema(ASK_NODE.body.ports, "output", "output") == Some("RawText")
    ensures PortSchema(THINK_NODE.body.ports, "input", "input") == Some("RawText")
    ensures PortSchema(THINK_NODE.body.ports, "output", "output") == Some("Summary")
    ensures PortSchema(REPLY_NODE.body.ports, "input", "input") == Some("Summary")
  {}

  lemma RetypedEdgesFit(dump: Content -> string, a: Id, b: Id, d: Id)
    requires Distinct(a, b, d)
    ensures var g := Retyped(a, b, d);
      forall e :: e in g.edges ==> EdgeFits(g.nodes, e) && EdgeCompatible(DefaultRegistry(dump), g.nodes, e)
  {
    hide Lookup, PortSchema;
    RetypedLookups(a, b, d);
    RetypedPorts();
  }

  lemma RetypedIsFed(a: Id, b: Id, d: Id)
    ensures var g := Retyped(a, b, d); forall n :: n in g.nodes ==> NodeIsFed(g.edges, n)
  {
    var g := Retyped(a, b, d);
    assert g.edges[0].to == b && g.edges[1].to == d;
    assert ReachesPort(g.edges, b, "input") && ReachesPort(g.edges, d, "input");
  }

  lemma RetypedIsAcyclic(a: Id, b: Id, d: Id)
    requires Distinct(a, b, d)
    ensures Acyclic(Retyped(a, b, d).edges)
  {
    RankedIsAcyclic(Retyped(a, b, d).edges, (id: Id) => if id == a then 0 else if id == b then 1 else 2);
  }

  lemma RetypedNodesAreOk(local: NodeBody -> bool, a: Id, b: Id, d: Id)
    requires Accepts(local, CHAIN_BODIES)
    ensures var g := Retyped(a, b, d); NodesOk(local, g) && HasTerminal(g) && RoutersOk(g)
  {
    var g := Retyped(a, b, d);
    assert g.nodes[2] in g.nodes;
    assert ASK_NODE.body in CHAIN_BODIES && THINK_NODE.body in CHAIN_BODIES && REPLY_NODE.body in CHAIN_BODIES;
  }

  lemma RetypedIsValid(dump: Content -> string, local: NodeBody -> bool, a: Id, b: Id, d: Id)
    requires Distinct(a, b, d) && Accepts(local, CHAIN_BODIES)
    ensures IsValid(DefaultRegistry(dump), local, Retyped(a, b, d))
  {
    hide NodeIsFed, EdgeFits, EdgeCompatible, Acyclic, NodesOk, HasTerminal, RoutersOk, Accepts;
    RetypedIsFed(a, b, d);
    RetypedEdgesFit(dump, a, b, d);
    RetypedIsAcyclic(a, b, d);
    RetypedNodesAreOk(local, a, b, d);
  }

  /** Approved and valid once persisted, both ends of the last edge declare a
      Summary; yet whatever is delivered to the Summary port is a RawText. */
  lemma TransformOnEqualSchemasRetypes(c: Catalog, env: Env, local: NodeBody -> bool, prompt: string, nextId: nat,
                                       content: Content)
    requires KeepsNames(c) && Accepts(local, CHAIN_BODIES) && env.registry == DefaultRegistry(env.dump)
    ensures Approved(c, env.registry, local, RETYPING)
    ensures var g := Normalized(c, RETYPING, prompt, false, nextId);
      && IsValid(env.registry, local, g) && |g.edges| == 2
      && FromType(g.nodes, g.edges[1]) == Some("Summary") && ReadSchema(g.nodes, g.edges[1].from) == "Summary"
      && PortType(g.nodes, g.edges[1]) == Some("Summary")
      && var delivered := Deliver(env, "Summary", g.edges[1], content);
         && (delivered.Ok? <==> env.validate("Summary", content).Ok?)
         && (delivered.Ok? ==> delivered.value.schema == "RawText")
  {
    hide IsValid, Completed, Normalized, Lookup, PortSchema, Accepts;
    RetypingIsComplete(c);
    RetypedGraph(c, "", true, 0);
    RetypedGraph(c, prompt, false, nextId);
    RetypedIsValid(env.dump, local, NamedId("ask"), NamedId("think"), NamedId("reply"));
    RetypedIsValid(env.dump, local, FreshId(nextId), FreshId(nextId + 1), FreshId(nextId + 2));
    RetypedLookups(FreshId(nextId), FreshId(nextId + 1), FreshId(nextId + 2));
    RetypedPorts();
  }
}
