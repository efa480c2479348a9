/** Three bare nodes and no edges at all: a proposal that meets the hypotheses of
    the compiler's and the run's theorems, all at once. */
module ChainExample {
  import opened TaskGraphs
  import opened Transforms
  import opened Expansion
  import opened Validation
  import opened Wiring
  import opened Compilation
  import opened Persistence
  import opened SparseProposals
  import opened ShadowExample
  import opened Execution
  import opened Executors
  import opened Pruning
  import opened Completion
  import opened Denotation
  import opened EndToEnd

  const BARE := Proposal([ASK, THINK, REPLY], [])

  lemma FirstOfBare()
    ensures FirstOf(BARE.nodes, Intent) == Some(ASK) && FirstOf(BARE.nodes, Final) == Some(REPLY)
  {
    assert BARE.nodes[1..][1..][0] == REPLY;
  }

  lemma BareIsComplete(c: Catalog)
    ensures Completed(c, BARE) == BARE && InjectedPrompt(c, BARE, "") == None
  {
    hide FirstOf;
    FirstOfBare();
    assert Recovered(c, BARE.nodes) == BARE.nodes;
  }

  const CHAIN := [PlainEdge("ask", "think"), PlainEdge("think", "reply")]

  lemma BareIsFed()
    ensures Feeds("ask", BARE.nodes, []) == [PlainEdge("ask", "think")]
    ensures LastSink(BARE.nodes, [PlainEdge("ask", "think")]) == Some(THINK)
  {
    assert BARE.nodes[..2] == [ASK, THINK] && [ASK, THINK][..1] == [ASK];
    assert Feeds("ask", [ASK], []) == [];
    assert Feeds("ask", [ASK, THINK], []) == [PlainEdge("ask", "think")];
  }

  lemma BareIsWired()
    ensures Canonical(BARE.nodes, []) == CHAIN
  {
    hide FirstOf, Feeds, LastSink;
    FirstOfBare();
    BareIsFed();
    assert THINK in BARE.nodes && IsProcessing(THINK);
    assert [] + [PlainEdge("ask", "think")] == [PlainEdge("ask", "think")];
  }

  lemma BareIsShaped()
    ensures WellShaped(BARE.nodes, [], ASK, REPLY, (_: string) => 0)
  {
    assert THINK in BARE.nodes && IsProcessing(THINK);
  }

  lemma BareNodes(c: Catalog)
    requires KeepsNames(c)
    ensures Nodes(c, BARE.nodes, None, true, 0) == [ASK_NODE, THINK_NODE, REPLY_NODE]
  {
    hide CanonicalBody;
    CanonicalBodies(c);
    NodesAre(c, BARE.nodes, None, true, 0);
  }

  lemma BareNames()
    ensures var names := NamesOf([ASK_NODE, THINK_NODE, REPLY_NODE]);
      names == map["ask" := NamedId("ask"), "think" := NamedId("think"), "reply" := NamedId("reply")]
  {
    assert [ASK_NODE, THINK_NODE, REPLY_NODE][..2] == [ASK_NODE, THINK_NODE];
    assert [ASK_NODE, THINK_NODE][..1] == [ASK_NODE];
    assert NamesOf([ASK_NODE]) == map["ask" := NamedId("ask")];
  }

  lemma BareLookups()
    ensures var nodes := [ASK_NODE, THINK_NODE, REPLY_NODE];
      && Lookup(nodes, NamedId("ask")) == Some(ASK_NODE)
      && Lookup(nodes, NamedId("think")) == Some(THINK_NODE)
      && Lookup(nodes, NamedId("reply")) == Some(REPLY_NODE)
  {
    assert [ASK_NODE, THINK_NODE, REPLY_NODE][..2] == [ASK_NODE, THINK_NODE];
    assert [ASK_NODE, THINK_NODE][..1] == [ASK_NODE];
  }

  lemma EqualPortsFit(registry: Registry, nodes: seq<Node>, e: Edge<Id>, src: Node, dst: Node)
    requires Lookup(nodes, e.from) == Some(src) && Lookup(nodes, e.to) == Some(dst) && e.transform.None?
    requires !Missing(PortSchema(src.body.ports, e.fromPort, "output"))
    requires PortSchema(src.body.ports, e.fromPort, "output") == PortSchema(dst.body.ports, e.toPort, "input")
    ensures EdgeCompatible(registry, nodes, e)
  {}

  lemma ChainFits(registry: Registry, e: Edge<Id>)
    requires e in Wired([ASK_NODE, THINK_NODE, REPLY_NODE], CHAIN).edges
    ensures EdgeCompatible(registry, [ASK_NODE, THINK_NODE, REPLY_NODE], e)
  {
    hide Lookup, NamesOf, EdgesFor, EdgeCompatible, PortSchema;
    var nodes := [ASK_NODE, THINK_NODE, REPLY_NODE];
    BareNames();
    BareLookups();
    EdgesForMembers(NamesOf(nodes), CHAIN, e);
    var p :| p in CHAIN && Wires(NamesOf(nodes), p, e);
    if p == CHAIN[0] {
      DryPortSchemas(ASK_NODE, THINK_NODE);
      EqualPortsFit(registry, nodes, e, ASK_NODE, THINK_NODE);
    } else {
      DryPortSchemas(THINK_NODE, REPLY_NODE);
      EqualPortsFit(registry, nodes, e, THINK_NODE, REPLY_NODE);
    }
  }

  lemma ChainIsTyped(registry: Registry, local: NodeBody -> bool)
    requires Accepts(local, CHAIN_BODIES)
    ensures var g := Wired([ASK_NODE, THINK_NODE, REPLY_NODE], CHAIN);
      EdgesCompatible(registry, g) && NodesOk(local, g)
  {
    hide EdgeCompatible, NamesOf, EdgesFor;
    assert ASK_NODE.body in CHAIN_BODIES && THINK_NODE.body in CHAIN_BODIES && REPLY_NODE.body in CHAIN_BODIES;
    forall e | e in Wired([ASK_NODE, THINK_NODE, REPLY_NODE], CHAIN).edges
      ensures EdgeCompatible(registry, [ASK_NODE, THINK_NODE, REPLY_NODE], e)
    {
      ChainFits(registry, e);
    }
  }

  lemma BareGraph(c: Catalog)
    requires KeepsNames(c)
    ensures Normalized(c, BARE, "", true, 0) == Wired([ASK_NODE, THINK_NODE, REPLY_NODE], CHAIN)
  {
    hide Completed, Canonical, Nodes, Wired, InjectedPrompt;
    BareIsComplete(c);
    BareIsWired();
    BareNodes(c);
  }

  lemma BareIsPlain(c: Catalog)
    ensures PlainlyDeclared(c, BARE) && DistinctNames(c, BARE)
    ensures forall i :: 0 <= i < |Completed(c, BARE).nodes| ==> PortsDirected(Completed(c, BARE).nodes[i])
    ensures WellShaped(Completed(c, BARE).nodes, Completed(c, BARE).edges, ASK, REPLY, (_: string) => 0)
  {
    hide Completed;
    BareIsComplete(c);
    BareIsShaped();
  }

  /** The dry run passes every validator. */
  lemma BareIsApproved(c: Catalog, registry: Registry, local: NodeBody -> bool)
    requires Accepts(local, CHAIN_BODIES) && KeepsNames(c) && ToolsDeclareSchemas(c)
    ensures Approved(c, registry, local, BARE) && DistinctNames(c, BARE)
  {
    hide IsValid, Completed, Normalized, EdgesCompatible, NodesOk, WellShaped, PlainlyDeclared, PortsDirected;
    BareIsPlain(c);
    SparseProposalIsWired(c, registry, local, BARE, "", true, 0, ASK, REPLY, _ => 0);
    BareGraph(c);
    ChainIsTyped(registry, local);
  }

  lemma BareDoesNotGrow(c: Catalog, prompt: string, nextId: nat)
    ensures ExpandFree(Normalized(c, BARE, prompt, false, nextId).nodes)
  {
    hide Completed, Canonical, CanonicalFields, DeclaredPorts, WithDefaultPort, EdgesFor, NamesOf;
    BareIsComplete(c);
    NodesAre(c, BARE.nodes, InjectedPrompt(c, BARE, prompt), false, nextId);
  }

  /** Compiled and persisted, it starts runs of which every whole-run theorem
      holds, whatever the handlers, the prompt and the identifiers. */
  lemma BareRuns(c: Catalog, env: Env, local: NodeBody -> bool, prompt: string, nextId: nat) returns (rank: Id -> nat)
    requires Accepts(local, CHAIN_BODIES) && KeepsNames(c) && ToolsDeclareSchemas(c)
    ensures var vm := Prepared(Loaded(Normalized(c, BARE, prompt, false, nextId), nextId + NodeCount(c, BARE)));
      Accepted(vm, rank) && Cold(vm) && !RunFrom(env, vm).1.Stalled?
  {
    hide Normalized, Approved, Completed, ExpandFree, RunFrom;
    BareIsApproved(c, env.registry, local);
    BareDoesNotGrow(c, prompt, nextId);
    rank := CompiledGraphIsAccepted(c, env.registry, local, BARE, prompt, nextId);
    NeverStalls(env, Prepared(Loaded(Normalized(c, BARE, prompt, false, nextId), nextId + NodeCount(c, BARE))), rank);
  }
}
