/** What a planner may leave out: for a proposal without ports and with as few
    edges as it likes, normalisation adds ports and edges that satisfy every
    structural validator, so approval comes down to types and single nodes. */
module SparseProposals {
  import opened TaskGraphs
  import opened Acyclicity
  import opened Transforms
  import opened Expansion
  import opened Validation
  import opened Wiring
  import opened Compilation
  import opened Persistence

  /** A default edge can leave the node and, unless it is an intent, reach it;
      nothing else about it needs feeding. */
  ghost predicate Pluggable(body: NodeBody) {
    && HasPort(body.ports, "output", "output")
    && (!body.kind.Intent? ==> HasPort(body.ports, "input", "input"))
    && forall p :: p in body.ports && MustBeFed(p) ==> p.name == "input"
  }

  /** Registered tools declare both their schemas. */
  ghost predicate ToolsDeclareSchemas(c: Catalog) {
    forall tool :: c.hasTool(tool) ==> c.toolSchemas(tool).0 != "" && c.toolSchemas(tool).1 != ""
  }

  ghost predicate HasItsTool(c: Catalog, n: NodeBody) {
    n.kind.Tool? ==> !Missing(ToolOf(c, n)) && c.hasTool(ToolOf(c, n).value)
  }

  predicate Connects(kind: NodeKind) {
    kind.Intent? || kind.Final? || kind.Tool? || kind.Model? || kind.Compress?
  }

  lemma SchemasOfConnected(c: Catalog, n: NodeBody)
    requires Connects(n.kind) && HasItsTool(c, n) && ToolsDeclareSchemas(c)
    ensures var fields := CanonicalFields(c, n);
      !Missing(fields.1) && (if n.kind.Intent? then fields.0.None? else !Missing(fields.0))
  {}

  lemma DefaultPorts(input: Option<string>, output: Option<string>)
    requires !Missing(output)
    ensures var ports := WithDefaultPort(WithDefaultPort([], "input", input), "output", output);
      && HasPort(ports, "output", "output")
      && (!Missing(input) ==> HasPort(ports, "input", "input"))
      && forall p :: p in ports && MustBeFed(p) ==> p.name == "input"
  {
    if !Missing(input) {
      var first := Port("input", "input", input.value, true);
      assert WithDefaultPort([], "input", input) == [first];
      assert ([first] + [Port("output", "output", output.value, true)])[1..]
          == [Port("output", "output", output.value, true)];
    }
  }

  lemma PortlessIsPluggable(c: Catalog, n: NodeBody)
    requires Connects(n.kind) && n.ports == [] && HasItsTool(c, n) && ToolsDeclareSchemas(c)
    ensures Pluggable(CanonicalBody(c, n))
  {
    hide CanonicalFields, WithDefaultPort;
    SchemasOfConnected(c, n);
    var fields := CanonicalFields(c, n);
    DefaultPorts(fields.0, fields.1);
  }

  /** Recovery leaves no tool node without a registered tool. */
  lemma CompletedHasItsTools(c: Catalog, p: Proposal, n: NodeBody)
    requires n in Completed(c, p).nodes
    ensures HasItsTool(c, n)
  {
    if n !in Recovered(c, p.nodes) {
      assert n.kind.Intent? || n.kind.Final?;
    } else {
      var i :| 0 <= i < |p.nodes| && Recovered(c, p.nodes)[i] == n;
    }
  }

  // ----- the graph, whichever identifiers it got -----

  ghost predicate Realises(nodes: seq<Node>, bodies: seq<NodeBody>) {
    && |nodes| == |bodies| && IdsTellNames(nodes)
    && forall i :: 0 <= i < |nodes| ==>
      nodes[i].body.name == bodies[i].name && nodes[i].body.kind == bodies[i].kind && Pluggable(nodes[i].body)
  }

  lemma NodeIsPluggable(c: Catalog, body: NodeBody, k: nat, prompt: Option<string>, dryRun: bool, nextId: nat)
    requires Connects(body.kind) && body.ports == [] && HasItsTool(c, body) && ToolsDeclareSchemas(c)
    ensures var n := NodeAt(c, body, k, prompt, dryRun, nextId);
      && n.body.name == body.name && n.body.kind == body.kind && Pluggable(n.body)
      && n.id == IdAt(dryRun, nextId, k, body.name)
  {
    PortlessIsPluggable(c, body);
  }

  lemma NodesRealise(c: Catalog, bodies: seq<NodeBody>, prompt: Option<string>, dryRun: bool, nextId: nat)
    requires ToolsDeclareSchemas(c)
    requires forall n :: n in bodies ==> Connects(n.kind) && n.ports == [] && HasItsTool(c, n)
    ensures Realises(Nodes(c, bodies, prompt, dryRun, nextId), bodies)
  {
    hide NodeAt, Pluggable, HasItsTool, ToolsDeclareSchemas, Connects, Nodes;
    var nodes := Nodes(c, bodies, prompt, dryRun, nextId);
    NodesAre(c, bodies, prompt, dryRun, nextId);
    forall i | 0 <= i < |bodies|
      ensures nodes[i].body.name == bodies[i].name && nodes[i].body.kind == bodies[i].kind
      ensures Pluggable(nodes[i].body) && nodes[i].id == IdAt(dryRun, nextId, i, bodies[i].name)
    {
      NodeIsPluggable(c, bodies[i], i, prompt, dryRun, nextId);
    }
  }

  /** A known name means a node of that name. */
  lemma NameIsRealised(nodes: seq<Node>, bodies: seq<NodeBody>, n: NodeBody)
    requires Realises(nodes, bodies) && n in bodies
    requires forall m :: m in bodies && m.name == n.name ==> m == n
    ensures n.name in NamesOf(nodes)
    ensures var found := Lookup(nodes, NamesOf(nodes)[n.name]);
      found.Some? && found.value.body.name == n.name && found.value.body.kind == n.kind && Pluggable(found.value.body)
  {
    hide Pluggable, IdsTellNames;
    var i :| 0 <= i < |bodies| && bodies[i] == n;
    assert nodes[i] in nodes && nodes[i].body.name == n.name;
    NamesAreLast(nodes, n.name);
    var found := LastNamed(nodes, n.name).value;
    var j :| 0 <= j < |nodes| && nodes[j] == found;
    assert bodies[j] in bodies;
  }

  ghost predicate NamesDiffer(bodies: seq<NodeBody>) {
    forall i, j :: 0 <= i < j < |bodies| ==> bodies[i].name != bodies[j].name
  }

  lemma NodeIsMeant(nodes: seq<Node>, bodies: seq<NodeBody>, i: nat)
    requires Realises(nodes, bodies) && i < |nodes| && NamesDiffer(bodies)
    ensures bodies[i].name in NamesOf(nodes) && NamesOf(nodes)[bodies[i].name] == nodes[i].id
  {
    hide Pluggable, IdsTellNames;
    NamesAreLast(nodes, bodies[i].name);
    assert nodes[i] in nodes;
    var found := LastNamed(nodes, bodies[i].name).value;
    var j :| 0 <= j < |nodes| && nodes[j] == found;
    assert j == i;
  }

  // ----- the canonical edges on that graph -----

  lemma CanonicalUsesDefaultPorts(nodes: seq<NodeBody>, edges: seq<ProposalEdge>)
    requires forall e :: e in edges ==> e.fromPort == "output" && e.toPort == "input"
    ensures forall e :: e in Canonical(nodes, edges) ==> e.fromPort == "output" && e.toPort == "input"
  {
    hide FirstOf, LastSink, Feeds;
    if !LeftAlone(nodes) {
      FeedsMembers(FirstOf(nodes, Intent).value.name, nodes, edges);
    }
  }

  /** The ends of a canonical edge are nodes, and it leads to no intent. */
  lemma CanonicalEnds(nodes: seq<NodeBody>, edges: seq<ProposalEdge>, intent: NodeBody, final: NodeBody,
                      rank: string -> nat, e: ProposalEdge)
    returns (m: NodeBody, n: NodeBody)
    requires WellShaped(nodes, edges, intent, final, rank) && e in Canonical(nodes, edges)
    ensures m in nodes && n in nodes && m.name == e.from && n.name == e.to && !n.kind.Intent?
  {
    hide Canonical, Ranked;
    CanonicalEdgesAre(nodes, edges, intent, final, rank, e);
    if e in edges {
      m :| m in nodes && m.name == e.from;
      n :| n in nodes && n.name == e.to;
    } else if e.to == final.name && exists x :: x in nodes && IsProcessing(x) && x.name == e.from {
      m :| m in nodes && m.name == e.from;
      n := final;
    } else {
      m := intent;
      n :| n in nodes && IsProcessing(n) && n.name == e.to;
    }
  }

  ghost predicate Shaped(nodes: seq<Node>, bodies: seq<NodeBody>, edges: seq<ProposalEdge>, intent: NodeBody,
                         final: NodeBody, rank: string -> nat) {
    && Realises(nodes, bodies) && NamesDiffer(bodies) && WellShaped(bodies, edges, intent, final, rank)
    && forall e :: e in edges ==> e.fromPort == "output" && e.toPort == "input"
  }

  /** A wired edge comes from a canonical one; its ends are the nodes meant. */
  lemma WiredEdge(nodes: seq<Node>, bodies: seq<NodeBody>, edges: seq<ProposalEdge>, intent: NodeBody,
                  final: NodeBody, rank: string -> nat, e: Edge<Id>)
    returns (p: ProposalEdge)
    requires Shaped(nodes, bodies, edges, intent, final, rank)
    requires e in Wired(nodes, Canonical(bodies, edges)).edges
    ensures p in Canonical(bodies, edges) && Wires(NamesOf(nodes), p, e)
    ensures var src, dst := Lookup(nodes, e.from), Lookup(nodes, e.to);
      src.Some? && dst.Some? && src.value.body.name == p.from && dst.value.body.name == p.to
    ensures EdgeFits(nodes, e)
  {
    hide WellShaped, Realises, Canonical, NamesOf, HasPort;
    EdgesForMembers(NamesOf(nodes), Canonical(bodies, edges), e);
    p :| p in Canonical(bodies, edges) && Wires(NamesOf(nodes), p, e);
    var m, n := CanonicalEnds(bodies, edges, intent, final, rank, p);
    NamesUnique(bodies);
    NameIsRealised(nodes, bodies, m);
    NameIsRealised(nodes, bodies, n);
    CanonicalUsesDefaultPorts(bodies, edges);
  }

  lemma NamesUnique(bodies: seq<NodeBody>)
    requires NamesDiffer(bodies)
    ensures forall m, n :: m in bodies && n in bodies && m.name == n.name ==> m == n
  {}

  lemma NodeIsFedHere(nodes: seq<Node>, bodies: seq<NodeBody>, edges: seq<ProposalEdge>, intent: NodeBody,
                      final: NodeBody, rank: string -> nat, i: nat)
    requires Shaped(nodes, bodies, edges, intent, final, rank) && i < |nodes|
    ensures NodeIsFed(Wired(nodes, Canonical(bodies, edges)).edges, nodes[i])
  {
    hide WellShaped, Canonical, NamesOf, HasPort, IdsTellNames;
    if !nodes[i].body.kind.Intent? {
      assert bodies[i] in bodies && bodies[i] != intent by {
        IntentIsIntent(bodies, edges, intent, final, rank);
      }
      var p := EveryNodeIsFed(bodies, edges, intent, final, rank, bodies[i]);
      var m, n := CanonicalEnds(bodies, edges, intent, final, rank, p);
      NamesUnique(bodies);
      NameIsRealised(nodes, bodies, m);
      NodeIsMeant(nodes, bodies, i);
      CanonicalUsesDefaultPorts(bodies, edges);
      var e := Reattach(p, NamesOf(nodes)[p.from], NamesOf(nodes)[p.to]);
      EdgesForMembers(NamesOf(nodes), Canonical(bodies, edges), e);
      assert e in Wired(nodes, Canonical(bodies, edges)).edges && e.to == nodes[i].id && e.toPort == "input";
    }
  }

  lemma IntentIsIntent(bodies: seq<NodeBody>, edges: seq<ProposalEdge>, intent: NodeBody, final: NodeBody,
                       rank: string -> nat)
    requires WellShaped(bodies, edges, intent, final, rank)
    ensures intent.kind.Intent? && final.kind.Final? && final in bodies
    ensures forall n :: n in bodies ==> Connects(n.kind) && !n.kind.Router?
  {
    hide Ranked;
  }

  /** Edges, ports, cycles, terminal node and routers: all in order. */
  lemma ShapedIsSound(nodes: seq<Node>, bodies: seq<NodeBody>, edges: seq<ProposalEdge>, intent: NodeBody,
                      final: NodeBody, rank: string -> nat)
    requires Shaped(nodes, bodies, edges, intent, final, rank)
    ensures var g := Wired(nodes, Canonical(bodies, edges));
      PortsSatisfied(g) && HasTerminal(g) && Acyclic(g.edges) && RoutersOk(g)
  {
    hide Canonical, NamesOf, WellShaped, NodeIsFed, EdgeFits, Acyclic, Pluggable, IdsTellNames;
    var g := Wired(nodes, Canonical(bodies, edges));
    forall n | n in g.nodes ensures NodeIsFed(g.edges, n) && !n.body.kind.Router? {
      var i :| 0 <= i < |nodes| && nodes[i] == n;
      NodeIsFedHere(nodes, bodies, edges, intent, final, rank, i);
      IntentIsIntent(bodies, edges, intent, final, rank);
      assert bodies[i] in bodies;
    }
    forall e | e in g.edges ensures EdgeFits(g.nodes, e) {
      var p := WiredEdge(nodes, bodies, edges, intent, final, rank, e);
    }
    ShapedIsAcyclic(nodes, bodies, edges, intent, final, rank);
    IntentIsIntent(bodies, edges, intent, final, rank);
    var i :| 0 <= i < |bodies| && bodies[i] == final;
    assert nodes[i] in g.nodes;
  }

  /** A rank of names as a rank of identifiers. */
  function ByName(nodes: seq<Node>, rank: string -> nat): Id -> nat {
    id => rank(NameAt(nodes, id))
  }

  function NameAt(nodes: seq<Node>, id: Id): string {
    if Lookup(nodes, id).Some? then Lookup(nodes, id).value.body.name else ""
  }

  lemma ShapedIsAcyclic(nodes: seq<Node>, bodies: seq<NodeBody>, edges: seq<ProposalEdge>, intent: NodeBody,
                        final: NodeBody, rank: string -> nat)
    requires Shaped(nodes, bodies, edges, intent, final, rank)
    ensures Acyclic(Wired(nodes, Canonical(bodies, edges)).edges)
  {
    hide Canonical, NamesOf, WellShaped, EdgeFits, Acyclic, Realises;
    var better := Rerank(bodies, intent.name, final.name, rank);
    var lifted := ByName(nodes, better);
    var wired := Wired(nodes, Canonical(bodies, edges)).edges;
    CanonicalIsRanked(bodies, edges, intent, final, rank);
    forall e | e in wired ensures lifted(e.from) < lifted(e.to) {
      var p := WiredEdge(nodes, bodies, edges, intent, final, rank, e);
      assert NameAt(nodes, e.from) == p.from && NameAt(nodes, e.to) == p.to;
      assert better(p.from) < better(p.to);
    }
    RankedIsAcyclic(wired, lifted);
  }

  lemma CompletedIsShaped(c: Catalog, p: Proposal, prompt: Option<string>, dryRun: bool, nextId: nat,
                          intent: NodeBody, final: NodeBody, rank: string -> nat)
    requires ToolsDeclareSchemas(c) && PlainlyDeclared(c, p)
    requires WellShaped(Completed(c, p).nodes, Completed(c, p).edges, intent, final, rank)
    ensures Shaped(Nodes(c, Completed(c, p).nodes, prompt, dryRun, nextId),
                   Completed(c, p).nodes, Completed(c, p).edges, intent, final, rank)
  {
    hide Completed, WellShaped, Realises, HasItsTool, ToolsDeclareSchemas;
    var completed := Completed(c, p);
    IntentIsIntent(completed.nodes, completed.edges, intent, final, rank);
    forall n | n in completed.nodes ensures HasItsTool(c, n) {
      CompletedHasItsTools(c, p, n);
    }
    NodesRealise(c, completed.nodes, prompt, dryRun, nextId);
  }

  lemma ValidityLeft(registry: Registry, local: NodeBody -> bool, g: TaskGraph)
    requires PortsSatisfied(g) && HasTerminal(g) && Acyclic(g.edges) && RoutersOk(g)
    ensures IsValid(registry, local, g) <==> EdgesCompatible(registry, g) && NodesOk(local, g)
  {
    hide PortsSatisfied, HasTerminal, Acyclic, RoutersOk, EdgesCompatible, NodesOk;
  }

  /** A sparse proposal that becomes well shaped once completed is wired
      correctly, in the dry run and in the real one: of all the validators only
      the edge types and the single-node checks can still object. */
  lemma SparseProposalIsWired(c: Catalog, registry: Registry, local: NodeBody -> bool, p: Proposal, prompt: string,
                              dryRun: bool, nextId: nat,
                              intent: NodeBody, final: NodeBody, rank: string -> nat)
    requires ToolsDeclareSchemas(c) && PlainlyDeclared(c, p)
    requires WellShaped(Completed(c, p).nodes, Completed(c, p).edges, intent, final, rank)
    ensures var g := Normalized(c, p, prompt, dryRun, nextId);
      IsValid(registry, local, g) <==> EdgesCompatible(registry, g) && NodesOk(local, g)
  {
    hide Completed, Canonical, WellShaped, IsValid, PortsSatisfied, HasTerminal, Acyclic, RoutersOk, PlainlyDeclared;
    hide ToolsDeclareSchemas, Shaped, EdgesCompatible, NodesOk;
    var completed := Completed(c, p);
    var nodes := Nodes(c, completed.nodes, InjectedPrompt(c, p, prompt), dryRun, nextId);
    CompletedIsShaped(c, p, InjectedPrompt(c, p, prompt), dryRun, nextId, intent, final, rank);
    ShapedIsSound(nodes, completed.nodes, completed.edges, intent, final, rank);
    ValidityLeft(registry, local, Wired(nodes, Canonical(completed.nodes, completed.edges)));
  }

  /** No ports, default edge ends, distinct names. */
  ghost predicate PlainlyDeclared(c: Catalog, p: Proposal) {
    && NamesDiffer(Completed(c, p).nodes)
    && (forall n :: n in Completed(c, p).nodes ==> n.ports == [])
    && forall e :: e in Completed(c, p).edges ==> e.fromPort == "output" && e.toPort == "input"
  }
}
