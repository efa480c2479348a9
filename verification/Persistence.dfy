/** From the validated dry run to the persisted graph: the two differ by their
    identifiers and the prompt, and validity carries over exactly when no node
    that needs edges is shadowed by a later node of the same name. */
module Persistence {
  import opened TaskGraphs
  import opened Acyclicity
  import opened Transforms
  import opened Expansion
  import opened Validation
  import opened Compilation

  // ----- names and identifiers -----

  /** Nodes that share an identifier share a name. */
  ghost predicate IdsTellNames(nodes: seq<Node>) {
    forall m, n :: m in nodes && n in nodes && m.id == n.id ==> m.body.name == n.body.name
  }

  /** The node meant by a name: the last one. */
  function LastNamed(nodes: seq<Node>, name: string): (r: Option<Node>)
    ensures r.Some? ==> r.value in nodes && r.value.body.name == name
    ensures r.None? <==> forall n :: n in nodes ==> n.body.name != name
  {
    if nodes == [] then None
    else if nodes[|nodes| - 1].body.name == name then Some(nodes[|nodes| - 1])
    else LastNamed(nodes[..|nodes| - 1], name)
  }

  lemma {:induction false} NamesAreLast(nodes: seq<Node>, name: string)
    requires IdsTellNames(nodes)
    ensures name in NamesOf(nodes) <==> LastNamed(nodes, name).Some?
    ensures name in NamesOf(nodes) ==>
      && NamesOf(nodes)[name] == LastNamed(nodes, name).value.id
      && Lookup(nodes, NamesOf(nodes)[name]) == LastNamed(nodes, name)
  {
    if nodes != [] {
      NamesAreLast(nodes[..|nodes| - 1], name);
    }
  }

  /** Node for node the same, identifier and prompt aside. */
  ghost predicate Twins(g: seq<Node>, h: seq<Node>) {
    |g| == |h| && forall i :: 0 <= i < |g| ==> WithoutPrompt(g[i].body) == WithoutPrompt(h[i].body)
  }

  lemma {:induction false} TwinsNamed(g: seq<Node>, h: seq<Node>, name: string)
    requires Twins(g, h)
    ensures LastNamed(g, name).Some? <==> LastNamed(h, name).Some?
    ensures LastNamed(g, name).Some? ==>
      WithoutPrompt(LastNamed(g, name).value.body) == WithoutPrompt(LastNamed(h, name).value.body)
  {
    if g != [] {
      var k := |g| - 1;
      assert WithoutPrompt(g[k].body) == WithoutPrompt(h[k].body);
      TwinsNamed(g[..k], h[..k], name);
    }
  }

  // ----- edges -----

  lemma {:induction false} EdgesForMembers(names: Names, edges: seq<ProposalEdge>, e: Edge<Id>)
    ensures e in EdgesFor(names, edges) <==> exists p :: p in edges && Wires(names, p, e)
  {
    if edges != [] {
      var k := |edges| - 1;
      EdgesForMembers(names, edges[..k], e);
      assert edges == edges[..k] + [edges[k]];
      if e in EdgesFor(names, edges[..k]) {
        var p :| p in edges[..k] && Wires(names, p, e);
        assert p in edges;
      } else if e in EdgesFor(names, edges) {
        assert Wires(names, edges[k], e);
      }
    }
  }

  ghost predicate Wires(names: Names, p: ProposalEdge, e: Edge<Id>) {
    p.from in names && p.to in names && e == Reattach(p, names[p.from], names[p.to])
  }

  /** Two graphs wired over twin nodes by the same proposal edges. */
  ghost predicate TwinGraphs(g: seq<Node>, h: seq<Node>) {
    Twins(g, h) && IdsTellNames(g) && IdsTellNames(h)
  }

  /** The edge of h that comes from the same proposal edge as e. */
  lemma Counterpart(g: seq<Node>, h: seq<Node>, edges: seq<ProposalEdge>, e: Edge<Id>)
    returns (p: ProposalEdge, f: Edge<Id>)
    requires TwinGraphs(g, h) && e in Wired(g, edges).edges
    ensures p in edges && Wires(NamesOf(g), p, e) && Wires(NamesOf(h), p, f) && f in Wired(h, edges).edges
  {
    EdgesForMembers(NamesOf(g), edges, e);
    p :| p in edges && Wires(NamesOf(g), p, e);
    NamesAreLast(g, p.from);
    NamesAreLast(g, p.to);
    NamesAreLast(h, p.from);
    NamesAreLast(h, p.to);
    TwinsNamed(g, h, p.from);
    TwinsNamed(g, h, p.to);
    f := Reattach(p, NamesOf(h)[p.from], NamesOf(h)[p.to]);
    EdgesForMembers(NamesOf(h), edges, f);
  }

  lemma TwinEnds(g: seq<Node>, h: seq<Node>, name: string)
    requires TwinGraphs(g, h) && name in NamesOf(g) && name in NamesOf(h)
    ensures var a, b := Lookup(g, NamesOf(g)[name]), Lookup(h, NamesOf(h)[name]);
      a.Some? && b.Some? && a.value.body.name == name && WithoutPrompt(a.value.body) == WithoutPrompt(b.value.body)
  {
    NamesAreLast(g, name);
    NamesAreLast(h, name);
    TwinsNamed(g, h, name);
  }

  // ----- the validators that look at edges -----

  lemma CompatibilityCarriesOver(registry: Registry, g: seq<Node>, h: seq<Node>, edges: seq<ProposalEdge>)
    requires TwinGraphs(g, h) && EdgesCompatible(registry, Wired(g, edges))
    ensures EdgesCompatible(registry, Wired(h, edges))
  {
    forall f | f in Wired(h, edges).edges ensures EdgeCompatible(registry, h, f) {
      var p, e := Counterpart(h, g, edges, f);
      TwinEnds(g, h, p.from);
      TwinEnds(g, h, p.to);
      assert EdgeCompatible(registry, g, e);
    }
  }

  lemma EdgeFitsCarriesOver(g: seq<Node>, h: seq<Node>, edges: seq<ProposalEdge>)
    requires TwinGraphs(g, h) && forall e :: e in Wired(g, edges).edges ==> EdgeFits(g, e)
    ensures forall f :: f in Wired(h, edges).edges ==> EdgeFits(h, f)
  {
    forall f | f in Wired(h, edges).edges ensures EdgeFits(h, f) {
      var p, e := Counterpart(h, g, edges, f);
      TwinEnds(g, h, p.from);
      TwinEnds(g, h, p.to);
      assert EdgeFits(g, e);
    }
  }

  // ----- cycles -----

  lemma CyclesMap(a: seq<Edge<Id>>, b: seq<Edge<Id>>, f: Id -> Id, p: seq<Id>)
    requires IsCycle(a, p) && forall u, v :: Arrow(a, u, v) ==> Arrow(b, f(u), f(v))
    ensures IsCycle(b, seq(|p|, i requires 0 <= i < |p| => f(p[i])))
  {
    var q := seq(|p|, i requires 0 <= i < |p| => f(p[i]));
    forall i | 0 <= i < |q| - 1 ensures Arrow(b, q[i], q[i + 1]) {
      assert Arrow(a, p[i], p[i + 1]);
    }
  }

  /** The identifier in h of the node meant by an identifier in g. */
  ghost function Renaming(g: seq<Node>, h: seq<Node>): Id -> Id {
    id => if Lookup(g, id).Some? && Lookup(g, id).value.body.name in NamesOf(h)
          then NamesOf(h)[Lookup(g, id).value.body.name] else id
  }

  lemma AcyclicityCarriesOver(g: seq<Node>, h: seq<Node>, edges: seq<ProposalEdge>)
    requires TwinGraphs(g, h) && Acyclic(Wired(h, edges).edges)
    ensures Acyclic(Wired(g, edges).edges)
  {
    var a, b := Wired(g, edges).edges, Wired(h, edges).edges;
    var f := Renaming(g, h);
    if p :| IsCycle(a, p) {
      forall u, v | Arrow(a, u, v) ensures Arrow(b, f(u), f(v)) {
        var e :| e in a && e.from == u && e.to == v;
        var pe, fe := Counterpart(g, h, edges, e);
        TwinEnds(g, h, pe.from);
        TwinEnds(g, h, pe.to);
        assert fe.from == f(u) && fe.to == f(v);
      }
      CyclesMap(a, b, f, p);
    }
  }

  // ----- the validators that look at a node's edges -----

  /** The node is the one its name means. */
  predicate Owns(nodes: seq<Node>, n: Node) {
    n.body.name in NamesOf(nodes) && NamesOf(nodes)[n.body.name] == n.id
  }

  lemma OwnersReachAlike(g: seq<Node>, h: seq<Node>, edges: seq<ProposalEdge>, i: nat)
    requires TwinGraphs(g, h) && i < |g| && Owns(g, g[i]) && Owns(h, h[i])
    ensures Reaches(Wired(g, edges).edges, g[i].id) ==> Reaches(Wired(h, edges).edges, h[i].id)
    ensures forall port :: ReachesPort(Wired(g, edges).edges, g[i].id, port) ==>
      ReachesPort(Wired(h, edges).edges, h[i].id, port)
  {
    forall e | e in Wired(g, edges).edges && e.to == g[i].id
      ensures exists f :: f in Wired(h, edges).edges && f.to == h[i].id && f.toPort == e.toPort
    {
      var p, f := Counterpart(g, h, edges, e);
      SameOwner(g, h, i, p.to);
    }
  }

  lemma SameOwner(g: seq<Node>, h: seq<Node>, i: nat, name: string)
    requires TwinGraphs(g, h) && i < |g| && Owns(g, g[i]) && Owns(h, h[i])
    requires name in NamesOf(g) && name in NamesOf(h) && NamesOf(g)[name] == g[i].id
    ensures NamesOf(h)[name] == h[i].id
  {
    NamesAreLast(g, name);
    assert WithoutPrompt(g[i].body) == WithoutPrompt(h[i].body);
  }

  lemma BranchesCarryOver(g: seq<Node>, h: seq<Node>, edges: seq<ProposalEdge>, i: nat)
    requires TwinGraphs(g, h) && i < |g| && Owns(g, g[i]) && Owns(h, h[i])
    ensures Branches(Wired(g, edges).edges, g[i].id) <= Branches(Wired(h, edges).edges, h[i].id)
  {
    forall e | e in Wired(g, edges).edges && e.from == g[i].id && !Missing(Branch(e))
      ensures Branch(e).value in Branches(Wired(h, edges).edges, h[i].id)
    {
      var p, f := Counterpart(g, h, edges, e);
      SameOwner(g, h, i, p.from);
      assert f.from == h[i].id && Branch(f) == Branch(e);
    }
  }

  lemma LabelsCarryOver(g: seq<Node>, h: seq<Node>, edges: seq<ProposalEdge>, i: nat)
    requires TwinGraphs(g, h) && i < |g| && Owns(g, g[i]) && Owns(h, h[i])
    requires forall e :: e in Wired(g, edges).edges && e.from == g[i].id ==> !Missing(Branch(e))
    ensures forall f :: f in Wired(h, edges).edges && f.from == h[i].id ==> !Missing(Branch(f))
  {
    forall f | f in Wired(h, edges).edges && f.from == h[i].id ensures !Missing(Branch(f)) {
      var p, e := Counterpart(h, g, edges, f);
      SameOwner(h, g, i, p.from);
      assert e.from == g[i].id;
    }
  }

  /** What required-port and router validation ask of one node. */
  ghost predicate NodeValid(edges: seq<Edge<Id>>, n: Node) {
    NodeIsFed(edges, n) && RouterOk(edges, n)
  }

  lemma OwnerCarriesOver(g: seq<Node>, h: seq<Node>, edges: seq<ProposalEdge>, i: nat)
    requires TwinGraphs(g, h) && i < |g| && Owns(g, g[i]) && Owns(h, h[i])
    requires NodeValid(Wired(g, edges).edges, g[i])
    ensures NodeValid(Wired(h, edges).edges, h[i])
  {
    assert WithoutPrompt(g[i].body) == WithoutPrompt(h[i].body);
    OwnersReachAlike(g, h, edges, i);
    if g[i].body.kind.Router? {
      LabelsCarryOver(g, h, edges, i);
      BranchesCarryOver(g, h, edges, i);
      BranchesCarryOver(h, g, edges, i);
      assert Branches(Wired(g, edges).edges, g[i].id) == Branches(Wired(h, edges).edges, h[i].id);
    }
  }

  /** A node that is valid without any edge. */
  predicate Harmless(body: NodeBody) {
    && !InputRequired(body.kind) && !body.kind.Router?
    && (body.kind.Intent? || forall p | p in body.ports :: !MustBeFed(p))
  }

  lemma HarmlessIsValid(edges: seq<Edge<Id>>, n: Node)
    requires Harmless(n.body)
    ensures NodeValid(edges, n)
  {}

  lemma ShadowedHasNoEdges(nodes: seq<Node>, edges: seq<ProposalEdge>, n: Node, e: Edge<Id>)
    requires DistinctIds(nodes) && n in nodes && !Owns(nodes, n) && e in Wired(nodes, edges).edges
    ensures e.to != n.id && e.from != n.id
  {
    EdgesForMembers(NamesOf(nodes), edges, e);
    var p :| p in edges && Wires(NamesOf(nodes), p, e);
    DistinctTellNames(nodes);
    NamesAreLast(nodes, p.from);
    NamesAreLast(nodes, p.to);
    LookupDistinct(nodes, n);
  }

  lemma DistinctTellNames(nodes: seq<Node>)
    requires DistinctIds(nodes)
    ensures IdsTellNames(nodes)
  {
    forall m, n | m in nodes && n in nodes && m.id == n.id ensures m.body.name == n.body.name {
      LookupDistinct(nodes, m);
      LookupDistinct(nodes, n);
    }
  }

  /** A node its name does not mean gets no edges, so it must need none. */
  lemma ShadowedIsValidIffHarmless(nodes: seq<Node>, edges: seq<ProposalEdge>, n: Node)
    requires DistinctIds(nodes) && n in nodes && !Owns(nodes, n)
    ensures NodeValid(Wired(nodes, edges).edges, n) <==> Harmless(n.body)
  {
    var wired := Wired(nodes, edges).edges;
    forall e | e in wired ensures e.to != n.id && e.from != n.id {
      ShadowedHasNoEdges(nodes, edges, n, e);
    }
    assert Branches(wired, n.id) == {};
  }

  // ----- the dry run and the real run -----

  lemma {:induction false} NodesAre(c: Catalog, bodies: seq<NodeBody>, prompt: Option<string>, dryRun: bool,
                                    nextId: nat)
    ensures var nodes := Nodes(c, bodies, prompt, dryRun, nextId);
      && |nodes| == |bodies|
      && forall i :: 0 <= i < |bodies| ==> nodes[i] == NodeAt(c, bodies[i], i, prompt, dryRun, nextId)
  {
    hide NodeAt;
    if bodies != [] {
      NodesAre(c, bodies[..|bodies| - 1], prompt, dryRun, nextId);
    }
  }

  lemma DryNodesOwn(nodes: seq<Node>, n: Node)
    requires n in nodes && forall m :: m in nodes ==> m.id == NamedId(m.body.name)
    ensures IdsTellNames(nodes) && Owns(nodes, n)
  {
    NamesAreLast(nodes, n.body.name);
  }

  ghost predicate ShadowedAt(bodies: seq<NodeBody>, i: int)
    requires 0 <= i < |bodies|
  {
    exists j :: i < j < |bodies| && bodies[j].name == bodies[i].name
  }

  lemma {:induction false} LastNamedPosition(nodes: seq<Node>, name: string) returns (k: nat)
    requires LastNamed(nodes, name).Some?
    ensures k < |nodes| && LastNamed(nodes, name) == Some(nodes[k])
    ensures forall j :: k < j < |nodes| ==> nodes[j].body.name != name
  {
    k := |nodes| - 1;
    if nodes[k].body.name != name {
      k := LastNamedPosition(nodes[..k], name);
    }
  }

  /** With distinct identifiers, the last node of a name is the one it means. */
  lemma OwnsIffLast(nodes: seq<Node>, i: nat)
    requires DistinctIds(nodes) && i < |nodes|
    ensures Owns(nodes, nodes[i]) <==> forall j :: i < j < |nodes| ==> nodes[j].body.name != nodes[i].body.name
  {
    var name := nodes[i].body.name;
    DistinctTellNames(nodes);
    NamesAreLast(nodes, name);
    var k := LastNamedPosition(nodes, name);
    if k != i {
      assert i < k;
      assert nodes[i].id != nodes[k].id;
    }
  }

  lemma RealIdsAreDistinct(c: Catalog, bodies: seq<NodeBody>, prompt: Option<string>, nextId: nat)
    ensures DistinctIds(Nodes(c, bodies, prompt, false, nextId))
  {
    NodesAre(c, bodies, prompt, false, nextId);
  }

  lemma StampKeepsTwins(body: NodeBody, k: nat, a: Option<string>, b: Option<string>)
    ensures WithoutPrompt(Stamp(body, k, a)) == WithoutPrompt(Stamp(body, k, b))
    ensures Stamp(body, k, a).name == body.name && Harmless(Stamp(body, k, a)) == Harmless(body)
  {}

  /** No node that needs edges is followed by one of the same name. */
  ghost predicate NoHarmfulShadow(c: Catalog, bodies: seq<NodeBody>) {
    forall i :: 0 <= i < |bodies| && ShadowedAt(bodies, i) ==> Harmless(CanonicalBody(c, bodies[i]))
  }

  /** The two runs over the same completed proposal. */
  lemma RunsAreTwins(c: Catalog, bodies: seq<NodeBody>, a: Option<string>, b: Option<string>, nextId: nat)
    ensures var dry, stored := Nodes(c, bodies, a, true, 0), Nodes(c, bodies, b, false, nextId);
      && TwinGraphs(dry, stored) && DistinctIds(stored)
      && (forall n :: n in dry ==> n.id == NamedId(n.body.name))
  {
    hide CanonicalBody, WithoutPrompt;
    var dry, stored := Nodes(c, bodies, a, true, 0), Nodes(c, bodies, b, false, nextId);
    NodesAre(c, bodies, a, true, 0);
    NodesAre(c, bodies, b, false, nextId);
    RealIdsAreDistinct(c, bodies, b, nextId);
    DistinctTellNames(stored);
    forall i | 0 <= i < |bodies|
      ensures WithoutPrompt(dry[i].body) == WithoutPrompt(stored[i].body)
      ensures dry[i].id == NamedId(dry[i].body.name)
    {
      StampKeepsTwins(CanonicalBody(c, bodies[i]), i, a, b);
      CanonicalName(c, bodies[i]);
    }
  }

  lemma CanonicalName(c: Catalog, body: NodeBody)
    ensures CanonicalBody(c, body).name == body.name
  {}

  /** Every node of one graph is valid there. */
  ghost predicate AllNodesValid(g: TaskGraph) {
    forall n :: n in g.nodes ==> NodeValid(g.edges, n)
  }

  lemma NodesCarryOver(c: Catalog, bodies: seq<NodeBody>, dry: seq<Node>, stored: seq<Node>, edges: seq<ProposalEdge>)
    requires TwinGraphs(dry, stored) && DistinctIds(stored) && |bodies| == |stored|
    requires forall n :: n in dry ==> n.id == NamedId(n.body.name)
    requires forall i :: 0 <= i < |bodies| ==>
      stored[i].body.name == bodies[i].name && Harmless(stored[i].body) == Harmless(CanonicalBody(c, bodies[i]))
    ensures AllNodesValid(Wired(stored, edges)) <==> AllNodesValid(Wired(dry, edges)) && NoHarmfulShadow(c, bodies)
  {
    hide CanonicalBody, Harmless, NodeValid, AllNodesValid, Wired, ShadowedAt, TwinGraphs, DistinctIds;
    var a, b := Wired(dry, edges), Wired(stored, edges);
    assert a.nodes == dry && b.nodes == stored && |dry| == |stored| by {
      WiredKeepsNodes(dry, edges);
      WiredKeepsNodes(stored, edges);
      TwinsAreAsMany(dry, stored);
    }
    forall i | 0 <= i < |stored|
      ensures NodeValid(b.edges, stored[i]) <==>
        NodeValid(a.edges, dry[i]) && (ShadowedAt(bodies, i) ==> Harmless(CanonicalBody(c, bodies[i])))
    {
      NodeCarriesOver(c, bodies, dry, stored, edges, i);
    }
    AllNodesByIndex(a);
    AllNodesByIndex(b);
  }

  lemma WiredKeepsNodes(nodes: seq<Node>, edges: seq<ProposalEdge>)
    ensures Wired(nodes, edges).nodes == nodes
  {}

  lemma TwinsAreAsMany(g: seq<Node>, h: seq<Node>)
    requires TwinGraphs(g, h)
    ensures |g| == |h|
  {}

  lemma AllNodesByIndex(g: TaskGraph)
    ensures AllNodesValid(g) <==> forall i :: 0 <= i < |g.nodes| ==> NodeValid(g.edges, g.nodes[i])
  {
    hide NodeValid;
  }

  lemma NodeCarriesOver(c: Catalog, bodies: seq<NodeBody>, dry: seq<Node>, stored: seq<Node>,
                        edges: seq<ProposalEdge>, i: nat)
    requires TwinGraphs(dry, stored) && DistinctIds(stored) && |bodies| == |stored| && i < |stored|
    requires forall n :: n in dry ==> n.id == NamedId(n.body.name)
    requires forall i :: 0 <= i < |bodies| ==>
      stored[i].body.name == bodies[i].name && Harmless(stored[i].body) == Harmless(CanonicalBody(c, bodies[i]))
    ensures NodeValid(Wired(stored, edges).edges, stored[i]) <==>
      NodeValid(Wired(dry, edges).edges, dry[i]) && (ShadowedAt(bodies, i) ==> Harmless(CanonicalBody(c, bodies[i])))
  {
    hide CanonicalBody, NodeValid, RouterOk, NodeIsFed;
    DryNodesOwn(dry, dry[i]);
    OwnsIffLast(stored, i);
    assert Owns(stored, stored[i]) <==> !ShadowedAt(bodies, i);
    if Owns(stored, stored[i]) {
      OwnersAgree(dry, stored, edges, i);
    } else {
      ShadowedIsValidIffHarmless(stored, edges, stored[i]);
      TwinsHarmless(dry, stored, i);
      if Harmless(stored[i].body) {
        HarmlessIsValid(Wired(dry, edges).edges, dry[i]);
      }
    }
  }

  lemma TwinsHarmless(g: seq<Node>, h: seq<Node>, i: nat)
    requires Twins(g, h) && i < |g|
    ensures Harmless(g[i].body) == Harmless(h[i].body)
  {
    assert WithoutPrompt(g[i].body) == WithoutPrompt(h[i].body);
  }

  lemma OwnersAgree(g: seq<Node>, h: seq<Node>, edges: seq<ProposalEdge>, i: nat)
    requires TwinGraphs(g, h) && i < |g| && Owns(g, g[i]) && Owns(h, h[i])
    ensures NodeValid(Wired(g, edges).edges, g[i]) <==> NodeValid(Wired(h, edges).edges, h[i])
  {
    if NodeValid(Wired(g, edges).edges, g[i]) {
      OwnerCarriesOver(g, h, edges, i);
    }
    if NodeValid(Wired(h, edges).edges, h[i]) {
      OwnerCarriesOver(h, g, edges, i);
    }
  }

  lemma LocalChecksAgree(local: NodeBody -> bool, g: seq<Node>, h: seq<Node>, edges: seq<ProposalEdge>)
    requires Twins(g, h) && NodesOk(local, Wired(g, edges)) && HasTerminal(Wired(g, edges))
    ensures NodesOk(local, Wired(h, edges)) && HasTerminal(Wired(h, edges))
  {
    forall m | m in h ensures Supported(m.body.kind) && local(WithoutPrompt(m.body)) {
      var i :| 0 <= i < |h| && h[i] == m;
      assert WithoutPrompt(g[i].body) == WithoutPrompt(h[i].body);
      assert g[i] in g;
    }
    var i :| 0 <= i < |g| && g[i].body.kind.Final?;
    assert WithoutPrompt(g[i].body) == WithoutPrompt(h[i].body);
    assert h[i] in h;
  }

  /** Everything validation asks but what it asks of single nodes' edges. */
  ghost predicate GlobalValid(registry: Registry, local: NodeBody -> bool, g: TaskGraph) {
    && EdgesCompatible(registry, g) && NodesOk(local, g) && HasTerminal(g) && Acyclic(g.edges)
    && forall e :: e in g.edges ==> EdgeFits(g.nodes, e)
  }

  lemma ValidityParts(registry: Registry, local: NodeBody -> bool, g: TaskGraph)
    ensures IsValid(registry, local, g) <==> GlobalValid(registry, local, g) && AllNodesValid(g)
  {}

  lemma GlobalCarriesOver(registry: Registry, local: NodeBody -> bool, g: seq<Node>, h: seq<Node>,
                          edges: seq<ProposalEdge>)
    requires TwinGraphs(g, h) && GlobalValid(registry, local, Wired(g, edges))
    ensures GlobalValid(registry, local, Wired(h, edges))
  {
    CompatibilityCarriesOver(registry, g, h, edges);
    EdgeFitsCarriesOver(g, h, edges);
    AcyclicityCarriesOver(h, g, edges);
    LocalChecksAgree(local, g, h, edges);
  }

  /** The persisted graph passes every validator exactly when the dry run does
      and no node that needs edges is shadowed: for every proposal, prompt and
      choice of fresh identifiers. */
  lemma PersistedIsValidExactly(c: Catalog, registry: Registry, local: NodeBody -> bool, p: Proposal, prompt: string,
                                nextId: nat)
    ensures IsValid(registry, local, Normalized(c, p, prompt, false, nextId)) <==>
      IsValid(registry, local, Normalized(c, p, "", true, 0)) && NoHarmfulShadow(c, Completed(c, p).nodes)
  {
    hide IsValid, GlobalValid, AllNodesValid, CanonicalBody, Completed, Wiring.Canonical;
    var completed := Completed(c, p);
    var a, b := InjectedPrompt(c, p, ""), InjectedPrompt(c, p, prompt);
    var edges := Wiring.Canonical(completed.nodes, completed.edges);
    var dry, stored := Nodes(c, completed.nodes, a, true, 0), Nodes(c, completed.nodes, b, false, nextId);
    RunsAreTwins(c, completed.nodes, a, b, nextId);
    RealBodies(c, completed.nodes, b, nextId);
    NodesCarryOver(c, completed.nodes, dry, stored, edges);
    ValidityParts(registry, local, Wired(dry, edges));
    ValidityParts(registry, local, Wired(stored, edges));
    if GlobalValid(registry, local, Wired(dry, edges)) {
      GlobalCarriesOver(registry, local, dry, stored, edges);
    }
    if GlobalValid(registry, local, Wired(stored, edges)) {
      GlobalCarriesOver(registry, local, stored, dry, edges);
    }
  }

  lemma RealBodies(c: Catalog, bodies: seq<NodeBody>, prompt: Option<string>, nextId: nat)
    ensures var stored := Nodes(c, bodies, prompt, false, nextId);
      |stored| == |bodies| && forall i :: 0 <= i < |bodies| ==>
        stored[i].body.name == bodies[i].name && Harmless(stored[i].body) == Harmless(CanonicalBody(c, bodies[i]))
  {
    hide CanonicalBody, Harmless;
    NodesAre(c, bodies, prompt, false, nextId);
    forall i | 0 <= i < |bodies|
      ensures Stamp(CanonicalBody(c, bodies[i]), i, prompt).name == bodies[i].name
      ensures Harmless(Stamp(CanonicalBody(c, bodies[i]), i, prompt)) == Harmless(CanonicalBody(c, bodies[i]))
    {
      StampKeepsTwins(CanonicalBody(c, bodies[i]), i, prompt, prompt);
      CanonicalName(c, bodies[i]);
    }
  }

  /** Distinct names leave nothing shadowed: whatever was approved is valid once
      persisted. */
  lemma DistinctNamesPersistValid(c: Catalog, registry: Registry, local: NodeBody -> bool, p: Proposal,
                                  prompt: string, nextId: nat)
    requires Approved(c, registry, local, p)
    requires forall i, j :: 0 <= i < j < |Completed(c, p).nodes| ==>
      Completed(c, p).nodes[i].name != Completed(c, p).nodes[j].name
    ensures IsValid(registry, local, Normalized(c, p, prompt, false, nextId))
  {
    hide IsValid, CanonicalBody, Completed, Normalized;
    PersistedIsValidExactly(c, registry, local, p, prompt, nextId);
  }
}
