/** What the validators accept, said outright on nodes, ports and edges. */
module Validity {
  import opened TaskGraphs
  import opened Transforms
  import opened Validation

  ghost predicate Enters(g: TaskGraph, n: Node, port: Option<string>) {
    exists e :: e in g.edges && e.to == n.id && (port == None || port == Some(e.toPort))
  }

  ghost predicate Offers(ports: seq<Port>, name: string, direction: string) {
    exists p :: p in ports && p.name == name && p.direction == direction
  }

  lemma {:induction false} OffersExactly(ports: seq<Port>, name: string, direction: string)
    ensures HasPort(ports, name, direction) <==> Offers(ports, name, direction)
  {
    if ports != [] {
      OffersExactly(ports[1..], name, direction);
      assert ports == [ports[0]] + ports[1..];
    }
  }

  /** Every tool, model, compress and final node is entered by an edge, and so is
      every required input port of any node but an intent. */
  ghost predicate AllFed(g: TaskGraph) {
    && (forall n :: n in g.nodes && n.body.kind in {Tool, Model, Compress, Final} ==> Enters(g, n, None))
    && forall n, p ::
         (n in g.nodes && n.body.kind != Intent && p in n.body.ports && p.direction == "input" && p.required) ==>
           Enters(g, n, Some(p.name))
  }

  /** Every edge leaves an output port of a node and enters an input port of one. */
  ghost predicate AllJoined(g: TaskGraph) {
    forall e :: e in g.edges ==>
      && (exists m :: m in g.nodes && m.id == e.from && Offers(m.body.ports, e.fromPort, "output"))
      && (exists n :: n in g.nodes && n.id == e.to && Offers(n.body.ports, e.toPort, "input"))
  }

  lemma FedExactly(g: TaskGraph, n: Node)
    ensures NodeIsFed(g.edges, n) <==>
      && (n.body.kind in {Tool, Model, Compress, Final} ==> Enters(g, n, None))
      && (n.body.kind != Intent ==>
            forall p :: p in n.body.ports && p.direction == "input" && p.required ==> Enters(g, n, Some(p.name)))
  {
    assert Reaches(g.edges, n.id) <==> Enters(g, n, None);
    forall port ensures ReachesPort(g.edges, n.id, port) <==> Enters(g, n, Some(port)) {}
  }

  lemma FitsExactly(g: TaskGraph, e: Edge<Id>)
    requires DistinctIds(g.nodes)
    ensures EdgeFits(g.nodes, e) <==>
      && (exists m :: m in g.nodes && m.id == e.from && Offers(m.body.ports, e.fromPort, "output"))
      && (exists n :: n in g.nodes && n.id == e.to && Offers(n.body.ports, e.toPort, "input"))
  {
    hide HasPort, Offers;
    forall n | n in g.nodes ensures Lookup(g.nodes, n.id) == Some(n) {
      LookupDistinct(g.nodes, n);
    }
    forall ports, name, direction ensures HasPort(ports, name, direction) <==> Offers(ports, name, direction) {
      OffersExactly(ports, name, direction);
    }
  }

  /** Required ports, outright. */
  lemma PortsSatisfiedExactly(g: TaskGraph)
    requires DistinctIds(g.nodes)
    ensures PortsSatisfied(g) <==> AllFed(g) && AllJoined(g)
  {
    hide NodeIsFed, EdgeFits, Enters, Offers;
    forall n ensures NodeIsFed(g.edges, n) <==>
      && (n.body.kind in {Tool, Model, Compress, Final} ==> Enters(g, n, None))
      && (n.body.kind != Intent ==>
            forall p :: p in n.body.ports && p.direction == "input" && p.required ==> Enters(g, n, Some(p.name)))
    {
      FedExactly(g, n);
    }
    forall e ensures EdgeFits(g.nodes, e) <==>
      && (exists m :: m in g.nodes && m.id == e.from && Offers(m.body.ports, e.fromPort, "output"))
      && (exists n :: n in g.nodes && n.id == e.to && Offers(n.body.ports, e.toPort, "input"))
    {
      FitsExactly(g, e);
    }
  }

  /** The schema of the first port of the name and direction, or else the node's. */
  ghost predicate HasSchema(ports: seq<Port>, name: string, direction: string, own: Option<string>, schema: string) {
    && schema != ""
    && if exists k :: FirstPort(ports, name, direction, k) && ports[k].schemaRef != ""
       then exists k :: FirstPort(ports, name, direction, k) && ports[k].schemaRef == schema
       else own == Some(schema)
  }

  ghost predicate FirstPort(ports: seq<Port>, name: string, direction: string, k: int) {
    && 0 <= k < |ports| && ports[k].name == name && ports[k].direction == direction
    && forall j :: 0 <= j < k ==> !(ports[j].name == name && ports[j].direction == direction)
  }

  lemma {:induction false} FirstPortExactly(ports: seq<Port>, name: string, direction: string)
    ensures PortSchema(ports, name, direction).None? ==> forall k :: !FirstPort(ports, name, direction, k)
    ensures PortSchema(ports, name, direction).Some? ==> exists k ::
      FirstPort(ports, name, direction, k) && ports[k].schemaRef == PortSchema(ports, name, direction).value
  {
    if ports == [] {
    } else if ports[0].name == name && ports[0].direction == direction {
      assert FirstPort(ports, name, direction, 0);
    } else {
      FirstPortExactly(ports[1..], name, direction);
      forall k ensures FirstPort(ports, name, direction, k) <==> FirstPort(ports[1..], name, direction, k - 1) {
        FirstPortShifts(ports, name, direction, k);
      }
      var found := PortSchema(ports, name, direction);
      if k :| FirstPort(ports[1..], name, direction, k) && Some(ports[1..][k].schemaRef) == found {
        assert FirstPort(ports, name, direction, k + 1);
      }
    }
  }

  lemma FirstPortShifts(ports: seq<Port>, name: string, direction: string, k: int)
    requires ports != [] && !(ports[0].name == name && ports[0].direction == direction)
    ensures FirstPort(ports, name, direction, k) <==> FirstPort(ports[1..], name, direction, k - 1)
  {
    assert forall j :: 0 < j < |ports| ==> ports[j] == ports[1..][j - 1];
  }

  lemma FirstPortIsOne(ports: seq<Port>, name: string, direction: string)
    ensures forall k, l :: FirstPort(ports, name, direction, k) && FirstPort(ports, name, direction, l) ==> k == l
  {}

  lemma SchemaExactly(ports: seq<Port>, name: string, direction: string, own: Option<string>)
    ensures var found := OrElse(PortSchema(ports, name, direction), own);
      && (!Missing(found) ==> HasSchema(ports, name, direction, own, found.value))
      && (forall schema :: HasSchema(ports, name, direction, own, schema) ==> found == Some(schema) && schema != "")
  {
    hide FirstPort, PortSchema;
    FirstPortExactly(ports, name, direction);
    FirstPortIsOne(ports, name, direction);
  }

  /** If both ends have a schema, the edge bridges them. */
  ghost predicate EndsFit(registry: Registry, e: Edge<Id>, m: Node, n: Node) {
    forall a, b ::
      (HasSchema(m.body.ports, e.fromPort, "output", m.body.outputSchema, a)
       && HasSchema(n.body.ports, e.toPort, "input", n.body.inputSchema, b)) ==> Bridges(registry, e.transform, a, b)
  }

  /** So does every edge between nodes that does not leave a router. */
  ghost predicate AllTyped(registry: Registry, g: TaskGraph) {
    forall e, m, n ::
      (e in g.edges && m in g.nodes && n in g.nodes && m.id == e.from && n.id == e.to && m.body.kind != Router) ==>
        EndsFit(registry, e, m, n)
  }

  /** The two schemas are equal or the named transform leads from one to the other;
      a transform that is named is registered in any case. */
  ghost predicate Bridges(registry: Registry, transform: Option<string>, a: string, b: string) {
    && (transform.Some? && transform.value != "" ==> transform.value in registry)
    && (a == b || (transform.Some? && transform.value in registry && registry[transform.value].toSchema == b
                   && (registry[transform.value].fromSchema == a || registry[transform.value].fromSchema == "*")))
  }

  lemma TypedExactly(registry: Registry, nodes: seq<Node>, e: Edge<Id>, m: Node, n: Node)
    requires Lookup(nodes, e.from) == Some(m) && Lookup(nodes, e.to) == Some(n) && m.body.kind != Router
    ensures EdgeCompatible(registry, nodes, e) <==> EndsFit(registry, e, m, n)
  {
    hide HasSchema, PortSchema, CanTransform;
    SchemaExactly(m.body.ports, e.fromPort, "output", m.body.outputSchema);
    SchemaExactly(n.body.ports, e.toPort, "input", n.body.inputSchema);
    var a, b := SourceSchema(m, e), TargetSchema(n, e);
    if !Missing(a) && !Missing(b) {
      BridgesExactly(registry, e.transform, a.value, b.value);
    }
  }

  lemma BridgesExactly(registry: Registry, transform: Option<string>, a: string, b: string)
    ensures Bridges(registry, transform, a, b) <==>
      (Missing(transform) || transform.value in registry) && CanTransform(registry, a, b, transform)
  {}

  lemma CompatibleExactly(registry: Registry, nodes: seq<Node>, e: Edge<Id>)
    requires DistinctIds(nodes)
    ensures EdgeCompatible(registry, nodes, e) <==> forall m, n ::
      (m in nodes && n in nodes && m.id == e.from && n.id == e.to && m.body.kind != Router) ==>
        EndsFit(registry, e, m, n)
  {
    hide EndsFit, TypesFit;
    forall m, n | m in nodes && n in nodes && m.id == e.from && n.id == e.to
      ensures Lookup(nodes, e.from) == Some(m) && Lookup(nodes, e.to) == Some(n)
      ensures m.body.kind != Router ==> (EdgeCompatible(registry, nodes, e) <==> EndsFit(registry, e, m, n))
    {
      LookupDistinct(nodes, m);
      LookupDistinct(nodes, n);
      if m.body.kind != Router {
        TypedExactly(registry, nodes, e, m, n);
      }
    }
  }

  /** Edge compatibility, outright. */
  lemma EdgesCompatibleExactly(registry: Registry, g: TaskGraph)
    requires DistinctIds(g.nodes)
    ensures EdgesCompatible(registry, g) <==> AllTyped(registry, g)
  {
    hide EndsFit, EdgeCompatible;
    forall e: Edge<Id>
      ensures EdgeCompatible(registry, g.nodes, e) <==> forall m, n ::
        (m in g.nodes && n in g.nodes && m.id == e.from && n.id == e.to && m.body.kind != Router) ==>
          EndsFit(registry, e, m, n)
    {
      CompatibleExactly(registry, g.nodes, e);
    }
  }

  /** Routers, outright: the decision schema, a label on every edge, and two edges
      with different labels. */
  lemma RoutersOkExactly(g: TaskGraph)
    ensures RoutersOk(g) <==> forall n :: n in g.nodes && n.body.kind == Router ==>
      && n.body.outputSchema == Some("RoutingDecision")
      && (forall e :: e in g.edges && e.from == n.id ==> "branch" in e.metadata && e.metadata["branch"] != "")
      && exists d, e :: d in g.edges && e in g.edges && d.from == n.id && e.from == n.id
           && "branch" in d.metadata && "branch" in e.metadata
           && d.metadata["branch"] != "" && e.metadata["branch"] != "" && d.metadata["branch"] != e.metadata["branch"]
  {
    hide Branches;
    forall n | n in g.nodes && n.body.kind == Router
      ensures |Branches(g.edges, n.id)| >= 2 <==>
        exists d, e :: d in g.edges && e in g.edges && d.from == n.id && e.from == n.id
          && "branch" in d.metadata && "branch" in e.metadata
          && d.metadata["branch"] != "" && e.metadata["branch"] != "" && d.metadata["branch"] != e.metadata["branch"]
    {
      TwoBranches(g.edges, n.id);
    }
  }

  lemma TwoOf<T>(s: set<T>)
    ensures |s| >= 2 <==> exists x, y :: x in s && y in s && x != y
  {
    if |s| >= 2 {
      var x :| x in s;
      assert |s - {x}| >= 1;
      var y :| y in s - {x};
    }
    if x, y :| x in s && y in s && x != y {
      assert {x, y} <= s;
      assert |s| == |s - {x, y}| + |{x, y}|;
    }
  }

  lemma TwoBranches(edges: seq<Edge<Id>>, id: Id)
    ensures |Branches(edges, id)| >= 2 <==>
      exists d, e :: d in edges && e in edges && d.from == id && e.from == id
        && "branch" in d.metadata && "branch" in e.metadata
        && d.metadata["branch"] != "" && e.metadata["branch"] != "" && d.metadata["branch"] != e.metadata["branch"]
  {
    var branches := Branches(edges, id);
    TwoOf(branches);
    if |branches| >= 2 {
      var x, y :| x in branches && y in branches && x != y;
      var d :| d in edges && d.from == id && !Missing(Branch(d)) && Branch(d).value == x;
      var e :| e in edges && e.from == id && !Missing(Branch(e)) && Branch(e).value == y;
      assert d.metadata["branch"] != e.metadata["branch"];
    }
    forall e | e in edges && e.from == id && "branch" in e.metadata && e.metadata["branch"] != ""
      ensures e.metadata["branch"] in branches
    {
      assert Branch(e).value in branches;
    }
  }

  /** Kinds and the final node, outright. */
  lemma NodesOkExactly(local: NodeBody -> bool, g: TaskGraph)
    ensures NodesOk(local, g) <==>
      && (forall n :: n in g.nodes ==> n.body.kind in {Intent, Tool, Model, Compress, Router, Expand, Final})
      && forall n :: n in g.nodes ==> local(n.body.(metadata := n.body.metadata - {"prompt"}))
    ensures HasTerminal(g) <==> exists n :: n in g.nodes && n.body.kind == Final
  {}
}
