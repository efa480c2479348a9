/** Types along edges: what a validated graph delivers to a port, and the one
    kind of edge on which validation does not protect the port's type. */
module Typing {
  import opened TaskGraphs
  import opened RunStates
  import opened Schedulers
  import opened Transforms
  import opened Execution
  import opened Reachability
  import opened Pruning
  import opened Validation

  function PortType(nodes: seq<Node>, e: Edge<Id>): Option<string> {
    match Lookup(nodes, e.to)
    case Some(dst) => PortSchema(dst.body.ports, e.toPort, "input")
    case None => None
  }

  /** What travels along the edge: the schema the source's content is read with,
      or the one its transform produces. */
  function SentSchema(registry: Registry, nodes: seq<Node>, e: Edge<Id>): Option<string> {
    match TransformOf(e)
    case None => Some(ReadSchema(nodes, e.from))
    case Some(name) => if name in registry then Some(registry[name].toSchema) else None
  }

  predicate TypeFits(registry: Registry, nodes: seq<Node>, e: Edge<Id>) {
    PortType(nodes, e).Some? && PortType(nodes, e) == SentSchema(registry, nodes, e)
  }

  /** On every graph, validated or not: the delivered value has the port's schema
      exactly when what travels along the edge has. */
  lemma DeliveredTypeExactly(env: Env, nodes: seq<Node>, e: Edge<Id>, content: Content)
    requires WellTyped(env.registry) && Deliver(env, ReadSchema(nodes, e.from), e, content).Ok?
    ensures Some(Deliver(env, ReadSchema(nodes, e.from), e, content).value.schema) == PortType(nodes, e)
       <==> TypeFits(env.registry, nodes, e)
  {}

  // ----- what validation contributes -----

  /** The ports and edges passed validation, against a registry whose transforms
      have names. */
  ghost predicate Validated(registry: Registry, g: TaskGraph) {
    "" !in registry && PortsSatisfied(g) && EdgesCompatible(registry, g)
  }

  /** No port leaves its schema empty; normalisation sees to it. */
  ghost predicate PortsTyped(nodes: seq<Node>) {
    forall n, p :: n in nodes && p in n.body.ports ==> p.schemaRef != ""
  }

  ghost predicate Declares(p: Port, name: string, direction: string, schema: string) {
    p.name == name && p.direction == direction && p.schemaRef == schema
  }

  lemma {:induction false} PortSchemaOfMember(ports: seq<Port>, name: string, direction: string)
    requires PortSchema(ports, name, direction).Some?
    ensures exists p :: p in ports && Declares(p, name, direction, PortSchema(ports, name, direction).value)
  {
    if !(ports[0].name == name && ports[0].direction == direction) {
      PortSchemaOfMember(ports[1..], name, direction);
      var p :| p in ports[1..] && Declares(p, name, direction, PortSchema(ports[1..], name, direction).value);
      assert p in ports;
    } else {
      assert Declares(ports[0], name, direction, ports[0].schemaRef);
    }
  }

  /** The schema the source's port declares. */
  function FromType(nodes: seq<Node>, e: Edge<Id>): Option<string> {
    match Lookup(nodes, e.from)
    case Some(src) => PortSchema(src.body.ports, e.fromPort, "output")
    case None => None
  }

  lemma EndsAreTyped(g: TaskGraph, e: Edge<Id>)
    requires PortsSatisfied(g) && PortsTyped(g.nodes) && e in g.edges
    ensures Lookup(g.nodes, e.from).Some? && !Missing(FromType(g.nodes, e))
    ensures Lookup(g.nodes, e.to).Some? && !Missing(PortType(g.nodes, e))
  {
    assert EdgeFits(g.nodes, e);
    var src, dst := Lookup(g.nodes, e.from).value, Lookup(g.nodes, e.to).value;
    PortSchemaOfMember(src.body.ports, e.fromPort, "output");
    PortSchemaOfMember(dst.body.ports, e.toPort, "input");
  }

  /** Validation compares declared port schemas, gathering reads the node's
      schema: without a transform the edge fits exactly when the source's port
      repeats the latter, with one exactly when the ports' schemas differ or the
      transform produces the port's. */
  lemma ValidatedFitsExactly(registry: Registry, g: TaskGraph, e: Edge<Id>)
    requires Validated(registry, g) && PortsTyped(g.nodes) && e in g.edges && !IsRouter(g.nodes, e.from)
    ensures TransformOf(e).None? ==>
      (TypeFits(registry, g.nodes, e) <==> FromType(g.nodes, e) == Some(ReadSchema(g.nodes, e.from)))
    ensures TransformOf(e).Some? ==> TransformOf(e).value in registry
    ensures TransformOf(e).Some? ==>
      (TypeFits(registry, g.nodes, e) <==>
         FromType(g.nodes, e) != PortType(g.nodes, e)
         || PortType(g.nodes, e) == Some(registry[TransformOf(e).value].toSchema))
  {
    EndsAreTyped(g, e);
    assert EdgeCompatible(registry, g.nodes, e);
  }

  /** Every port repeats its node's schema of the same direction. */
  ghost predicate RepeatsSchemas(body: NodeBody) {
    forall p :: p in body.ports ==>
      && p.schemaRef != ""
      && (p.direction == "output" ==> body.outputSchema == Some(p.schemaRef))
      && (p.direction == "input" ==> body.inputSchema == Some(p.schemaRef))
  }

  ghost predicate PortsRepeatSchemas(nodes: seq<Node>) {
    forall n :: n in nodes ==> RepeatsSchemas(n.body)
  }

  /** Where ports repeat the schemas, every edge fits that has no transform or
      joins different schemas. */
  lemma RepeatedSchemasFit(registry: Registry, g: TaskGraph, e: Edge<Id>)
    requires Validated(registry, g) && PortsRepeatSchemas(g.nodes) && e in g.edges && !IsRouter(g.nodes, e.from)
    requires TransformOf(e).None? || PortType(g.nodes, e) != Some(ReadSchema(g.nodes, e.from))
    ensures TypeFits(registry, g.nodes, e)
  {
    EndsAreTyped(g, e);
    var src := Lookup(g.nodes, e.from).value;
    PortSchemaOfMember(src.body.ports, e.fromPort, "output");
    ValidatedFitsExactly(registry, g, e);
  }

  // ----- runs -----

  ghost predicate WellTypedInputs(n: Node, direct: seq<Input>) {
    forall i :: 0 <= i < |direct| ==> PortSchema(n.body.ports, direct[i].port, "input") == Some(direct[i].value.schema)
  }

  lemma {:induction false} PutKeepsTypes(n: Node, direct: seq<Input>, port: string, value: Value)
    requires WellTypedInputs(n, direct) && PortSchema(n.body.ports, port, "input") == Some(value.schema)
    ensures WellTypedInputs(n, Put(direct, port, value))
  {
    if direct != [] && direct[0].port != port {
      PutKeepsTypes(n, direct[1..], port, value);
    }
  }

  ghost predicate AllFit(registry: Registry, nodes: seq<Node>, edges: seq<Edge<Id>>) {
    forall e :: e in edges && !IsRouter(nodes, e.from) ==> TypeFits(registry, nodes, e)
  }

  lemma {:induction false} GatheredTypes(env: Env, nodes: seq<Node>, edges: seq<Edge<Id>>, views: Views, n: Node,
                                         acc: Gathered)
    requires WellTyped(env.registry) && DistinctIds(nodes) && n in nodes
    requires AllFit(env.registry, nodes, edges) && WellTypedInputs(n, acc.direct)
    ensures var out := GatherFrom(env, nodes, edges, views, n, acc);
      out.Ok? ==> WellTypedInputs(n, out.value.direct)
  {
    if edges != [] {
      var e := edges[0];
      var step := if e.to == n.id then GatherEdge(env, nodes, views, e, acc) else Ok(acc);
      if step.Ok? {
        if e.to == n.id && step.value != acc {
          var content := Pick(views[e.from].outputs.value, e.fromPort);
          LookupDistinct(nodes, n);
          DeliveredTypeExactly(env, nodes, e, content);
          PutKeepsTypes(n, acc.direct, e.toPort, Deliver(env, ReadSchema(nodes, e.from), e, content).value);
        }
        GatheredTypes(env, nodes, edges[1..], views, n, step.value);
      }
    }
  }

  ghost predicate GathersPortTypes(env: Env, s: Vm, n: Node)
    requires n.id in AfterSkips(s).states
  {
    var start := Started(AfterSkips(s), n);
    var out := Gather(env, start.nodes, start.edges, ViewsOf(start), n);
    out.Ok? ==> WellTypedInputs(n, out.value.direct)
  }

  /** Type preservation: where every edge fits, everything gathered for a node has
      the schema of the port it arrives at, in every reachable state. */
  lemma RunDeliversPortTypes(env: Env, tr: seq<Vm>, ns: seq<Node>, i: nat, n: Node)
    requires IsRun(env, tr, ns) && ExpandFree(tr[0].nodes) && i < |tr| && Chosen(tr[i], n)
    requires WellTyped(env.registry) && AllFit(env.registry, tr[0].nodes, tr[0].edges)
    ensures n.id in AfterSkips(tr[i]).states && GathersPortTypes(env, tr[i], n)
  {
    hide Steps, AllFit;
    GraphIsFixed(env, tr, ns, i);
    var start := Started(AfterSkips(tr[i]), n);
    GatheredTypes(env, tr[0].nodes, start.edges, ViewsOf(start), n, Gathered([], []));
  }

  /** On a validated graph whose ports repeat their nodes' schemas, transforms on
      edges between different schemas only are enough. */
  lemma RepeatedSchemasArePreserved(env: Env, tr: seq<Vm>, ns: seq<Node>, i: nat, n: Node)
    requires IsRun(env, tr, ns) && ExpandFree(tr[0].nodes) && i < |tr| && Chosen(tr[i], n)
    requires Validated(env.registry, TaskGraph(tr[0].nodes, tr[0].edges)) && WellTyped(env.registry)
    requires PortsRepeatSchemas(tr[0].nodes)
    requires forall e :: e in tr[0].edges && TransformOf(e).Some? ==>
      PortType(tr[0].nodes, e) != Some(ReadSchema(tr[0].nodes, e.from))
    ensures n.id in AfterSkips(tr[i]).states && GathersPortTypes(env, tr[i], n)
  {
    hide IsRun, Chosen, Validated, PortsRepeatSchemas, TypeFits, WellTyped, GathersPortTypes;
    var g := TaskGraph(tr[0].nodes, tr[0].edges);
    forall e | e in g.edges && !IsRouter(g.nodes, e.from) ensures TypeFits(env.registry, g.nodes, e) {
      RepeatedSchemasFit(env.registry, g, e);
    }
    RunDeliversPortTypes(env, tr, ns, i, n);
  }
}
