/** What arrives at a node, edge by edge, said on the outputs of its upstreams, the
    schemas of the nodes and the registered transforms alone. */
module Inputs {
  import opened Sequences
  import opened TaskGraphs
  import opened RunStates
  import opened Schedulers
  import opened Transforms
  import opened Execution
  import opened Reachability
  import opened EdgeOrder

  /** The first piece on the port, or the first of all when none is on it. */
  ghost predicate IsPick(pieces: seq<Piece>, port: string, k: int) {
    && 0 <= k < |pieces|
    && (forall j :: 0 <= j < k ==> pieces[j].port != port)
    && (pieces[k].port == port || (k == 0 && forall j :: 0 <= j < |pieces| ==> pieces[j].port != port))
  }

  lemma {:induction false} FoundOnPort(pieces: seq<Piece>, port: string) returns (k: nat)
    requires exists i | 0 <= i < |pieces| :: pieces[i].port == port
    ensures k < |pieces| && PickFrom(pieces, port) == pieces[k].content && pieces[k].port == port
    ensures forall j :: 0 <= j < k ==> pieces[j].port != port
  {
    k := 0;
    if pieces[0].port != port {
      var i :| 0 <= i < |pieces| && pieces[i].port == port;
      assert pieces[1..][i - 1].port == port;
      var later := FoundOnPort(pieces[1..], port);
      k := later + 1;
      assert forall j :: 0 < j < k ==> pieces[j] == pieces[1..][j - 1];
    }
  }

  lemma PickExactly(pieces: seq<Piece>, port: string) returns (k: nat)
    requires pieces != []
    ensures IsPick(pieces, port, k) && Pick(pieces, port) == pieces[k].content
  {
    k := 0;
    if exists i | 0 <= i < |pieces| :: pieces[i].port == port {
      k := FoundOnPort(pieces, port);
    }
  }

  lemma PickIsOne(pieces: seq<Piece>, port: string, k: int, l: int)
    requires IsPick(pieces, port, k) && IsPick(pieces, port, l)
    ensures k == l
  {}

  /** The source's output schema, or RawText when it declares none or is unknown. */
  ghost predicate ReadWith(nodes: seq<Node>, id: Id, schema: string) {
    || (exists r :: r in nodes && r.id == id && r.body.outputSchema == Some(schema))
    || (schema == "RawText" && forall r :: r in nodes && r.id == id ==> r.body.outputSchema == None)
  }

  lemma ReadSchemaExactly(nodes: seq<Node>, id: Id)
    requires DistinctIds(nodes)
    ensures ReadWith(nodes, id, ReadSchema(nodes, id))
  {
    forall r | r in nodes && r.id == id ensures Lookup(nodes, id) == Some(r) {
      LookupDistinct(nodes, r);
    }
  }

  /** The content, read with the schema and passed through the edge's transform,
      if it has one, is the value. */
  ghost predicate Becomes(env: Env, schema: string, e: Edge<Id>, content: Content, v: Value) {
    && env.validate(schema, content).Ok?
    && var read := Value(schema, env.validate(schema, content).value);
    if e.transform == None || e.transform == Some("") then v == read
    else e.transform.value in env.registry && env.registry[e.transform.value].fn(read, e.metadata) == Ok(v)
  }

  lemma DeliverExactly(env: Env, schema: string, e: Edge<Id>, content: Content, v: Value)
    ensures Deliver(env, schema, e, content) == Ok(v) <==> Becomes(env, schema, e, content, v)
  {}

  /** When reading a content raises: its schema does, or the transform is unknown, or
      the transform does. */
  lemma DeliverRaises(env: Env, schema: string, e: Edge<Id>, content: Content)
    ensures var out := Deliver(env, schema, e, content);
      if !env.validate(schema, content).Ok? then SameException(env.validate(schema, content), out)
      else if e.transform == None || e.transform == Some("") then out.Ok?
      else if e.transform.value !in env.registry then out.Error?
      else out == env.registry[e.transform.value].fn(Value(schema, env.validate(schema, content).value), e.metadata)
  {}

  /** The edge brings the input x to the node. */
  ghost predicate Brings(env: Env, nodes: seq<Node>, views: Views, n: Node, e: Edge<Id>, x: Input) {
    && e.to == n.id && x.port == e.toPort
    && (forall r :: r in nodes && r.id == e.from ==> r.body.kind != Router)
    && e.from in views && views[e.from].outputs.Some?
    && exists k, schema ::
         && IsPick(views[e.from].outputs.value, e.fromPort, k) && ReadWith(nodes, e.from, schema)
         && Becomes(env, schema, e, views[e.from].outputs.value[k].content, x.value)
  }

  lemma SchemaIsOne(nodes: seq<Node>, id: Id, a: string, b: string)
    requires DistinctIds(nodes) && ReadWith(nodes, id, a) && ReadWith(nodes, id, b)
    ensures a == b
  {
    forall r, s | r in nodes && s in nodes && r.id == id && s.id == id ensures r == s {
      LookupDistinct(nodes, r);
      LookupDistinct(nodes, s);
    }
  }

  lemma RouterExactly(nodes: seq<Node>, id: Id)
    requires DistinctIds(nodes)
    ensures IsRouter(nodes, id) <==> !forall r :: r in nodes && r.id == id ==> r.body.kind != Router
  {
    forall r | r in nodes && r.id == id ensures Lookup(nodes, id) == Some(r) {
      LookupDistinct(nodes, r);
    }
  }

  /** One edge, from scratch: an output that cannot be loaded raises; with nothing
      to deliver nothing is added, unless the input is missing; otherwise the picked
      piece is, or raises. */
  lemma EdgeGathers(env: Env, nodes: seq<Node>, views: Views, e: Edge<Id>)
    ensures !IsRouter(nodes, e.from) && e.from in views && views[e.from].outputs == None ==>
      GatherEdge(env, nodes, views, e, NOTHING).Error?
    ensures var out := GatherEdge(env, nodes, views, e, NOTHING);
      var data := !IsRouter(nodes, e.from) && e.from in views && views[e.from].outputs.Some?
                  && views[e.from].outputs.value != [];
      && (out.Ok? && !data ==> out.value == NOTHING)
      && (!data && (IsRouter(nodes, e.from) || (e.from in views && views[e.from].outputs.Some?)) ==>
            (out.Ok? <==> !LacksInput(nodes, views, e)))
      && (data ==>
            var content := Pick(views[e.from].outputs.value, e.fromPort);
            var v := Deliver(env, ReadSchema(nodes, e.from), e, content);
            && (out.Ok? <==> v.Ok?) && (!v.Ok? ==> SameException(v, out))
            && (out.Ok? ==> out.value == Gathered([Input(e.toPort, v.value)], [env.digest(content)])))
  {
    hide Deliver, Pick, ReadSchema, IsRouter;
    assert forall v: Value :: Put([], e.toPort, v) == [Input(e.toPort, v)];
  }

  lemma AddedExactly(env: Env, nodes: seq<Node>, views: Views, n: Node, e: Edge<Id>, x: Input)
    requires DistinctIds(nodes) && Delivers(env, nodes, views, e, n)
    ensures x in Added(env, nodes, views, n, e).direct <==> Brings(env, nodes, views, n, e, x)
  {
    hide GatherEdge, Becomes, IsPick, ReadWith, Deliver, ReadSchema, Pick;
    EdgeGathers(env, nodes, views, e);
    RouterExactly(nodes, e.from);
    if e.to == n.id && !IsRouter(nodes, e.from) && e.from in views && views[e.from].outputs.Some? {
      var pieces := views[e.from].outputs.value;
      if pieces != [] {
        var k := PickExactly(pieces, e.fromPort);
        BringsExactly(env, nodes, views, n, e, x, k);
      } else {
        NoPick(e.fromPort);
      }
    }
  }

  lemma NoPick(port: string)
    ensures forall k :: !IsPick([], port, k)
  {}

  lemma BringsExactly(env: Env, nodes: seq<Node>, views: Views, n: Node, e: Edge<Id>, x: Input, k: nat)
    requires DistinctIds(nodes) && e.to == n.id && e.from in views && views[e.from].outputs.Some?
    requires forall r :: r in nodes && r.id == e.from ==> r.body.kind != Router
    requires IsPick(views[e.from].outputs.value, e.fromPort, k)
    ensures Brings(env, nodes, views, n, e, x) <==>
      x.port == e.toPort
      && Deliver(env, ReadSchema(nodes, e.from), e, views[e.from].outputs.value[k].content) == Ok(x.value)
  {
    hide Becomes, ReadWith, Deliver, ReadSchema;
    var pieces := views[e.from].outputs.value;
    ReadSchemaExactly(nodes, e.from);
    DeliverExactly(env, ReadSchema(nodes, e.from), e, pieces[k].content, x.value);
    if Brings(env, nodes, views, n, e, x) {
      var l, schema :| IsPick(pieces, e.fromPort, l) && ReadWith(nodes, e.from, schema)
        && Becomes(env, schema, e, pieces[l].content, x.value);
      PickIsOne(pieces, e.fromPort, k, l);
      SchemaIsOne(nodes, e.from, schema, ReadSchema(nodes, e.from));
    }
  }

  /** What a node gathers when its data edges arrive at different ports: exactly
      what its edges bring. */
  lemma InputsExactly(env: Env, nodes: seq<Node>, edges: seq<Edge<Id>>, views: Views, n: Node, x: Input)
    requires DistinctIds(nodes) && PortsDiffer(nodes, edges, n) && Gather(env, nodes, edges, views, n).Ok?
    ensures x in Gather(env, nodes, edges, views, n).value.direct <==>
      exists e :: e in edges && Brings(env, nodes, views, n, e, x)
  {
    hide Added, GatherFrom, Brings, Delivers;
    GatherIsContributions(env, nodes, edges, views, n, NOTHING);
    NothingFirst(Total(env, nodes, edges, views, n));
    var f := Inputs(env, nodes, views, n);
    CollectMembers(f, edges, x);
    forall e | e in edges ensures x in f(e) <==> Brings(env, nodes, views, n, e, x) {
      AddedExactly(env, nodes, views, n, e, x);
    }
  }

  /** A second input at a port takes the place of the first. */
  lemma {:induction false} PutKeepsPlaces(direct: seq<Input>, port: string, value: Value)
    requires exists i :: 0 <= i < |direct| && direct[i].port == port
    ensures var after := Put(direct, port, value);
      |after| == |direct| && forall i :: 0 <= i < |direct| ==> after[i].port == direct[i].port
  {
    if direct[0].port != port {
      var i :| 0 <= i < |direct| && direct[i].port == port;
      assert direct[1..][i - 1].port == port;
      PutKeepsPlaces(direct[1..], port, value);
    }
  }
}
