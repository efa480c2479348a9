/** Edges are stored under random identifiers and read back in their order. When
    that order does not show: every node's data edges arrive at different ports,
    and its handler does not depend on the order of its inputs, or it has at most
    one data edge. */
module EdgeOrder {
  import opened Sequences
  import opened TaskGraphs
  import opened Acyclicity
  import opened ArtifactCache
  import opened RunStates
  import opened Schedulers
  import opened Transforms
  import opened Execution
  import opened Executors
  import opened Completion
  import opened Denotation

  // ----- what one edge contributes -----

  const NOTHING := Gathered([], [])

  predicate Carries(nodes: seq<Node>, e: Edge<Id>, n: Node) {
    e.to == n.id && !IsRouter(nodes, e.from)
  }

  predicate Delivers(env: Env, nodes: seq<Node>, views: Views, e: Edge<Id>, n: Node) {
    e.to == n.id ==> GatherEdge(env, nodes, views, e, NOTHING).Ok?
  }

  /** What the edge adds: at most one input and the digest of what was read. */
  function Added(env: Env, nodes: seq<Node>, views: Views, n: Node, e: Edge<Id>): (g: Gathered)
    ensures g.direct == [] || (|g.direct| == 1 && g.direct[0].port == e.toPort && Carries(nodes, e, n))
    ensures |g.digests| == |g.direct|
  {
    if e.to == n.id && GatherEdge(env, nodes, views, e, NOTHING).Ok?
    then GatherEdge(env, nodes, views, e, NOTHING).value
    else NOTHING
  }

  function Inputs(env: Env, nodes: seq<Node>, views: Views, n: Node): Edge<Id> -> seq<Input> {
    e => Added(env, nodes, views, n, e).direct
  }

  function Reads(env: Env, nodes: seq<Node>, views: Views, n: Node): Edge<Id> -> seq<int> {
    e => Added(env, nodes, views, n, e).digests
  }

  lemma EdgeFromScratch(env: Env, nodes: seq<Node>, views: Views, e: Edge<Id>, n: Node, acc: Gathered)
    requires e.to == n.id
    ensures var step, g := GatherEdge(env, nodes, views, e, acc), Added(env, nodes, views, n, e);
      && (step.Ok? <==> Delivers(env, nodes, views, e, n))
      && (step.Ok? ==>
            && step.value.digests == acc.digests + g.digests
            && step.value.direct == if g.direct == [] then acc.direct
                                    else Put(acc.direct, g.direct[0].port, g.direct[0].value))
  {}

  lemma {:induction false} PutNew(direct: seq<Input>, port: string, value: Value)
    requires forall i :: 0 <= i < |direct| ==> direct[i].port != port
    ensures Put(direct, port, value) == direct + [Input(port, value)]
  {
    if direct != [] {
      PutNew(direct[1..], port, value);
    }
  }

  /** The later of two edges into one port wins: there the order does show. */
  lemma {:induction false} SharedPortKeepsTheLast(direct: seq<Input>, port: string, first: Value, last: Value)
    ensures Put(Put(direct, port, first), port, last) == Put(direct, port, last)
  {
    if direct != [] && direct[0].port != port {
      SharedPortKeepsTheLast(direct[1..], port, first, last);
      assert ([direct[0]] + Put(direct[1..], port, first))[1..] == Put(direct[1..], port, first);
    }
  }

  ghost predicate PortsDiffer(nodes: seq<Node>, edges: seq<Edge<Id>>, n: Node) {
    forall i, j :: 0 <= i < j < |edges| && Carries(nodes, edges[i], n) && Carries(nodes, edges[j], n) ==>
      edges[i].toPort != edges[j].toPort
  }

  ghost predicate AllDeliver(env: Env, nodes: seq<Node>, edges: seq<Edge<Id>>, views: Views, n: Node) {
    forall e :: e in edges ==> Delivers(env, nodes, views, e, n)
  }

  /** No data edge arrives at a port that has its input already. */
  ghost predicate PortsFree(nodes: seq<Node>, edges: seq<Edge<Id>>, n: Node, direct: seq<Input>) {
    forall e, i :: e in edges && Carries(nodes, e, n) && 0 <= i < |direct| ==> direct[i].port != e.toPort
  }

  lemma StepKeepsPortsFree(env: Env, nodes: seq<Node>, edges: seq<Edge<Id>>, views: Views, n: Node, acc: Gathered)
    requires edges != [] && edges[0].to == n.id
    requires PortsDiffer(nodes, edges, n) && PortsFree(nodes, edges, n, acc.direct)
    requires Delivers(env, nodes, views, edges[0], n)
    ensures var step, g := GatherEdge(env, nodes, views, edges[0], acc), Added(env, nodes, views, n, edges[0]);
      && step.Ok? && step.value == Gathered(acc.direct + g.direct, acc.digests + g.digests)
      && PortsFree(nodes, edges[1..], n, step.value.direct)
  {
    hide GatherEdge, Put, Delivers;
    var c := Added(env, nodes, views, n, edges[0]).direct;
    EdgeFromScratch(env, nodes, views, edges[0], n, acc);
    if c != [] {
      assert edges[0] in edges;
      PutNew(acc.direct, c[0].port, c[0].value);
      assert c == [Input(c[0].port, c[0].value)];
    }
  }

  /** What the edges add, in their order. */
  function Total(env: Env, nodes: seq<Node>, edges: seq<Edge<Id>>, views: Views, n: Node): Gathered {
    Gathered(Collect(Inputs(env, nodes, views, n), edges), Collect(Reads(env, nodes, views, n), edges))
  }

  function Plus(a: Gathered, b: Gathered): Gathered {
    Gathered(a.direct + b.direct, a.digests + b.digests)
  }

  lemma PlusIsAssociative(a: Gathered, b: Gathered, c: Gathered)
    ensures Plus(Plus(a, b), c) == Plus(a, Plus(b, c))
  {}

  lemma TotalUnfolds(env: Env, nodes: seq<Node>, edges: seq<Edge<Id>>, views: Views, n: Node)
    ensures edges == [] ==> Total(env, nodes, edges, views, n) == NOTHING
    ensures edges != [] ==>
      Total(env, nodes, edges, views, n)
        == Plus(Added(env, nodes, views, n, edges[0]), Total(env, nodes, edges[1..], views, n))
  {
    hide Added;
  }

  /** Gathering succeeds when every edge delivers, and collects what they add in
      their order. */
  lemma {:induction false} GatherIsContributions(env: Env, nodes: seq<Node>, edges: seq<Edge<Id>>, views: Views,
                                                 n: Node, acc: Gathered)
    requires PortsDiffer(nodes, edges, n) && PortsFree(nodes, edges, n, acc.direct)
    ensures var out := GatherFrom(env, nodes, edges, views, n, acc);
      && (out.Ok? <==> AllDeliver(env, nodes, edges, views, n))
      && (out.Ok? ==> out.value == Plus(acc, Total(env, nodes, edges, views, n)))
  {
    hide GatherEdge, Put, Carries, Delivers, Added, Total, PortsDiffer, PortsFree, AllDeliver, Plus;
    TotalUnfolds(env, nodes, edges, views, n);
    if edges == [] {
      NothingMore(env, nodes, views, n, acc);
    } else {
      var e := edges[0];
      var rest := Total(env, nodes, edges[1..], views, n);
      TailPorts(nodes, edges, n, acc.direct);
      HeadAndTailDeliver(env, nodes, edges, views, n);
      PlusIsAssociative(acc, Added(env, nodes, views, n, e), rest);
      if e.to != n.id {
        SilentEdge(env, nodes, views, e, n, acc);
        GatherIsContributions(env, nodes, edges[1..], views, n, acc);
      } else {
        EdgeFromScratch(env, nodes, views, e, n, acc);
        if Delivers(env, nodes, views, e, n) {
          StepKeepsPortsFree(env, nodes, edges, views, n, acc);
          StepIsPlus(env, nodes, edges, views, n, acc);
          GatherIsContributions(env, nodes, edges[1..], views, n, GatherEdge(env, nodes, views, e, acc).value);
        }
      }
    }
  }

  lemma NothingMore(env: Env, nodes: seq<Node>, views: Views, n: Node, acc: Gathered)
    ensures AllDeliver(env, nodes, [], views, n) && Plus(acc, NOTHING) == acc
  {}

  lemma StepIsPlus(env: Env, nodes: seq<Node>, edges: seq<Edge<Id>>, views: Views, n: Node, acc: Gathered)
    requires edges != [] && edges[0].to == n.id
    requires PortsDiffer(nodes, edges, n) && PortsFree(nodes, edges, n, acc.direct)
    requires Delivers(env, nodes, views, edges[0], n)
    ensures GatherEdge(env, nodes, views, edges[0], acc) == Ok(Plus(acc, Added(env, nodes, views, n, edges[0])))
  {
    hide GatherEdge, Added, Delivers, PortsDiffer, PortsFree;
    StepKeepsPortsFree(env, nodes, edges, views, n, acc);
  }

  lemma SilentEdge(env: Env, nodes: seq<Node>, views: Views, e: Edge<Id>, n: Node, acc: Gathered)
    requires e.to != n.id
    ensures Delivers(env, nodes, views, e, n) && Plus(acc, Added(env, nodes, views, n, e)) == acc
  {}

  lemma TailPorts(nodes: seq<Node>, edges: seq<Edge<Id>>, n: Node, direct: seq<Input>)
    requires edges != [] && PortsDiffer(nodes, edges, n) && PortsFree(nodes, edges, n, direct)
    ensures PortsDiffer(nodes, edges[1..], n) && PortsFree(nodes, edges[1..], n, direct)
  {
    hide Carries;
  }

  lemma HeadAndTailDeliver(env: Env, nodes: seq<Node>, edges: seq<Edge<Id>>, views: Views, n: Node)
    requires edges != []
    ensures AllDeliver(env, nodes, edges, views, n) <==>
      Delivers(env, nodes, views, edges[0], n) && AllDeliver(env, nodes, edges[1..], views, n)
  {
    hide Delivers;
    assert edges == [edges[0]] + edges[1..];
  }

  // ----- permuting the edges -----

  lemma PortsDifferPermute(nodes: seq<Node>, edges: seq<Edge<Id>>, order: seq<Edge<Id>>, n: Node)
    requires multiset(edges) == multiset(order) && PortsDiffer(nodes, edges, n)
    ensures PortsDiffer(nodes, order, n)
  {
    hide Carries;
    SameMembers(edges, order);
    forall i, j | 0 <= i < j < |order| && Carries(nodes, order[i], n) && Carries(nodes, order[j], n)
      ensures order[i].toPort != order[j].toPort
    {
      assert order[i] in order && order[j] in order;
      if order[i] == order[j] {
        RepeatedCounts(order, i, j);
        var a, b := TwicePositions(edges, order[i]);
      } else {
        var a :| 0 <= a < |edges| && edges[a] == order[i];
        var b :| 0 <= b < |edges| && edges[b] == order[j];
        assert a < b || b < a;
      }
    }
  }

  // ----- handlers -----

  ghost predicate Alike(a: Outcome<Value>, b: Outcome<Value>) {
    (a.Ok? <==> b.Ok?) && (a.Ok? ==> a == b)
  }

  /** The handler reads its inputs as a dictionary, by port. */
  ghost predicate AnyOrder(env: Env, n: Node) {
    forall a, b :: multiset(a) == multiset(b) ==> Alike(Handle(env, n, a), Handle(env, n, b))
  }

  ghost predicate OneInput(nodes: seq<Node>, edges: seq<Edge<Id>>, n: Node) {
    forall i, j :: 0 <= i < j < |edges| ==> !(Carries(nodes, edges[i], n) && Carries(nodes, edges[j], n))
  }

  ghost predicate OrderFree(env: Env, nodes: seq<Node>, edges: seq<Edge<Id>>, n: Node) {
    PortsDiffer(nodes, edges, n) && (AnyOrder(env, n) || OneInput(nodes, edges, n))
  }

  lemma {:induction false} OneContribution(env: Env, nodes: seq<Node>, edges: seq<Edge<Id>>, views: Views, n: Node)
    requires OneInput(nodes, edges, n)
    ensures var g := Total(env, nodes, edges, views, n);
      && |g.direct| == |g.digests| <= 1
      && (g.direct != [] ==> exists e :: e in edges && Carries(nodes, e, n))
  {
    hide Added, Carries, Total;
    TotalUnfolds(env, nodes, edges, views, n);
    if edges != [] {
      assert edges == [edges[0]] + edges[1..];
      OneContribution(env, nodes, edges[1..], views, n);
    }
  }

  /** Permuted edges gather the same inputs and digests in another order. */
  lemma GatheredPermute(env: Env, nodes: seq<Node>, edges: seq<Edge<Id>>, order: seq<Edge<Id>>, views: Views, n: Node)
    requires multiset(edges) == multiset(order) && PortsDiffer(nodes, edges, n)
    ensures var a, b := Gather(env, nodes, edges, views, n), Gather(env, nodes, order, views, n);
      && (a.Ok? <==> b.Ok?)
      && (a.Ok? ==> multiset(a.value.direct) == multiset(b.value.direct)
                    && multiset(a.value.digests) == multiset(b.value.digests))
      && (a.Ok? ==> a.value == Total(env, nodes, edges, views, n))
  {
    hide GatherFrom, Delivers, Carries, Inputs, Reads;
    SameMembers(edges, order);
    PortsDifferPermute(nodes, edges, order, n);
    GatherIsContributions(env, nodes, edges, views, n, NOTHING);
    GatherIsContributions(env, nodes, order, views, n, NOTHING);
    CollectPermute(Inputs(env, nodes, views, n), edges, order);
    CollectPermute(Reads(env, nodes, views, n), edges, order);
    NothingFirst(Total(env, nodes, edges, views, n));
    NothingFirst(Total(env, nodes, order, views, n));
  }

  lemma NothingFirst(g: Gathered)
    ensures Plus(NOTHING, g) == g
  {}

  /** What the node's handler makes of the gathered inputs is the same. */
  lemma GatheredAlike(env: Env, nodes: seq<Node>, edges: seq<Edge<Id>>, order: seq<Edge<Id>>, views: Views, n: Node)
    requires multiset(edges) == multiset(order) && OrderFree(env, nodes, edges, n)
    ensures var a, b := Gather(env, nodes, edges, views, n), Gather(env, nodes, order, views, n);
      && (a.Ok? <==> b.Ok?)
      && (a.Ok? ==> Alike(Handle(env, n, a.value.direct), Handle(env, n, b.value.direct)))
  {
    hide Gather, Handle, Total, PortsDiffer;
    GatheredPermute(env, nodes, edges, order, views, n);
    var a, b := Gather(env, nodes, edges, views, n), Gather(env, nodes, order, views, n);
    if a.Ok? && OneInput(nodes, edges, n) {
      OneContribution(env, nodes, edges, views, n);
      ShortPermutation(a.value.direct, b.value.direct);
    }
  }

  lemma RulesIgnoreEdgeOrder(nodes: seq<Node>, edges: seq<Edge<Id>>, order: seq<Edge<Id>>, views: Views, n: Node)
    requires forall e :: e in edges <==> e in order
    ensures Skippable(nodes, edges, views, n) == Skippable(nodes, order, views, n)
    ensures UpstreamComplete(edges, views, n) == UpstreamComplete(order, views, n)
  {}

  lemma OutcomeIgnoresEdgeOrder(env: Env, nodes: seq<Node>, edges: seq<Edge<Id>>, order: seq<Edge<Id>>, up: Views,
                                n: Node)
    requires multiset(edges) == multiset(order) && OrderFree(env, nodes, edges, n)
    ensures Outcome1(env, nodes, edges, up, n) == Outcome1(env, nodes, order, up, n)
  {
    hide Gather, Handle, Skippable, UpstreamComplete, OrderFree;
    SameMembers(edges, order);
    RulesIgnoreEdgeOrder(nodes, edges, order, up, n);
    GatheredAlike(env, nodes, edges, order, up, n);
  }

  ghost predicate AllOrderFree(env: Env, nodes: seq<Node>, edges: seq<Edge<Id>>) {
    forall n :: n in nodes ==> OrderFree(env, nodes, edges, n)
  }

  /** The meaning of a graph does not depend on the order of its edges. */
  lemma {:induction false} DenoteIgnoresEdgeOrder(env: Env, nodes: seq<Node>, edges: seq<Edge<Id>>,
                                                  order: seq<Edge<Id>>, rank: Id -> nat, id: Id)
    requires multiset(edges) == multiset(order) && AllOrderFree(env, nodes, edges)
    requires Ranked(edges, rank) && Ranked(order, rank)
    ensures Denote(env, nodes, edges, rank, id) == Denote(env, nodes, order, rank, id)
    decreases rank(id)
  {
    hide Outcome1, OrderFree;
    SameMembers(edges, order);
    if Lookup(nodes, id).Some? {
      var n := Lookup(nodes, id).value;
      forall u | u in Upstream(edges, id)
        ensures Denote(env, nodes, edges, rank, u) == Denote(env, nodes, order, rank, u)
      {
        DenoteIgnoresEdgeOrder(env, nodes, edges, order, rank, u);
      }
      assert Upstream(edges, id) == Upstream(order, id);
      var up := Upstreams(env, nodes, edges, rank, id);
      assert up == Upstreams(env, nodes, order, rank, id);
      OutcomeIgnoresEdgeOrder(env, nodes, edges, order, up, n);
    }
  }

  // ----- runs -----

  /** A lookup ignores the order of the digests. */
  lemma FindIgnoresOrder(store: ArtifactStore, key: CacheKey, a: seq<int>, b: seq<int>)
    requires multiset(a) == multiset(b)
    ensures Find(store, key, a) == Find(store, key, b)
  {
    SortedIsCanonical(a, b);
  }

  lemma ReorderedEdgesHitsAgree(env: Env, vm: Vm, order: seq<Edge<Id>>, n: Node)
    requires multiset(vm.edges) == multiset(order) && OrderFree(env, vm.nodes, vm.edges, n) && HitsAgree(env, vm, n)
    ensures HitsAgree(env, vm.(edges := order), n)
  {
    hide Gather, Find, Handle, OrderFree;
    forall views: Views | AllowCache(n.body)
      ensures var gathered := Gather(env, vm.nodes, order, views, n);
        gathered.Ok? && Find(vm.store, KeyOf(n.body), gathered.value.digests).Some? ==>
          Genuine(env, n, gathered.value.direct, Find(vm.store, KeyOf(n.body), gathered.value.digests).value)
    {
      OrderFreePorts(env, vm.nodes, vm.edges, n);
      GatheredPermute(env, vm.nodes, vm.edges, order, views, n);
      GatheredAlike(env, vm.nodes, vm.edges, order, views, n);
      var a, b := Gather(env, vm.nodes, vm.edges, views, n), Gather(env, vm.nodes, order, views, n);
      if b.Ok? {
        FindIgnoresOrder(vm.store, KeyOf(n.body), a.value.digests, b.value.digests);
      }
    }
  }

  lemma OrderFreePorts(env: Env, nodes: seq<Node>, edges: seq<Edge<Id>>, n: Node)
    requires OrderFree(env, nodes, edges, n)
    ensures PortsDiffer(nodes, edges, n)
  {}

  lemma ReorderedEdgesAreWarm(env: Env, vm: Vm, order: seq<Edge<Id>>)
    requires Warm(env, vm) && multiset(vm.edges) == multiset(order) && AllOrderFree(env, vm.nodes, vm.edges)
    ensures Warm(env, vm.(edges := order))
  {
    hide HitsAgree, OrderFree;
    var other := vm.(edges := order);
    assert ViewsOf(other) == ViewsOf(vm);
    forall n | n in other.nodes && IsPending(ViewsOf(other), n) ensures HitsAgree(env, other, n) {
      ReorderedEdgesHitsAgree(env, vm, order, n);
    }
  }

  lemma ReorderedEdgesAreAccepted(vm: Vm, order: seq<Edge<Id>>, rank: Id -> nat)
    requires Accepted(vm, rank) && multiset(vm.edges) == multiset(order)
    ensures Accepted(vm.(edges := order), rank)
  {
    SameMembers(vm.edges, order);
  }

  lemma EdgesFailAlike(env: Env, vm: Vm, order: seq<Edge<Id>>, rank: Id -> nat)
    requires Ranked(vm.edges, rank) && Ranked(order, rank)
    requires multiset(vm.edges) == multiset(order) && AllOrderFree(env, vm.nodes, vm.edges)
    ensures NothingFails(env, vm, rank) <==> NothingFails(env, vm.(edges := order), rank)
  {
    hide Denote, AllOrderFree;
    forall id ensures Denote(env, vm.nodes, vm.edges, rank, id) == Denote(env, vm.nodes, order, rank, id) {
      DenoteIgnoresEdgeOrder(env, vm.nodes, vm.edges, order, rank, id);
    }
  }

  /** The order in which the edges are read changes neither whether the run
      returns nor what it returns. */
  lemma EdgeOrderIsIrrelevant(env: Env, vm: Vm, order: seq<Edge<Id>>, rank: Id -> nat, n: Node)
    requires Accepted(vm, rank) && Warm(env, vm) && n in vm.nodes
    requires multiset(vm.edges) == multiset(order) && AllOrderFree(env, vm.nodes, vm.edges)
    ensures Accepted(vm.(edges := order), rank)
    ensures RunFrom(env, vm).1.Returned? <==> RunFrom(env, vm.(edges := order)).1.Returned?
    ensures RunFrom(env, vm).1.Returned? ==>
      var a, b := ViewsOf(RunFrom(env, vm).0), ViewsOf(RunFrom(env, vm.(edges := order)).0);
      n.id in a && n.id in b && a[n.id] == b[n.id]
  {
    hide Warm, Denote, AllOrderFree, RunFrom, NothingFails;
    var other := vm.(edges := order);
    ReorderedEdgesAreAccepted(vm, order, rank);
    ReorderedEdgesAreWarm(env, vm, order);
    EdgesFailAlike(env, vm, order, rank);
    ReturnsIffNothingFails(env, vm, rank);
    ReturnsIffNothingFails(env, other, rank);
    if RunFrom(env, vm).1.Returned? {
      RunComputesDenotation(env, vm, rank, n);
      RunComputesDenotation(env, other, rank, n);
      DenoteIgnoresEdgeOrder(env, vm.nodes, vm.edges, order, rank, n.id);
    }
  }
}
