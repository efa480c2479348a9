/** Every turn of the executor lowers the weight of what is still pending, so a
    run ends on every graph: cyclic, or growing by requests within requests. */
module Termination {
  import opened TaskGraphs
  import opened RunStates
  import opened Schedulers
  import opened Expansion
  import opened Execution

  /** Node identifiers are distinct and known to the run; the generator's next
      identifiers are not in use. */
  ghost predicate Sane(vm: Vm) {
    && DistinctIds(vm.nodes)
    && (forall n :: n in vm.nodes ==> n.id in vm.states)
    && forall k: nat :: k >= vm.nextId ==> FreshId(k) !in vm.states && FreshId(k) !in vm.store.artifacts
  }

  function Weigh(vm: Vm): nat {
    PendingWeight(vm.nodes, vm.states)
  }

  predicate PendingIn(states: map<Id, NodeState>, id: Id) {
    id in states && states[id].status.Pending?
  }

  lemma {:induction false} WeightIsMonotone(nodes: seq<Node>, a: map<Id, NodeState>, b: map<Id, NodeState>)
    requires forall n :: n in nodes && PendingIn(a, n.id) ==> PendingIn(b, n.id)
    ensures PendingWeight(nodes, a) <= PendingWeight(nodes, b)
  {
    if nodes != [] {
      WeightIsMonotone(nodes[..|nodes| - 1], a, b);
    }
  }

  lemma {:induction false} LeavingPendingIsLighter(nodes: seq<Node>, a: map<Id, NodeState>, b: map<Id, NodeState>,
                                                   n: Node)
    requires n in nodes && PendingIn(b, n.id) && !PendingIn(a, n.id)
    requires forall m :: m in nodes && PendingIn(a, m.id) ==> PendingIn(b, m.id)
    ensures PendingWeight(nodes, a) + Weight(n.body) <= PendingWeight(nodes, b)
  {
    var front, last := nodes[..|nodes| - 1], nodes[|nodes| - 1];
    if last == n {
      WeightIsMonotone(front, a, b);
    } else {
      assert n in front;
      LeavingPendingIsLighter(front, a, b, n);
    }
  }

  lemma SkippingIsNotHeavier(vm: Vm)
    ensures Weigh(AfterSkips(vm)) <= Weigh(vm)
  {
    WeightIsMonotone(vm.nodes, AfterSkips(vm).states, vm.states);
  }

  lemma SkippingStaysSane(vm: Vm)
    requires Sane(vm)
    ensures Sane(AfterSkips(vm))
  {}

  lemma AddNodeIsSane(vm: Vm, p: NodeBody)
    requires Sane(vm)
    ensures Sane(AddNode(vm, p)) && Weigh(AddNode(vm, p)) == Weigh(vm) + Weight(p)
  {
    var id := FreshId(vm.nextId);
    var grown := AddNode(vm, p);
    assert grown.nodes[..|vm.nodes|] == vm.nodes;
    WeightIsMonotone(vm.nodes, grown.states, vm.states);
    WeightIsMonotone(vm.nodes, vm.states, grown.states);
    assert forall n :: n in vm.nodes ==> n.id != id;
  }

  lemma {:induction false} AddNodesIsSane(vm: Vm, ps: seq<NodeBody>)
    requires Sane(vm)
    ensures Sane(AddNodes(vm, ps)) && Weigh(AddNodes(vm, ps)) == Weigh(vm) + Weights(ps)
  {
    if ps != [] {
      AddNodesIsSane(vm, ps[..|ps| - 1]);
      AddNodeIsSane(AddNodes(vm, ps[..|ps| - 1]), ps[|ps| - 1]);
    }
  }

  lemma {:induction false} AddNodesFrame(vm: Vm, ps: seq<NodeBody>)
    ensures var grown := AddNodes(vm, ps);
      && grown == vm.(nodes := grown.nodes, states := grown.states, nextId := vm.nextId + |ps|)
      && vm.nodes <= grown.nodes
      && (forall id :: id in grown.states ==> id in vm.states || grown.states[id] == FRESH_STATE)
      && (Sane(vm) ==> forall id :: id in vm.states ==> id in grown.states && grown.states[id] == vm.states[id])
      && (Sane(vm) ==> forall m :: m in grown.nodes ==> m in vm.nodes || m.id !in vm.states)
  {
    if ps != [] {
      AddNodesFrame(vm, ps[..|ps| - 1]);
    }
  }

  /** All an execution does to the graph and the states: it changes its own
      node's state, and an expand node may add the nodes it requested. */
  ghost predicate Shape(vm: Vm, after: Vm, n: Node, proposed: seq<NodeBody>)
    requires n.id in vm.states
  {
    && after.nodes == AddNodes(vm, proposed).nodes
    && n.id in after.states && !after.states[n.id].status.Pending?
    && after.states == AddNodes(vm, proposed).states[n.id := after.states[n.id]]
    && vm.nextId + |proposed| <= after.nextId
    && (proposed == [] || (n.body.kind.Expand? && n.body.expansion.Some? && proposed == n.body.expansion.value.nodes))
    && (!n.body.kind.Expand? ==> after.edges == vm.edges)
  }

  lemma ShapeOfUpdate(vm: Vm, mid: Vm, after: Vm, n: Node, proposed: seq<NodeBody>)
    requires n.id in vm.states && Shape(vm, mid, n, proposed)
    requires after.nodes == mid.nodes && after.edges == mid.edges && after.nextId >= mid.nextId
    requires n.id in after.states && !after.states[n.id].status.Pending?
    requires after.states == mid.states[n.id := after.states[n.id]]
    ensures Shape(vm, after, n, proposed)
  {}

  lemma ShapeOfExpansion(vm: Vm, n: Node)
    requires n.id in vm.states && n.body.kind.Expand? && n.body.expansion.Some?
    ensures Shape(vm, ExpandedBy(vm, n, n.body.expansion.value), n, n.body.expansion.value.nodes)
  {
    AddNodesFrame(vm, n.body.expansion.value.nodes);
  }

  lemma InvokedShape(env: Env, vm: Vm, n: Node, direct: seq<Input>) returns (proposed: seq<NodeBody>)
    requires n.id in vm.states && vm.states[n.id].status.Running?
    ensures Shape(vm, Invoked(env, vm, n, direct).0, n, proposed)
  {
    proposed := [];
    if n.body.kind.Expand? && n.body.expansion.Some? {
      proposed := n.body.expansion.value.nodes;
      ShapeOfExpansion(vm, n);
    }
  }

  lemma AttemptShape(env: Env, vm: Vm, n: Node) returns (proposed: seq<NodeBody>)
    requires n.id in vm.states && vm.states[n.id].status.Running?
    ensures Shape(vm, Attempt(env, vm, n).0, n, proposed)
  {
    proposed := [];
    match Gather(env, vm.nodes, vm.edges, ViewsOf(vm), n)
    case Ok(g) =>
      var cached := ArtifactCache.Find(vm.store, KeyOf(n.body), g.digests);
      if AllowCache(n.body) && cached.Some? {
        ShapeOfUpdate(vm, vm, Reused(vm, n, cached.value), n, []);
      } else {
        proposed := InvokedShape(env, vm, n, g.direct);
        var (after, out) := Invoked(env, vm, n, g.direct);
        if out.Ok? {
          ShapeOfUpdate(vm, after, Produced(after, n, out.value, g.digests), n, proposed);
        }
      }
    case _ =>
  }

  /** After the execution itself, a turn only records how it went. */
  lemma TurnRecords(env: Env, vm: Vm, n: Node)
    requires n.id in vm.states
    ensures var mid, after := Attempt(env, Started(vm, n), n).0, Turn(env, vm, n).0;
      && n.id in mid.states && n.id in after.states
      && after.nodes == mid.nodes && after.edges == mid.edges && after.nextId == mid.nextId && after.store == mid.store
      && after.states == mid.states[n.id := after.states[n.id]]
      && (!mid.states[n.id].status.Pending? ==> !after.states[n.id].status.Pending?)
  {
    hide Attempt, WithStatus;
    AttemptKeepsNode(env, Started(vm, n), n);
  }

  /** A turn keeps the shape of the execution it wraps. */
  lemma TurnShape(env: Env, vm: Vm, n: Node) returns (proposed: seq<NodeBody>)
    requires n.id in vm.states
    ensures Shape(Started(vm, n), Turn(env, vm, n).0, n, proposed)
  {
    var start := Started(vm, n);
    proposed := AttemptShape(env, start, n);
    TurnRecords(env, vm, n);
    ShapeOfUpdate(start, Attempt(env, start, n).0, Turn(env, vm, n).0, n, proposed);
  }

  /** The measure of the run: one turn strictly lowers it, whatever the node
      does, whatever it requests, and however its execution ends. */
  lemma TurnIsLighter(env: Env, vm: Vm, n: Node)
    requires Sane(vm) && n in vm.nodes && PendingIn(vm.states, n.id)
    ensures Weigh(Turn(env, vm, n).0) < Weigh(vm)
  {
    var start, after := Started(vm, n), Turn(env, vm, n).0;
    var proposed := TurnShape(env, vm, n);
    LeavingPendingIsLighter(vm.nodes, start.states, vm.states, n);
    AddNodesIsSane(start, proposed);
    WeightIsMonotone(after.nodes, after.states, AddNodes(start, proposed).states);
  }

  // ----- what a turn keeps -----

  /** Nothing stored is lost or changed, and the generator stays ahead. */
  ghost predicate StoreGrows(vm: Vm, after: Vm) {
    && vm.nextId <= after.nextId
    && (forall id :: id in vm.store.artifacts ==>
          id in after.store.artifacts && after.store.artifacts[id] == vm.store.artifacts[id])
    && (forall k: nat :: k >= after.nextId ==> FreshId(k) !in after.store.artifacts)
  }

  ghost predicate Ahead(vm: Vm) {
    forall k: nat :: k >= vm.nextId ==> FreshId(k) !in vm.store.artifacts
  }

  lemma StoredGrows(vm: Vm, a: ArtifactCache.Artifact)
    requires Ahead(vm) && a.id == FreshId(vm.nextId)
    ensures StoreGrows(vm, Stored(vm, a))
  {}

  lemma InvokedGrows(env: Env, vm: Vm, n: Node, direct: seq<Input>)
    requires n.id in vm.states && Ahead(vm)
    ensures StoreGrows(vm, Invoked(env, vm, n, direct).0)
  {
    if n.body.kind.Expand? && n.body.expansion.Some? {
      AddNodesFrame(vm, n.body.expansion.value.nodes);
    }
  }

  lemma AttemptGrows(env: Env, vm: Vm, n: Node)
    requires n.id in vm.states && Ahead(vm)
    ensures StoreGrows(vm, Attempt(env, vm, n).0)
  {
    match Gather(env, vm.nodes, vm.edges, ViewsOf(vm), n)
    case Ok(g) =>
      var cached := ArtifactCache.Find(vm.store, KeyOf(n.body), g.digests);
      if AllowCache(n.body) && cached.Some? {
        StoredGrows(vm, cached.value.(id := FreshId(vm.nextId)));
      } else {
        InvokedGrows(env, vm, n, g.direct);
        var (after, out) := Invoked(env, vm, n, g.direct);
        if out.Ok? {
          StoredGrows(after, OutputArtifact(FreshId(after.nextId), n, out.value, g.digests));
        }
      }
    case _ =>
  }

  lemma TurnGrows(env: Env, vm: Vm, n: Node)
    requires n.id in vm.states && Ahead(vm)
    ensures StoreGrows(vm, Turn(env, vm, n).0)
  {
    AttemptGrows(env, Started(vm, n), n);
  }

  lemma TurnStaysSane(env: Env, vm: Vm, n: Node)
    requires Sane(vm) && n in vm.nodes
    ensures Sane(Turn(env, vm, n).0)
  {
    var proposed := TurnShape(env, vm, n);
    TurnGrows(env, vm, n);
    AddNodesIsSane(Started(vm, n), proposed);
    AddNodesFrame(Started(vm, n), proposed);
  }
}
