/** Growing the task graph while it runs: an expand node's request adds nodes,
    which may carry requests of their own, and edges. */
module Expansion {
  import opened TaskGraphs
  import opened RunStates
  import opened Storage

  type Names = map<string, Id>

  /** `{node.name: node.id for node in nodes}`: later nodes win. */
  function NamesOf(nodes: seq<Node>): Names {
    if nodes == [] then map[]
    else NamesOf(nodes[..|nodes| - 1])[nodes[|nodes| - 1].body.name := nodes[|nodes| - 1].id]
  }

  /** The persisted form of a proposed node; its declared ports are not kept. */
  function NodeFor(proposed: NodeBody, id: Id): Node {
    Node(id, proposed.(ports := []))
  }

  function AddNode(vm: Vm, proposed: NodeBody): Vm {
    var id := FreshId(vm.nextId);
    vm.(nodes := vm.nodes + [NodeFor(proposed, id)], states := vm.states[id := FRESH_STATE], nextId := vm.nextId + 1)
  }

  function AddNodes(vm: Vm, proposed: seq<NodeBody>): Vm {
    if proposed == [] then vm else AddNode(AddNodes(vm, proposed[..|proposed| - 1]), proposed[|proposed| - 1])
  }

  /** Edges between known names; the others are dropped. */
  function EdgesFor(names: Names, proposed: seq<ProposalEdge>): seq<Edge<Id>> {
    if proposed == [] then []
    else
      var e := proposed[|proposed| - 1];
      EdgesFor(names, proposed[..|proposed| - 1])
      + if e.from in names && e.to in names
        then [Reattach(e, names[e.from], names[e.to])]
        else []
  }

  function ApplyExpansion(vm: Vm, request: ExpansionRequest): Vm {
    var grown := AddNodes(vm, request.nodes);
    grown.(edges := grown.edges + EdgesFor(NamesOf(grown.nodes), request.edges))
  }

  /** The next n identifiers of the generator. */
  function IdsFrom(first: nat, n: nat): seq<Id> {
    if n == 0 then [] else IdsFrom(first, n - 1) + [FreshId(first + n - 1)]
  }

  /** The first loop of `apply_expansion`, in the storage. */
  method AddProposedNodes(storage: InMemoryStorage, proposed: seq<NodeBody>) returns (nameToId: Names, created: seq<Id>)
    modifies storage
    ensures storage.Snapshot() == AddNodes(old(storage.Snapshot()), proposed)
    ensures nameToId == NamesOf(storage.nodes)
    ensures created == IdsFrom(old(storage.nextId), |proposed|)
  {
    ghost var vm := storage.Snapshot();
    created := [];
    nameToId := NamesOf(storage.nodes);
    for i := 0 to |proposed|
      invariant storage.Snapshot() == AddNodes(vm, proposed[..i])
      invariant nameToId == NamesOf(storage.nodes)
      invariant created == IdsFrom(vm.nextId, i) && storage.nextId == vm.nextId + i
    {
      assert proposed[..i + 1][..i] == proposed[..i];
      var id := storage.NewId();
      var node := NodeFor(proposed[i], id);
      nameToId := nameToId[proposed[i].name := id];
      assert (storage.nodes + [node])[..|storage.nodes|] == storage.nodes;
      storage.nodes := storage.nodes + [node];
      storage.PutRunNodeState(id, FRESH_STATE);
      created := created + [id];
    }
    assert proposed[..|proposed|] == proposed;
  }

  /** The second loop of `apply_expansion`. */
  method AddProposedEdges(storage: InMemoryStorage, nameToId: Names, proposed: seq<ProposalEdge>)
    modifies storage`taskEdges
    ensures storage.taskEdges == old(storage.taskEdges) + EdgesFor(nameToId, proposed)
  {
    for i := 0 to |proposed|
      invariant storage.taskEdges == old(storage.taskEdges) + EdgesFor(nameToId, proposed[..i])
    {
      assert proposed[..i + 1][..i] == proposed[..i];
      var e := proposed[i];
      if e.from in nameToId && e.to in nameToId {
        storage.taskEdges := storage.taskEdges + [Reattach(e, nameToId[e.from], nameToId[e.to])];
      }
    }
    assert proposed[..|proposed|] == proposed;
  }

  /** `apply_expansion` as it updates the storage; `created` are the new nodes. */
  method Expand(storage: InMemoryStorage, request: ExpansionRequest) returns (created: seq<Id>)
    modifies storage
    ensures storage.Snapshot() == ApplyExpansion(old(storage.Snapshot()), request)
    ensures created == IdsFrom(old(storage.nextId), |request.nodes|)
  {
    var nameToId;
    nameToId, created := AddProposedNodes(storage, request.nodes);
    AddProposedEdges(storage, nameToId, request.edges);
  }

  // ----- the termination measure -----

  /** A node counts for itself and for everything its request may still create,
      requests within requests included. */
  function Weight(body: NodeBody): (w: nat)
    ensures w >= 1
    decreases body
  {
    if body.kind.Expand? && body.expansion.Some? then 1 + Weights(body.expansion.value.nodes) else 1
  }

  function Weights(bodies: seq<NodeBody>): nat
    decreases bodies
  {
    if bodies == [] then 0 else Weights(bodies[..|bodies| - 1]) + Weight(bodies[|bodies| - 1])
  }

  function PendingWeight(nodes: seq<Node>, states: map<Id, NodeState>): nat {
    if nodes == [] then 0
    else
      var n := nodes[|nodes| - 1];
      PendingWeight(nodes[..|nodes| - 1], states)
      + if n.id in states && states[n.id].status.Pending? then Weight(n.body) else 0
  }
}
