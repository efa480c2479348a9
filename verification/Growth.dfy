/** What the turn of an expand node adds to the graph, said on its request alone. */
module Growth {
  import opened TaskGraphs
  import opened ArtifactCache
  import opened RunStates
  import opened Transforms
  import opened Expansion
  import opened Execution
  import opened Termination
  import opened Persistence
  import opened Turns

  /** One new node for each proposed one, in order, under the generator's next
      identifiers, without its ports. */
  ghost predicate Grown(before: seq<Node>, after: seq<Node>, proposed: seq<NodeBody>, nextId: nat) {
    && |after| == |before| + |proposed| && after[..|before|] == before
    && forall i :: |before| <= i < |after| ==>
      && after[i].id == FreshId(nextId + (i - |before|))
      && after[i].body == proposed[i - |before|].(ports := [])
  }

  ghost predicate AllFresh(states: map<Id, NodeState>, nextId: nat, n: nat) {
    forall k: nat :: nextId <= k < nextId + n ==> FreshId(k) in states && states[FreshId(k)] == FRESH_STATE
  }

  lemma AddNodeExactly(before: seq<Node>, mid: Vm, proposed: seq<NodeBody>, nextId: nat)
    requires proposed != [] && var front := proposed[..|proposed| - 1];
      Grown(before, mid.nodes, front, nextId) && AllFresh(mid.states, nextId, |front|) && mid.nextId == nextId + |front|
    ensures var after := AddNode(mid, proposed[|proposed| - 1]);
      && Grown(before, after.nodes, proposed, nextId) && AllFresh(after.states, nextId, |proposed|)
      && after.nextId == nextId + |proposed| && after.edges == mid.edges
  {
    var k := |proposed| - 1;
    var after := AddNode(mid, proposed[k]);
    assert after.nodes == mid.nodes + [NodeFor(proposed[k], FreshId(nextId + k))];
    forall i | |before| <= i < |after.nodes|
      ensures after.nodes[i].id == FreshId(nextId + (i - |before|))
      ensures after.nodes[i].body == proposed[i - |before|].(ports := [])
    {
      if i < |mid.nodes| {
        assert after.nodes[i] == mid.nodes[i] && proposed[..k][i - |before|] == proposed[i - |before|];
      }
    }
  }

  lemma {:induction false} AddNodesExactly(vm: Vm, proposed: seq<NodeBody>)
    ensures var grown := AddNodes(vm, proposed);
      && Grown(vm.nodes, grown.nodes, proposed, vm.nextId) && AllFresh(grown.states, vm.nextId, |proposed|)
      && grown.nextId == vm.nextId + |proposed| && grown.edges == vm.edges
  {
    hide AddNode, Grown, AllFresh;
    if proposed == [] {
      NothingGrown(vm);
    } else {
      AddNodesExactly(vm, proposed[..|proposed| - 1]);
      AddNodeExactly(vm.nodes, AddNodes(vm, proposed[..|proposed| - 1]), proposed, vm.nextId);
    }
  }

  lemma NothingGrown(vm: Vm)
    ensures Grown(vm.nodes, vm.nodes, [], vm.nextId) && AllFresh(vm.states, vm.nextId, 0)
  {}

  lemma OthersStayFresh(states: map<Id, NodeState>, id: Id, state: NodeState, nextId: nat, n: nat)
    requires AllFresh(states, nextId, n) && forall k: nat :: k >= nextId ==> FreshId(k) != id
    ensures AllFresh(states[id := state], nextId, n)
  {}

  lemma {:induction false} IdsExactly(first: nat, n: nat)
    ensures |IdsFrom(first, n)| == n && forall i :: 0 <= i < n ==> IdsFrom(first, n)[i] == FreshId(first + i)
  {
    if n > 0 {
      IdsExactly(first, n - 1);
    }
  }

  /** The last node of the name. */
  ghost predicate Means(nodes: seq<Node>, name: string, id: Id) {
    exists k :: 0 <= k < |nodes| && nodes[k].body.name == name && nodes[k].id == id
      && forall j :: k < j < |nodes| ==> nodes[j].body.name != name
  }

  lemma NamesExactly(nodes: seq<Node>, name: string, id: Id)
    requires IdsTellNames(nodes)
    ensures name in NamesOf(nodes) && NamesOf(nodes)[name] == id <==> Means(nodes, name, id)
  {
    NamesAreLast(nodes, name);
    if LastNamed(nodes, name).Some? {
      var k := LastNamedPosition(nodes, name);
      if Means(nodes, name, id) {
        var l :| 0 <= l < |nodes| && nodes[l].body.name == name && nodes[l].id == id
          && forall j :: (l < j < |nodes| ==> nodes[j].body.name != name);
        assert k == l;
      }
    }
  }

  /** The edge joins the nodes meant by a proposed edge and is otherwise that edge. */
  ghost predicate Joins(nodes: seq<Node>, p: ProposalEdge, e: Edge<Id>) {
    && Means(nodes, p.from, e.from) && Means(nodes, p.to, e.to)
    && e.fromPort == p.fromPort && e.toPort == p.toPort
    && e.transform == p.transform && e.required == p.required && e.metadata == p.metadata
  }

  lemma JoinsExactly(nodes: seq<Node>, p: ProposalEdge, e: Edge<Id>)
    requires IdsTellNames(nodes)
    ensures Wires(NamesOf(nodes), p, e) <==> Joins(nodes, p, e)
  {
    hide Means, NamesOf;
    NamesExactly(nodes, p.from, e.from);
    NamesExactly(nodes, p.to, e.to);
  }

  lemma EdgesExactly(nodes: seq<Node>, proposed: seq<ProposalEdge>, e: Edge<Id>)
    requires IdsTellNames(nodes)
    ensures e in EdgesFor(NamesOf(nodes), proposed) <==> exists p :: p in proposed && Joins(nodes, p, e)
  {
    hide Joins, Wires, EdgesFor, NamesOf;
    EdgesForMembers(NamesOf(nodes), proposed, e);
    forall p ensures Wires(NamesOf(nodes), p, e) <==> Joins(nodes, p, e) {
      JoinsExactly(nodes, p, e);
    }
  }

  lemma GrowsExactly(vm: Vm, request: ExpansionRequest)
    requires Sane(vm)
    ensures var grown := ApplyExpansion(vm, request);
      && Grown(vm.nodes, grown.nodes, request.nodes, vm.nextId)
      && AllFresh(grown.states, vm.nextId, |request.nodes|)
      && |vm.edges| <= |grown.edges| && grown.edges[..|vm.edges|] == vm.edges
      && forall e :: e in grown.edges[|vm.edges|..] <==> exists p :: p in request.edges && Joins(grown.nodes, p, e)
  {
    hide Joins, AddNodes, EdgesFor, NamesOf, Sane;
    var grown := ApplyExpansion(vm, request);
    AddNodesExactly(vm, request.nodes);
    AddNodesIsSane(vm, request.nodes);
    assert grown.edges[|vm.edges|..] == EdgesFor(NamesOf(grown.nodes), request.edges);
    SaneIsDistinct(AddNodes(vm, request.nodes));
    DistinctTellNames(grown.nodes);
    forall e ensures e in EdgesFor(NamesOf(grown.nodes), request.edges) <==>
      exists p :: p in request.edges && Joins(grown.nodes, p, e)
    {
      EdgesExactly(grown.nodes, request.edges, e);
    }
  }

  lemma SaneIsDistinct(vm: Vm)
    requires Sane(vm)
    ensures DistinctIds(vm.nodes)
  {}

  lemma ExpandedTurn(env: Env, q: Vm, n: Node, g: Gathered)
    requires Sane(q) && Runnable(q, n) && n.body.kind == Expand && n.body.expansion.Some?
    requires GatheredBy(env, q, n) == Ok(g) && !Served(q, n, g)
    ensures var (t, out) := Turn(env, q, n);
      var grown := ApplyExpansion(Started(q, n), n.body.expansion.value);
      && out.Ok? && t.nodes == grown.nodes && t.edges == grown.edges && n.id in t.states
      && t.states == grown.states[n.id := t.states[n.id]] && t.states[n.id].status == Expanded
      && |t.states[n.id].outputs| == 1 && t.states[n.id].outputs[0] in t.store.artifacts
      && t.store.artifacts[t.states[n.id].outputs[0]].content
           == map["text" := env.describe(IdsFrom(q.nextId, |n.body.expansion.value.nodes|))]
  {
    hide Gather, Find, ApplyExpansion, Checkpointed, IdsFrom;
    var start := Started(q, n);
    StartedRecords(q, n);
    TurnAsAttempt(env, q, n);
    var mid := ExpandedBy(start, n, n.body.expansion.value);
    CheckpointKeepsAll(Produced(mid, n, ExpansionReport(env, start, n.body.expansion.value), g.digests));
  }

  /** The whole turn of an expand node that is not served: it ends expanded, its
      report describes the identifiers of the nodes it added, and the graph is the
      old one, then one fresh pending node per proposed node, then the proposed
      edges between known names, later names shadowing earlier ones. */
  lemma ExpandExactly(env: Env, q: Vm, n: Node, g: Gathered)
    requires Sane(q) && Runnable(q, n) && n.body.kind == Expand && n.body.expansion.Some?
    requires GatheredBy(env, q, n) == Ok(g) && !Served(q, n, g)
    ensures var (t, out) := Turn(env, q, n);
      var request := n.body.expansion.value;
      && out.Ok? && n.id in t.states && t.states[n.id].status == Expanded
      && Grown(q.nodes, t.nodes, request.nodes, q.nextId) && AllFresh(t.states, q.nextId, |request.nodes|)
      && |q.edges| <= |t.edges| && t.edges[..|q.edges|] == q.edges
      && (forall e :: e in t.edges[|q.edges|..] <==> exists p :: p in request.edges && Joins(t.nodes, p, e))
  {
    hide Joins, ApplyExpansion, Turn, GatheredBy, Served, Grown, AllFresh, IdsFrom;
    StartedRecords(q, n);
    ExpandedTurn(env, q, n, g);
    assert Sane(Started(q, n));
    GrowsExactly(Started(q, n), n.body.expansion.value);
    var grown := ApplyExpansion(Started(q, n), n.body.expansion.value);
    var t := Turn(env, q, n).0;
    OthersStayFresh(grown.states, n.id, t.states[n.id], q.nextId, |n.body.expansion.value.nodes|);
  }

  /** What the report describes. */
  lemma ReportExactly(env: Env, q: Vm, n: Node, g: Gathered) returns (ids: seq<Id>)
    requires Sane(q) && Runnable(q, n) && n.body.kind == Expand && n.body.expansion.Some?
    requires GatheredBy(env, q, n) == Ok(g) && !Served(q, n, g)
    ensures |ids| == |n.body.expansion.value.nodes| && forall i :: 0 <= i < |ids| ==> ids[i] == FreshId(q.nextId + i)
    ensures var t := Turn(env, q, n).0;
      && n.id in t.states && |t.states[n.id].outputs| == 1 && t.states[n.id].outputs[0] in t.store.artifacts
      && t.store.artifacts[t.states[n.id].outputs[0]].content == map["text" := env.describe(ids)]
  {
    hide Turn, GatheredBy, Served, ApplyExpansion, IdsFrom;
    ids := IdsFrom(q.nextId, |n.body.expansion.value.nodes|);
    IdsExactly(q.nextId, |n.body.expansion.value.nodes|);
    ExpandedTurn(env, q, n, g);
  }

  /** An expand node without a request raises, and the graph stays as it was. */
  lemma NoRequestRaises(env: Env, q: Vm, n: Node, g: Gathered)
    requires Runnable(q, n) && n.body.kind == Expand && n.body.expansion == None
    requires GatheredBy(env, q, n) == Ok(g) && !Served(q, n, g)
    ensures var (t, out) := Turn(env, q, n); out.Error? && t.nodes == q.nodes && t.edges == q.edges
  {
    hide Gather, Find, Checkpointed;
    StartedRecords(q, n);
    TurnAsAttempt(env, q, n);
  }
}
