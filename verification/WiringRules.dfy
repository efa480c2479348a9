/** Which edges normalisation adds and between which nodes it draws them, said on
    the lists alone. */
module WiringRules {
  import opened Sequences
  import opened TaskGraphs
  import opened Wiring
  import opened Compilation
  import opened Persistence
  import opened Growth
  import opened NormalizedNodes

  ghost predicate Processes(n: NodeBody) {
    n.kind in {Tool, Model, Compress}
  }

  ghost predicate Leads(edges: seq<ProposalEdge>, from: string) {
    exists e :: e in edges && e.from == from
  }

  ghost predicate Reached(edges: seq<ProposalEdge>, to: string) {
    exists e :: e in edges && e.to == to
  }

  /** The first node of the kind. */
  ghost predicate FirstIs(nodes: seq<NodeBody>, kind: NodeKind, n: NodeBody) {
    exists k :: 0 <= k < |nodes| && nodes[k] == n && n.kind == kind && forall j :: 0 <= j < k ==> nodes[j].kind != kind
  }

  lemma {:induction false} FirstOfExactly(nodes: seq<NodeBody>, kind: NodeKind)
    requires FirstOf(nodes, kind).Some?
    ensures FirstIs(nodes, kind, FirstOf(nodes, kind).value)
  {
    if nodes[0].kind != kind {
      FirstOfExactly(nodes[1..], kind);
      var n := FirstOf(nodes, kind).value;
      var k :| 0 <= k < |nodes[1..]| && nodes[1..][k] == n && forall j :: (0 <= j < k ==> nodes[1..][j].kind != kind);
      assert forall j :: 0 < j < |nodes| ==> nodes[j] == nodes[1..][j - 1];
      assert nodes[k + 1] == n;
    }
  }

  /** The last processing node that no edge leaves. */
  ghost predicate SinkIs(nodes: seq<NodeBody>, edges: seq<ProposalEdge>, n: NodeBody) {
    exists k :: 0 <= k < |nodes| && nodes[k] == n && Processes(n) && !Leads(edges, n.name)
      && forall j :: k < j < |nodes| && Processes(nodes[j]) ==> Leads(edges, nodes[j].name)
  }

  lemma {:induction false} LastSinkExactly(nodes: seq<NodeBody>, edges: seq<ProposalEdge>) returns (k: nat)
    ensures var sink := LastSink(nodes, edges);
      if sink.Some? then
        && k < |nodes| && nodes[k] == sink.value && Processes(sink.value) && !Leads(edges, sink.value.name)
        && forall j :: k < j < |nodes| && Processes(nodes[j]) ==> Leads(edges, nodes[j].name)
      else forall n :: n in nodes && Processes(n) ==> Leads(edges, n.name)
  {
    hide Leads, IsSource, Processes, IsProcessing;
    k := 0;
    if nodes != [] {
      var last := |nodes| - 1;
      SourceLeads(edges, nodes[last].name);
      ProcessesExactly(nodes[last]);
      if Processes(nodes[last]) && !Leads(edges, nodes[last].name) {
        k := last;
      } else {
        k := LastSinkExactly(nodes[..last], edges);
      }
    }
  }

  lemma ProcessesExactly(n: NodeBody)
    ensures IsProcessing(n) <==> Processes(n)
  {}

  lemma SourceLeads(edges: seq<ProposalEdge>, name: string)
    ensures IsSource(edges, name) <==> Leads(edges, name)
  {}

  lemma TargetReached(edges: seq<ProposalEdge>, name: string)
    ensures IsTarget(edges, name) <==> Reached(edges, name)
  {}

  /** An edge with the default ports and nothing else. */
  ghost predicate Plain(e: ProposalEdge, from: string, to: string) {
    e == Edge(from, "output", to, "input", None, true, map[])
  }

  /** One plain edge from the intent for each processing node not reached yet, in
      the order of the nodes. */
  function FeedOf(intent: string, edges: seq<ProposalEdge>): NodeBody -> seq<ProposalEdge> {
    (n: NodeBody) => if n.kind in {Tool, Model, Compress} && (forall e | e in edges :: e.to != n.name)
         then [Edge(intent, "output", n.name, "input", None, true, map[])] else []
  }

  lemma {:induction false} FeedsExactly(intent: string, nodes: seq<NodeBody>, edges: seq<ProposalEdge>)
    ensures Feeds(intent, nodes, edges) == Collect(FeedOf(intent, edges), nodes)
  {
    if nodes != [] {
      var k := |nodes| - 1;
      FeedsExactly(intent, nodes[..k], edges);
      assert nodes == nodes[..k] + [nodes[k]];
      CollectSplit(FeedOf(intent, edges), nodes[..k], [nodes[k]]);
      assert [nodes[k]][1..] == [];
      assert Collect(FeedOf(intent, edges), [nodes[k]]) == FeedOf(intent, edges)(nodes[k]) + [];
    }
  }

  ghost predicate Has(nodes: seq<NodeBody>, kind: NodeKind) {
    exists n :: n in nodes && n.kind == kind
  }

  /** Completion applies: no router, an intent, a final, and something between. */
  ghost predicate Completable(nodes: seq<NodeBody>) {
    && !Has(nodes, Router) && Has(nodes, Intent) && Has(nodes, Final)
    && exists n :: n in nodes && Processes(n)
  }

  lemma CompletableExactly(nodes: seq<NodeBody>)
    ensures LeftAlone(nodes) <==> !Completable(nodes)
  {}

  /** The edges after canonicalisation: the planner's; for proposals it applies to,
      then the feeds, and then, if nothing reached the final node, one plain edge to
      it from the last processing node that leads nowhere. */
  lemma CanonicalExactly(nodes: seq<NodeBody>, edges: seq<ProposalEdge>)
    ensures !Completable(nodes) ==> Canonical(nodes, edges) == edges
    ensures Completable(nodes) ==> exists intent, final ::
      FirstIs(nodes, Intent, intent) && FirstIs(nodes, Final, final)
      && Connects(nodes, edges, intent.name, final.name, Canonical(nodes, edges))
  {
    hide FirstIs, Feeds, LastSink, FirstOf, Completable;
    CompletableExactly(nodes);
    if !LeftAlone(nodes) {
      FirstOfExactly(nodes, Intent);
      FirstOfExactly(nodes, Final);
      ConnectsExactly(nodes, edges);
    }
  }

  ghost predicate Connects(nodes: seq<NodeBody>, edges: seq<ProposalEdge>, intent: string, final: string,
                           after: seq<ProposalEdge>) {
    var fed := edges + Collect(FeedOf(intent, edges), nodes);
    if Reached(edges, final) || forall n :: n in nodes && Processes(n) ==> Leads(fed, n.name) then after == fed
    else exists sink :: SinkIs(nodes, fed, sink) && |after| == |fed| + 1 && after[..|fed|] == fed
           && Plain(after[|fed|], sink.name, final)
  }

  lemma SinkAt(nodes: seq<NodeBody>, edges: seq<ProposalEdge>, k: nat)
    requires k < |nodes| && Processes(nodes[k]) && !Leads(edges, nodes[k].name)
    requires forall j :: k < j < |nodes| && Processes(nodes[j]) ==> Leads(edges, nodes[j].name)
    ensures SinkIs(nodes, edges, nodes[k])
  {
    hide Leads;
  }

  lemma ConnectsExactly(nodes: seq<NodeBody>, edges: seq<ProposalEdge>)
    requires !LeftAlone(nodes)
    ensures Connects(nodes, edges, FirstOf(nodes, Intent).value.name, FirstOf(nodes, Final).value.name,
                     Canonical(nodes, edges))
  {
    hide Feeds, FirstOf, SinkIs, FeedOf, Leads, Reached;
    var intent, final := FirstOf(nodes, Intent).value.name, FirstOf(nodes, Final).value.name;
    var fed := Fed(nodes, edges);
    FeedsExactly(intent, nodes, edges);
    TargetReached(edges, final);
    var k := LastSinkExactly(nodes, fed);
    if LastSink(nodes, fed).Some? {
      assert nodes[k] in nodes && SinkIs(nodes, fed, nodes[k]) by {
        SinkAt(nodes, fed, k);
      }
    }
  }

  // ----- the edge to an injected final node -----

  /** The last model or compress node that no edge to a known node leaves. */
  ghost predicate EndIs(nodes: seq<NodeBody>, edges: seq<ProposalEdge>, n: NodeBody) {
    exists k :: 0 <= k < |nodes| && nodes[k] == n && Ends(nodes, edges, n)
      && forall j :: k < j < |nodes| ==> !Ends(nodes, edges, nodes[j])
  }

  ghost predicate Ends(nodes: seq<NodeBody>, edges: seq<ProposalEdge>, n: NodeBody) {
    n.kind in {Model, Compress} && forall e, m :: e in edges && m in nodes && e.from == n.name ==> e.to != m.name
  }

  lemma EndsExactly(nodes: seq<NodeBody>, edges: seq<ProposalEdge>, n: NodeBody)
    ensures Ends(nodes, edges, n) <==> (n.kind.Model? || n.kind.Compress?) && !LeadsOn(nodes, edges, n.name)
  {}

  lemma {:induction false} InjectionSinkExactly(candidates: seq<NodeBody>, nodes: seq<NodeBody>,
                                                edges: seq<ProposalEdge>)
    returns (k: nat)
    ensures var sink := InjectionSink(candidates, nodes, edges);
      if sink.Some? then
        && k < |candidates| && candidates[k] == sink.value && Ends(nodes, edges, sink.value)
        && forall j :: k < j < |candidates| ==> !Ends(nodes, edges, candidates[j])
      else forall j :: 0 <= j < |candidates| ==> !Ends(nodes, edges, candidates[j])
  {
    hide Ends, LeadsOn;
    k := 0;
    if candidates != [] {
      var last := |candidates| - 1;
      EndsExactly(nodes, edges, candidates[last]);
      if Ends(nodes, edges, candidates[last]) {
        k := last;
      } else {
        k := InjectionSinkExactly(candidates[..last], nodes, edges);
      }
    }
  }

  /** A proposal without a final node gets one after its other nodes, and an edge to
      it from the node that ends the graph, if one does; one with a final node keeps
      its edges. */
  lemma CompletedEdges(c: Catalog, p: Proposal)
    ensures HasKind(p, Final) ==> Completed(c, p).edges == p.edges
    ensures !HasKind(p, Final) ==>
      var nodes := Completed(c, p).nodes;
      nodes != [] && var others := nodes[..|nodes| - 1];
      if exists n :: n in others && Ends(others, p.edges, n) then
        exists sink :: EndIs(others, p.edges, sink) && |Completed(c, p).edges| == |p.edges| + 1
          && Completed(c, p).edges[..|p.edges|] == p.edges
          && Plain(Completed(c, p).edges[|p.edges|], sink.name, "final")
      else Completed(c, p).edges == p.edges
  {
    hide HasKind, Recovered, WithIntent, FirstOf, Ends;
    WithIntentKeepsFinal(c, p);
    var others := WithIntent(Recovered(c, p.nodes));
    var k := InjectionSinkExactly(others, others, p.edges);
    if !HasKind(p, Final) {
      var nodes := Completed(c, p).nodes;
      assert nodes[..|nodes| - 1] == others;
      if InjectionSink(others, others, p.edges).Some? {
        assert EndIs(others, p.edges, others[k]);
      }
    }
  }

  // ----- the wired graph -----

  /** The edges of the normalised graph: each canonical edge between known names,
      joining the last nodes of those names, and no other. */
  lemma WiredExactly(c: Catalog, p: Proposal, prompt: string, dryRun: bool, nextId: nat, e: Edge<Id>)
    ensures var g := Normalized(c, p, prompt, dryRun, nextId);
      e in g.edges <==>
        exists q :: q in Canonical(Completed(c, p).nodes, Completed(c, p).edges) && Joins(g.nodes, q, e)
  {
    hide Completed, Canonical, Joins, CanonicalBody;
    var bodies := Completed(c, p).nodes;
    var nodes := Nodes(c, bodies, InjectedPrompt(c, p, prompt), dryRun, nextId);
    RunsAreTwins(c, bodies, InjectedPrompt(c, p, prompt), InjectedPrompt(c, p, prompt), nextId);
    if dryRun {
      NamesIgnoreNext(c, bodies, InjectedPrompt(c, p, prompt), nextId);
    }
    EdgesExactly(nodes, Canonical(bodies, Completed(c, p).edges), e);
  }

  lemma {:induction false} NamesIgnoreNext(c: Catalog, bodies: seq<NodeBody>, prompt: Option<string>, nextId: nat)
    ensures Nodes(c, bodies, prompt, true, nextId) == Nodes(c, bodies, prompt, true, 0)
  {
    hide CanonicalBody;
    if bodies != [] {
      NamesIgnoreNext(c, bodies[..|bodies| - 1], prompt, nextId);
    }
  }
}
