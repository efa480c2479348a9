/** Edge canonicalisation: the compiler completes what a planner leaves
    unconnected, without touching what it did connect. */
module Wiring {
  import opened TaskGraphs
  import opened Acyclicity

  predicate IsProcessing(n: NodeBody) {
    n.kind.Tool? || n.kind.Model? || n.kind.Compress?
  }

  function FirstOf(nodes: seq<NodeBody>, kind: NodeKind): (r: Option<NodeBody>)
    ensures r.Some? ==> r.value in nodes && r.value.kind == kind
    ensures r.None? <==> forall n :: n in nodes ==> n.kind != kind
  {
    if nodes == [] then None
    else if nodes[0].kind == kind then Some(nodes[0])
    else FirstOf(nodes[1..], kind)
  }

  /** Planner graphs with routers, or without an intent, a final or a processing
      node, are left alone. */
  predicate LeftAlone(nodes: seq<NodeBody>) {
    || (exists n | n in nodes :: n.kind.Router?)
    || FirstOf(nodes, Intent).None? || FirstOf(nodes, Final).None?
    || !(exists n | n in nodes :: IsProcessing(n))
  }

  predicate IsTarget(edges: seq<ProposalEdge>, name: string) {
    exists e | e in edges :: e.to == name
  }

  predicate IsSource(edges: seq<ProposalEdge>, name: string) {
    exists e | e in edges :: e.from == name
  }

  /** One edge from the intent to every processing node nothing leads to. */
  function Feeds(intent: string, nodes: seq<NodeBody>, edges: seq<ProposalEdge>): seq<ProposalEdge> {
    if nodes == [] then []
    else
      var n := nodes[|nodes| - 1];
      Feeds(intent, nodes[..|nodes| - 1], edges)
      + if IsProcessing(n) && !IsTarget(edges, n.name) then [PlainEdge(intent, n.name)] else []
  }

  /** The last processing node that leads nowhere. */
  function LastSink(nodes: seq<NodeBody>, edges: seq<ProposalEdge>): (r: Option<NodeBody>)
    ensures r.Some? ==> r.value in nodes && IsProcessing(r.value) && !IsSource(edges, r.value.name)
    ensures r.None? <==> forall n :: n in nodes && IsProcessing(n) ==> IsSource(edges, n.name)
  {
    if nodes == [] then None
    else
      var n := nodes[|nodes| - 1];
      if IsProcessing(n) && !IsSource(edges, n.name) then Some(n) else LastSink(nodes[..|nodes| - 1], edges)
  }

  function Fed(nodes: seq<NodeBody>, edges: seq<ProposalEdge>): seq<ProposalEdge>
    requires !LeftAlone(nodes)
  {
    edges + Feeds(FirstOf(nodes, Intent).value.name, nodes, edges)
  }

  function Canonical(nodes: seq<NodeBody>, edges: seq<ProposalEdge>): seq<ProposalEdge> {
    if LeftAlone(nodes) then edges
    else
      var fed := Fed(nodes, edges);
      var final := FirstOf(nodes, Final).value.name;
      if IsTarget(edges, final) || LastSink(nodes, fed).None? then fed
      else fed + [PlainEdge(LastSink(nodes, fed).value.name, final)]
  }

  /** `_canonical_edges`, appending to a copy of the planner's edges. */
  method CanonicalEdges(nodes: seq<NodeBody>, edges: seq<ProposalEdge>) returns (canonical: seq<ProposalEdge>)
    ensures canonical == Canonical(nodes, edges)
  {
    canonical := edges;
    if LeftAlone(nodes) {
      return;
    }
    var intent, final := FirstOf(nodes, Intent).value, FirstOf(nodes, Final).value;
    for i := 0 to |nodes|
      invariant canonical == edges + Feeds(intent.name, nodes[..i], edges)
    {
      assert nodes[..i + 1][..i] == nodes[..i];
      if IsProcessing(nodes[i]) && !IsTarget(edges, nodes[i].name) {
        canonical := canonical + [PlainEdge(intent.name, nodes[i].name)];
      }
    }
    assert nodes[..|nodes|] == nodes;
    if !IsTarget(edges, final.name) {
      var sink := LastSink(nodes, canonical);
      if sink.Some? {
        canonical := canonical + [PlainEdge(sink.value.name, final.name)];
      }
    }
  }

  // ----- properties for every proposal -----

  /** The planner's own edges come first, unchanged. */
  lemma PlannerEdgesAreKept(nodes: seq<NodeBody>, edges: seq<ProposalEdge>)
    ensures edges <= Canonical(nodes, edges)
  {}

  lemma {:induction false} FeedsMembers(intent: string, nodes: seq<NodeBody>, edges: seq<ProposalEdge>)
    ensures forall e :: e in Feeds(intent, nodes, edges) <==>
      exists n :: n in nodes && IsProcessing(n) && !IsTarget(edges, n.name) && e == PlainEdge(intent, n.name)
  {
    if nodes != [] {
      FeedsMembers(intent, nodes[..|nodes| - 1], edges);
    }
  }

  lemma {:induction false} NothingToFeed(intent: string, nodes: seq<NodeBody>, edges: seq<ProposalEdge>)
    requires forall n :: n in nodes && IsProcessing(n) ==> IsTarget(edges, n.name)
    ensures Feeds(intent, nodes, edges) == []
  {
    if nodes != [] {
      NothingToFeed(intent, nodes[..|nodes| - 1], edges);
    }
  }

  lemma ProcessingIsFed(nodes: seq<NodeBody>, edges: seq<ProposalEdge>, n: NodeBody)
    requires !LeftAlone(nodes) && n in nodes && IsProcessing(n)
    ensures IsTarget(Fed(nodes, edges), n.name)
  {
    var intent := FirstOf(nodes, Intent).value.name;
    FeedsMembers(intent, nodes, edges);
    if !IsTarget(edges, n.name) {
      assert PlainEdge(intent, n.name) in Fed(nodes, edges);
    } else {
      var e :| e in edges && e.to == n.name;
      assert e in Fed(nodes, edges);
    }
  }

  lemma FedIsStable(nodes: seq<NodeBody>, edges: seq<ProposalEdge>, more: seq<ProposalEdge>)
    requires !LeftAlone(nodes)
    ensures Fed(nodes, Fed(nodes, edges) + more) == Fed(nodes, edges) + more
  {
    var again := Fed(nodes, edges) + more;
    forall n | n in nodes && IsProcessing(n) ensures IsTarget(again, n.name) {
      ProcessingIsFed(nodes, edges, n);
      var e :| e in Fed(nodes, edges) && e.to == n.name;
      assert e in again;
    }
    NothingToFeed(FirstOf(nodes, Intent).value.name, nodes, again);
  }

  /** Canonicalising twice changes nothing more, for every list of nodes and
      edges whatsoever. */
  lemma CanonicalIsIdempotent(nodes: seq<NodeBody>, edges: seq<ProposalEdge>)
    ensures Canonical(nodes, Canonical(nodes, edges)) == Canonical(nodes, edges)
  {
    if !LeftAlone(nodes) {
      var once := Canonical(nodes, edges);
      var fed := Fed(nodes, edges);
      var final := FirstOf(nodes, Final).value.name;
      if once == fed {
        FedIsStable(nodes, edges, []);
        assert fed + [] == fed;
        if IsTarget(edges, final) {
          var e :| e in edges && e.to == final;
          assert e in fed;
        }
      } else {
        FedIsStable(nodes, edges, once[|fed|..]);
        assert once == fed + once[|fed|..];
        assert once[|once| - 1].to == final;
      }
    }
  }

  // ----- properties for the proposals it is meant for -----

  /** An acyclic, router-free proposal over known, distinct names: one intent
      nothing leads to, one final that leads nowhere, and at least one node
      between, all of them processing nodes. Acyclicity comes as a rank, which
      the cycle check provides exactly for acyclic edges. */
  ghost predicate WellShaped(nodes: seq<NodeBody>, edges: seq<ProposalEdge>, intent: NodeBody, final: NodeBody,
                             rank: string -> nat) {
    && intent in nodes && final in nodes && intent.kind.Intent? && final.kind.Final?
    && (forall m, n :: m in nodes && n in nodes && m.name == n.name ==> m == n)
    && (forall n :: n in nodes && n != intent && n != final ==> IsProcessing(n))
    && (exists n :: n in nodes && IsProcessing(n))
    && (forall e :: e in edges ==> Known(nodes, e.from) && Known(nodes, e.to))
    && !IsTarget(edges, intent.name) && !IsSource(edges, final.name)
    && Ranked(edges, rank)
  }

  ghost predicate Known(nodes: seq<NodeBody>, name: string) {
    exists n :: n in nodes && n.name == name
  }

  lemma WellShapedIsWired(nodes: seq<NodeBody>, edges: seq<ProposalEdge>, intent: NodeBody, final: NodeBody,
                          rank: string -> nat)
    requires WellShaped(nodes, edges, intent, final, rank)
    ensures !LeftAlone(nodes) && FirstOf(nodes, Intent) == Some(intent) && FirstOf(nodes, Final) == Some(final)
  {
    hide Ranked, IsTarget, IsSource, Known, FirstOf;
  }

  lemma {:induction false} HighestProcessing(nodes: seq<NodeBody>, rank: string -> nat) returns (top: NodeBody)
    requires exists n :: n in nodes && IsProcessing(n)
    ensures top in nodes && IsProcessing(top)
    ensures forall n :: n in nodes && IsProcessing(n) ==> rank(n.name) <= rank(top.name)
  {
    var front, last := nodes[..|nodes| - 1], nodes[|nodes| - 1];
    if exists n :: n in front && IsProcessing(n) {
      top := HighestProcessing(front, rank);
      if IsProcessing(last) && rank(last.name) > rank(top.name) {
        top := last;
      }
    } else {
      top := last;
    }
  }

  /** If nothing leads to the final node, some processing node leads nowhere. */
  lemma SinkExists(nodes: seq<NodeBody>, edges: seq<ProposalEdge>, intent: NodeBody, final: NodeBody,
                   rank: string -> nat)
    requires WellShaped(nodes, edges, intent, final, rank) && !LeftAlone(nodes) && !IsTarget(edges, final.name)
    ensures LastSink(nodes, Fed(nodes, edges)).Some?
  {
    hide FirstOf, LeftAlone, Feeds, LastSink;
    WellShapedIsWired(nodes, edges, intent, final, rank);
    var top := HighestProcessing(nodes, rank);
    FeedsMembers(intent.name, nodes, edges);
    assert !IsSource(Fed(nodes, edges), top.name);
  }

  /** The canonical edges, one by one. */
  lemma CanonicalEdgesAre(nodes: seq<NodeBody>, edges: seq<ProposalEdge>, intent: NodeBody, final: NodeBody,
                          rank: string -> nat, e: ProposalEdge)
    requires WellShaped(nodes, edges, intent, final, rank) && e in Canonical(nodes, edges)
    ensures e in edges || (e.from == intent.name && exists n :: n in nodes && IsProcessing(n) && n.name == e.to)
      || (e.to == final.name && exists n :: n in nodes && IsProcessing(n) && n.name == e.from)
  {
    hide FirstOf, LeftAlone, Feeds, LastSink, Ranked, Known;
    WellShapedIsWired(nodes, edges, intent, final, rank);
    FeedsMembers(intent.name, nodes, edges);
  }

  function Highest(nodes: seq<NodeBody>, rank: string -> nat): (h: nat)
    ensures forall n :: n in nodes ==> rank(n.name) <= h
  {
    if nodes == [] then 0
    else
      var h := Highest(nodes[1..], rank);
      if rank(nodes[0].name) > h then rank(nodes[0].name) else h
  }

  /** The intent first, the final last, the planner's order between. */
  function Rerank(nodes: seq<NodeBody>, intent: string, final: string, rank: string -> nat): string -> nat {
    var top := Highest(nodes, rank) + 2;
    x => if x == intent then 0 else if x == final then top else rank(x) + 1
  }

  /** The result is acyclic again. */
  lemma CanonicalIsRanked(nodes: seq<NodeBody>, edges: seq<ProposalEdge>, intent: NodeBody, final: NodeBody,
                          rank: string -> nat)
    requires WellShaped(nodes, edges, intent, final, rank)
    ensures Ranked(Canonical(nodes, edges), Rerank(nodes, intent.name, final.name, rank))
    ensures Acyclic(Canonical(nodes, edges))
  {
    hide FirstOf, LeftAlone, Canonical, Highest;
    var better := Rerank(nodes, intent.name, final.name, rank);
    forall e | e in Canonical(nodes, edges) ensures better(e.from) < better(e.to) {
      CanonicalEdgesAre(nodes, edges, intent, final, rank, e);
      if e in edges {
        var n :| n in nodes && n.name == e.from;
        assert rank(e.from) < rank(e.to);
      }
    }
    RankedIsAcyclic(Canonical(nodes, edges), better);
  }

  /** Every node but the intent has an incoming edge, from a known node. */
  lemma EveryNodeIsFed(nodes: seq<NodeBody>, edges: seq<ProposalEdge>, intent: NodeBody, final: NodeBody,
                       rank: string -> nat, n: NodeBody)
    returns (e: ProposalEdge)
    requires WellShaped(nodes, edges, intent, final, rank) && n in nodes && n != intent
    ensures e in Canonical(nodes, edges) && e.to == n.name && Known(nodes, e.from)
  {
    hide FirstOf, LeftAlone, Feeds, LastSink, Ranked;
    WellShapedIsWired(nodes, edges, intent, final, rank);
    var fed := Fed(nodes, edges);
    if IsProcessing(n) {
      ProcessingIsFed(nodes, edges, n);
      e :| e in fed && e.to == n.name;
    } else if IsTarget(edges, final.name) {
      e :| e in edges && e.to == n.name;
    } else {
      SinkExists(nodes, edges, intent, final, rank);
      e := PlainEdge(LastSink(nodes, fed).value.name, final.name);
    }
    CanonicalEdgesAre(nodes, edges, intent, final, rank, e);
  }

  /** The result is connected: every node is reachable from the intent. */
  lemma {:induction false} EveryNodeIsReachable(nodes: seq<NodeBody>, edges: seq<ProposalEdge>, intent: NodeBody,
                                                final: NodeBody, rank: string -> nat, n: NodeBody)
    returns (p: seq<string>)
    requires WellShaped(nodes, edges, intent, final, rank) && n in nodes
    ensures IsPath(Canonical(nodes, edges), p) && p[0] == intent.name && p[|p| - 1] == n.name
    decreases Rerank(nodes, intent.name, final.name, rank)(n.name)
  {
    if n == intent {
      p := [n.name];
    } else {
      var e := EveryNodeIsFed(nodes, edges, intent, final, rank, n);
      var m :| m in nodes && m.name == e.from;
      CanonicalIsRanked(nodes, edges, intent, final, rank);
      var q := EveryNodeIsReachable(nodes, edges, intent, final, rank, m);
      p := q + [n.name];
      PathExtends(Canonical(nodes, edges), q, n.name, e);
    }
  }

  lemma PathExtends(edges: seq<ProposalEdge>, q: seq<string>, name: string, e: ProposalEdge)
    requires IsPath(edges, q) && e in edges && e.from == q[|q| - 1] && e.to == name
    ensures IsPath(edges, q + [name])
  {
    var p := q + [name];
    forall i | 0 <= i < |p| - 1 ensures Arrow(edges, p[i], p[i + 1]) {
      if i + 1 < |q| {
        assert Arrow(edges, q[i], q[i + 1]);
      }
    }
  }
}
