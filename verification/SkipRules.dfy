/** Who is skipped and who is chosen, said on the recorded states and the edges
    alone. */
module SkipRules {
  import opened TaskGraphs
  import opened RunStates
  import opened Schedulers
  import opened Execution
  import opened Reachability
  import opened Pruning

  // ----- the three reasons, on states -----

  ghost predicate Into(vm: Vm, e: Edge<Id>, n: Node) {
    e in vm.edges && e.to == n.id
  }

  /** A model one of whose upstreams recorded a not-found result. */
  ghost predicate FoundNothing(vm: Vm, n: Node) {
    n.body.kind == Model && exists e :: Into(vm, e, n) && e.from in vm.states && vm.states[e.from].notFound
  }

  ghost predicate LeavesRouter(vm: Vm, e: Edge<Id>) {
    exists r :: r in vm.nodes && r.id == e.from && r.body.kind == Router
  }

  /** The edge leaves a router that succeeded, recorded a branch, and recorded
      another one than the edge's label. */
  ghost predicate NotTaken(vm: Vm, e: Edge<Id>) {
    && LeavesRouter(vm, e) && e.from in vm.states && vm.states[e.from].status == Succeeded
    && "branch" in e.metadata && vm.states[e.from].selectedBranch.Some?
    && e.metadata["branch"] != vm.states[e.from].selectedBranch.value
  }

  ghost predicate Deselected(vm: Vm, n: Node) {
    exists e :: Into(vm, e, n) && NotTaken(vm, e)
  }

  /** It has upstreams, and every single one was skipped. */
  ghost predicate CutOff(vm: Vm, n: Node) {
    && (exists e :: Into(vm, e, n))
    && forall e :: Into(vm, e, n) ==> e.from in vm.states && vm.states[e.from].status == Skipped
  }

  lemma RouterByLookup(vm: Vm, e: Edge<Id>)
    requires DistinctIds(vm.nodes)
    ensures IsRouter(vm.nodes, e.from) <==> LeavesRouter(vm, e)
  {
    if r :| r in vm.nodes && r.id == e.from && r.body.kind == Router {
      LookupDistinct(vm.nodes, r);
    }
  }

  lemma NotFoundRule(vm: Vm, n: Node)
    ensures BlockedByNotFound(vm.edges, ViewsOf(vm), n) <==> FoundNothing(vm, n)
  {
    if FoundNothing(vm, n) {
      var e :| Into(vm, e, n) && e.from in vm.states && vm.states[e.from].notFound;
      assert e.from in ViewsOf(vm) && ViewsOf(vm)[e.from].notFound;
    }
    if BlockedByNotFound(vm.edges, ViewsOf(vm), n) {
      var e :| e in vm.edges && e.to == n.id && e.from in ViewsOf(vm) && ViewsOf(vm)[e.from].notFound;
      assert Into(vm, e, n);
    }
  }

  lemma NotTakenEdge(vm: Vm, e: Edge<Id>)
    requires DistinctIds(vm.nodes)
    ensures NotTaken(vm, e) <==>
      IsRouter(vm.nodes, e.from) && e.from in ViewsOf(vm) && OnUnselectedBranch(ViewsOf(vm)[e.from], e)
  {
    RouterByLookup(vm, e);
  }

  lemma RouterRule(vm: Vm, n: Node)
    requires DistinctIds(vm.nodes)
    ensures BlockedByRouter(vm.nodes, vm.edges, ViewsOf(vm), n) <==> Deselected(vm, n)
  {
    hide NotTaken, IsRouter, OnUnselectedBranch;
    forall e ensures NotTaken(vm, e) <==>
      IsRouter(vm.nodes, e.from) && e.from in ViewsOf(vm) && OnUnselectedBranch(ViewsOf(vm)[e.from], e)
    {
      NotTakenEdge(vm, e);
    }
    if Deselected(vm, n) {
      var e :| Into(vm, e, n) && NotTaken(vm, e);
      assert e in vm.edges && e.to == n.id;
    }
    if BlockedByRouter(vm.nodes, vm.edges, ViewsOf(vm), n) {
      var e :| e in vm.edges && e.to == n.id && IsRouter(vm.nodes, e.from)
        && e.from in ViewsOf(vm) && OnUnselectedBranch(ViewsOf(vm)[e.from], e);
      assert Into(vm, e, n);
    }
  }

  lemma UpstreamRule(vm: Vm, n: Node)
    ensures AllUpstreamSkipped(vm.edges, ViewsOf(vm), n) <==> CutOff(vm, n)
  {
    if CutOff(vm, n) {
      forall e | e in vm.edges && e.to == n.id ensures e.from in ViewsOf(vm) && ViewsOf(vm)[e.from].status.Skipped? {
        assert Into(vm, e, n);
      }
      var e :| Into(vm, e, n);
      assert e in vm.edges && e.to == n.id;
    }
    if AllUpstreamSkipped(vm.edges, ViewsOf(vm), n) {
      var e :| e in vm.edges && e.to == n.id;
      assert Into(vm, e, n);
    }
  }

  lemma RulesAreReasons(vm: Vm, n: Node)
    requires DistinctIds(vm.nodes)
    ensures Skippable(vm.nodes, vm.edges, ViewsOf(vm), n) <==> FoundNothing(vm, n) || Deselected(vm, n) || CutOff(vm, n)
  {
    hide BlockedByNotFound, BlockedByRouter, AllUpstreamSkipped, FoundNothing, Deselected, CutOff;
    NotFoundRule(vm, n);
    RouterRule(vm, n);
    UpstreamRule(vm, n);
  }

  // ----- in every reachable state -----

  /** After each propagation of a run of a graph that does not grow, a node is
      skipped if and only if it is a model with a not-found upstream, or an edge
      into it was not taken by its router, or it has upstreams and all of them were
      skipped. One upstream that ran is enough against the last. */
  lemma SkippedExactly(env: Env, tr: seq<Vm>, ns: seq<Node>, i: nat, n: Node)
    requires IsRun(env, tr, ns) && ExpandFree(tr[0].nodes) && i < |tr| && n in tr[i].nodes
    ensures var q := AfterSkips(tr[i]);
      && n.id in q.states
      && (q.states[n.id].status == Skipped <==> FoundNothing(q, n) || Deselected(q, n) || CutOff(q, n))
  {
    hide Skippable, IsRun, FoundNothing, Deselected, CutOff;
    var q := AfterSkips(tr[i]);
    RunIsConsistent(env, tr, ns, i);
    RunIsJustified(env, tr, ns, i);
    SkipsAreConsistent(tr[i]);
    PropagationJustifies(tr[i]);
    AfterSkipsIsQuiescent(tr[i]);
    PropagationOnlySkips(tr[i]);
    RulesAreReasons(q, n);
    JustifiedExactly(q, n);
  }

  lemma JustifiedExactly(q: Vm, n: Node)
    requires Consistent(q) && Justified(q) && Quiescent(q) && n in q.nodes
    ensures n.id in q.states
    ensures q.states[n.id].status == Skipped <==> Skippable(q.nodes, q.edges, ViewsOf(q), n)
  {
    hide Skippable;
    assert JustifiedNode(q, n) && GoodState(q, q.states[n.id]) && !CanSkip(q, n);
  }

  /** All a propagation records with a skip, and the reason: a not-found upstream
      goes first. */
  lemma ReasonExactly(s: Vm, n: Node)
    requires DistinctIds(s.nodes) && n in s.nodes && n.id in s.states && s.states[n.id].status == Pending
    requires AfterSkips(s).states[n.id].status == Skipped
    ensures AfterSkips(s).states[n.id] == s.states[n.id].(
      status := Skipped,
      skipReason := Some(if FoundNothing(s, n) then UpstreamNotFound else BranchNotSelected))
  {
    hide FoundNothing, LeastSkip, BlockedByNotFound;
    LookupDistinct(s.nodes, n);
    NotFoundRule(s, n);
  }

  // ----- who is chosen -----

  ghost predicate Finished(status: NodeStatus) {
    status == Succeeded || status == Expanded || status == Skipped
  }

  lemma ReadyExactly(q: Vm, n: Node)
    ensures IsReady(q.edges, ViewsOf(q), n) <==>
      && n.id in q.states && q.states[n.id].status == Pending
      && forall e :: Into(q, e, n) ==> e.from in q.states && Finished(q.states[e.from].status)
  {
    if IsReady(q.edges, ViewsOf(q), n) {
      forall e | Into(q, e, n) ensures e.from in q.states && Finished(q.states[e.from].status) {
        assert e.from in ViewsOf(q) && Complete(ViewsOf(q)[e.from].status);
      }
    } else if n.id in q.states && q.states[n.id].status == Pending {
      var e :| e in q.edges && e.to == n.id && !(e.from in ViewsOf(q) && Complete(ViewsOf(q)[e.from].status));
      assert Into(q, e, n);
    }
  }

  /** Ready after propagation: still pending, and every upstream succeeded, was
      expanded or was skipped. */
  lemma ChosenExactly(s: Vm, n: Node)
    ensures var q := AfterSkips(s);
      Chosen(s, n) <==>
        && n in s.nodes && n.id in q.states && q.states[n.id].status == Pending
        && forall e :: Into(s, e, n) ==> e.from in q.states && Finished(q.states[e.from].status)
  {
    hide IsReady, SkipStates, LeastSkip;
    ReadyExactly(AfterSkips(s), n);
    assert forall e :: Into(AfterSkips(s), e, n) <==> Into(s, e, n);
  }

  /** What the scheduler returns: the earliest chosen node of the list. */
  lemma {:induction false} FirstIsEarliest(nodes: seq<Node>, edges: seq<Edge<Id>>, views: Views) returns (k: nat)
    requires FirstReady(nodes, edges, views).Some?
    ensures k < |nodes| && nodes[k] == FirstReady(nodes, edges, views).value
    ensures forall j :: 0 <= j < k ==> !IsReady(edges, views, nodes[j])
  {
    hide IsReady;
    k := 0;
    if !IsReady(edges, views, nodes[0]) {
      var later := FirstIsEarliest(nodes[1..], edges, views);
      k := later + 1;
    }
  }

  lemma NextIsEarliest(s: Vm) returns (k: nat)
    requires FirstReady(s.nodes, s.edges, ViewsOf(AfterSkips(s))).Some?
    ensures k < |s.nodes| && FirstReady(s.nodes, s.edges, ViewsOf(AfterSkips(s))) == Some(s.nodes[k])
    ensures Chosen(s, s.nodes[k]) && forall j :: 0 <= j < k ==> !Chosen(s, s.nodes[j])
  {
    hide IsReady;
    k := FirstIsEarliest(s.nodes, s.edges, ViewsOf(AfterSkips(s)));
  }
}
