/** Branch pruning over whole runs of a graph that does not grow: a node that
    was skipped had a reason to be, a node that ran had none, and a router that
    chose one branch keeps every other branch from running. */
module Pruning {
  import opened TaskGraphs
  import opened RunStates
  import opened Schedulers
  import opened Execution
  import opened Termination
  import opened Reachability

  ghost predicate ExpandFree(nodes: seq<Node>) {
    forall n :: n in nodes ==> !n.body.kind.Expand?
  }

  /** Every member of the least closed set is skippable in the end: propagation
      skips nothing without a reason. */
  lemma LeastSkipIsSupported(nodes: seq<Node>, edges: seq<Edge<Id>>, views: Views, n: Node)
    requires DistinctIds(nodes) && n in nodes && n.id in LeastSkip(nodes, edges, views)
    ensures Skippable(nodes, edges, WithSkipped(views, LeastSkip(nodes, edges, views)), n)
  {
    var least := LeastSkip(nodes, edges, views);
    var final := WithSkipped(views, least);
    var supported := set m | m in nodes && m.id in least && Skippable(nodes, edges, final, m) :: m.id;
    LeastSkipIsClosed(nodes, edges, views);
    forall m | m in nodes && IsPending(views, m) && Skippable(nodes, edges, WithSkipped(views, supported), m)
      ensures m.id in supported
    {
      SkippableIsMonotone(nodes, edges, views, m, supported, least);
    }
    LeastSkipIsLeast(nodes, edges, views, supported);
    var m :| m in nodes && m.id == n.id && Skippable(nodes, edges, final, m);
  }

  /** What the skip rules read of a view. */
  ghost predicate SameMarks(a: View, b: View) {
    a.status == b.status && a.notFound == b.notFound && a.branch == b.branch
  }

  /** Skip rules read the upstreams only. */
  lemma SkippableReadsUpstreams(nodes: seq<Node>, edges: seq<Edge<Id>>, a: Views, b: Views, n: Node)
    requires forall e :: e in edges && e.to == n.id ==> e.from in a && e.from in b && SameMarks(a[e.from], b[e.from])
    ensures Skippable(nodes, edges, a, n) == Skippable(nodes, edges, b, n)
  {}

  /** Once skippable, always skippable: the rules only read what is final. */
  lemma SkippablePersists(nodes: seq<Node>, edges: seq<Edge<Id>>, a: Views, b: Views, n: Node)
    requires forall e ::
      e in edges && e.to == n.id && e.from in a && (Complete(a[e.from].status) || a[e.from].notFound) ==>
      e.from in b && SameMarks(a[e.from], b[e.from])
    requires Skippable(nodes, edges, a, n)
    ensures Skippable(nodes, edges, b, n)
  {
    if BlockedByNotFound(edges, a, n) {
      var e :| e in edges && e.to == n.id && e.from in a && a[e.from].notFound;
      assert e.from in b && b[e.from].notFound;
    } else if BlockedByRouter(nodes, edges, a, n) {
      var e :| e in edges && e.to == n.id && IsRouter(nodes, e.from) && e.from in a && OnUnselectedBranch(a[e.from], e);
      assert e.from in b && OnUnselectedBranch(b[e.from], e);
    } else {
      assert AllUpstreamSkipped(edges, b, n);
    }
  }

  /** A node that ran had finished upstreams and no reason to be skipped; a node
      that was skipped had one. Both still hold. */
  ghost predicate JustifiedNode(vm: Vm, n: Node) {
    && n.id in vm.states
    && (Executed(vm.states[n.id].status) ==>
          UpstreamsFinished(vm, n) && !Skippable(vm.nodes, vm.edges, ViewsOf(vm), n))
    && (vm.states[n.id].status.Skipped? ==> Skippable(vm.nodes, vm.edges, ViewsOf(vm), n))
  }

  ghost predicate Justified(vm: Vm) {
    forall n :: n in vm.nodes ==> JustifiedNode(vm, n)
  }

  /** A node whose state did not change stays justified. */
  lemma JustificationPersists(a: Vm, b: Vm, n: Node)
    requires Consistent(a) && Frozen(a, b) && b.nodes == a.nodes && b.edges == a.edges
    requires n in a.nodes && JustifiedNode(a, n) && n.id in b.states && b.states[n.id] == a.states[n.id]
    ensures JustifiedNode(b, n)
  {
    if Executed(a.states[n.id].status) {
      SkippableReadsUpstreams(a.nodes, a.edges, ViewsOf(a), ViewsOf(b), n);
    } else if a.states[n.id].status.Skipped? {
      forall id | id in a.states && (Complete(ViewsOf(a)[id].status) || ViewsOf(a)[id].notFound)
        ensures id in ViewsOf(b) && SameMarks(ViewsOf(a)[id], ViewsOf(b)[id])
      {
        assert GoodState(a, a.states[id]);
      }
      SkippablePersists(a.nodes, a.edges, ViewsOf(a), ViewsOf(b), n);
    }
  }

  lemma NewlySkippedIsJustified(s: Vm, n: Node)
    requires Sane(s) && n in s.nodes && n.id in LeastSkip(s.nodes, s.edges, ViewsOf(s))
    ensures JustifiedNode(AfterSkips(s), n)
  {
    ViewsOfSkipStates(s, LeastSkip(s.nodes, s.edges, ViewsOf(s)));
    LeastSkipIsSupported(s.nodes, s.edges, ViewsOf(s), n);
  }

  lemma PropagationJustifies(s: Vm)
    requires Consistent(s) && Justified(s)
    ensures Justified(AfterSkips(s))
  {
    SkipsAreConsistent(s);
    forall n | n in s.nodes ensures JustifiedNode(AfterSkips(s), n) {
      if n.id in LeastSkip(s.nodes, s.edges, ViewsOf(s)) {
        NewlySkippedIsJustified(s, n);
      } else {
        JustificationPersists(s, AfterSkips(s), n);
      }
    }
  }

  /** The chosen node had finished upstreams and, after propagation, no rule
      against it; executing it changes neither. */
  lemma ChosenIsJustified(q: Vm, n: Node, t: Vm)
    requires Consistent(q) && Quiescent(q) && n in q.nodes && n.id in q.states && q.states[n.id].status.Pending?
    requires UpstreamsFinished(q, n) && Settled(n, t) && Frozen(q, t) && t.nodes == q.nodes && t.edges == q.edges
    ensures JustifiedNode(t, n)
  {
    assert !CanSkip(q, n);
    SkippableReadsUpstreams(q.nodes, q.edges, ViewsOf(q), ViewsOf(t), n);
  }

  lemma EffectJustifies(s: Vm, q: Vm, n: Node, t: Vm)
    requires Effect(s, q, n, t) && ExpandFree(q.nodes) && Quiescent(q) && Justified(q)
    ensures Justified(t)
  {
    FrozenTurn(s, q, n, t);
    forall m | m in t.nodes ensures JustifiedNode(t, m) {
      if m == n {
        ChosenIsJustified(q, n, t);
      } else {
        var i, j :| 0 <= i < |q.nodes| && 0 <= j < |q.nodes| && q.nodes[i] == m && q.nodes[j] == n;
        assert i < j || j < i;
        JustificationPersists(q, t, m);
      }
    }
  }

  lemma FrozenTurn(s: Vm, q: Vm, n: Node, t: Vm)
    requires Effect(s, q, n, t)
    ensures Frozen(q, t)
  {}

  // ----- whole runs -----

  ghost predicate SameGraph(a: Vm, b: Vm) {
    b.nodes == a.nodes && b.edges == a.edges && b.states.Keys == a.states.Keys
  }

  lemma {:induction false} EffectsFixGraph(tr: seq<Vm>, qs: seq<Vm>, ns: seq<Node>, i: nat)
    requires Effects(tr, qs, ns) && ExpandFree(tr[0].nodes) && i < |tr|
    ensures SameGraph(tr[0], tr[i])
  {
    if i > 0 {
      EffectsFixGraph(tr, qs, ns, i - 1);
      assert Effect(tr[i - 1], qs[i - 1], ns[i - 1], tr[i - 1 + 1]);
    }
  }

  lemma GraphIsFixed(env: Env, tr: seq<Vm>, ns: seq<Node>, i: nat)
    requires IsRun(env, tr, ns) && ExpandFree(tr[0].nodes) && i < |tr|
    ensures SameGraph(tr[0], tr[i])
  {
    RunHasEffects(env, tr, ns);
    EffectsFixGraph(tr, Propagated(tr), ns, i);
  }

  /** In every reachable state of a graph that does not grow, exactly the nodes
      with a reason were skipped and none with a reason ran. */
  lemma {:induction false} RunIsJustified(env: Env, tr: seq<Vm>, ns: seq<Node>, i: nat)
    requires IsRun(env, tr, ns) && ExpandFree(tr[0].nodes) && i < |tr|
    ensures Justified(tr[i])
  {
    if i > 0 {
      var s := tr[i - 1];
      RunIsJustified(env, tr, ns, i - 1);
      RunIsConsistent(env, tr, ns, i - 1);
      GraphIsFixed(env, tr, ns, i - 1);
      PropagationJustifies(s);
      AfterSkipsIsQuiescent(s);
      RunHasEffects(env, tr, ns);
      assert Effect(tr[i - 1], Propagated(tr)[i - 1], ns[i - 1], tr[i - 1 + 1]);
      EffectJustifies(s, AfterSkips(s), ns[i - 1], tr[i]);
    }
  }

  /** The edge leaves a router that has succeeded and recorded a branch, and is
      labelled with another one. */
  ghost predicate Unselected(vm: Vm, e: Edge<Id>) {
    && e in vm.edges && IsRouter(vm.nodes, e.from) && e.from in vm.states
    && vm.states[e.from].status.Succeeded? && vm.states[e.from].selectedBranch.Some?
    && Branch(e).Some? && Branch(e) != vm.states[e.from].selectedBranch
  }

  lemma UnselectedIsFinal(a: Vm, b: Vm, e: Edge<Id>)
    requires Unselected(a, e) && Frozen(a, b) && SameGraph(a, b)
    ensures Unselected(b, e)
  {}

  lemma UnselectedIsBlocked(vm: Vm, e: Edge<Id>, n: Node)
    requires Unselected(vm, e) && n.id == e.to
    ensures BlockedByRouter(vm.nodes, vm.edges, ViewsOf(vm), n)
  {
    assert e.from in ViewsOf(vm) && OnUnselectedBranch(ViewsOf(vm)[e.from], e);
  }

  lemma ChosenIsNotSkippable(s: Vm, n: Node)
    requires Chosen(s, n)
    ensures var q := AfterSkips(s); !Skippable(q.nodes, q.edges, ViewsOf(q), n)
  {
    AfterSkipsIsQuiescent(s);
    assert !CanSkip(AfterSkips(s), n);
  }

  lemma UnselectedBlocks(s: Vm, e: Edge<Id>, n: Node)
    requires Unselected(AfterSkips(s), e) && Chosen(s, n)
    ensures n.id != e.to
  {
    ChosenIsNotSkippable(s, n);
    if n.id == e.to {
      UnselectedIsBlocked(AfterSkips(s), e, n);
    }
  }

  lemma UnselectedLater(env: Env, tr: seq<Vm>, ns: seq<Node>, e: Edge<Id>, i: nat, k: nat)
    requires IsRun(env, tr, ns) && ExpandFree(tr[0].nodes) && i <= k < |tr| && Unselected(tr[i], e)
    ensures Unselected(AfterSkips(tr[k]), e)
  {
    hide IsRun, Unselected, Consistent, Frozen, Chosen;
    GraphIsFixed(env, tr, ns, i);
    GraphIsFixed(env, tr, ns, k);
    FinishedIsFinal(env, tr, ns, i, k);
    RunIsConsistent(env, tr, ns, k);
    SkipsAreConsistent(tr[k]);
    PropagationOnlySkips(tr[k]);
    UnselectedIsFinal(tr[i], tr[k], e);
    UnselectedIsFinal(tr[k], AfterSkips(tr[k]), e);
  }

  /** From the states after a propagation on, what was finished there is final. */
  lemma PropagatedIsFinal(env: Env, tr: seq<Vm>, ns: seq<Node>, k: nat, i: nat)
    requires IsRun(env, tr, ns) && k < i < |tr|
    ensures Frozen(AfterSkips(tr[k]), tr[i])
  {
    hide Effect, Frozen;
    RunHasEffects(env, tr, ns);
    assert Propagated(tr)[k] == AfterSkips(tr[k]);
    FrozenTurn(tr[k], Propagated(tr)[k], ns[k], tr[k + 1]);
    EffectsFreeze(tr, Propagated(tr), ns, k + 1, i);
    FrozenTransitive(AfterSkips(tr[k]), tr[k + 1], tr[i]);
  }

  lemma UnselectedAlready(a: Vm, b: Vm, e: Edge<Id>)
    requires Unselected(b, e) && Frozen(a, b) && a.nodes == b.nodes && a.edges == b.edges
    requires e.from in a.states && Complete(a.states[e.from].status)
    ensures Unselected(a, e)
  {}

  lemma UnselectedEarlier(env: Env, tr: seq<Vm>, ns: seq<Node>, e: Edge<Id>, i: nat, k: nat, n: Node)
    requires IsRun(env, tr, ns) && ExpandFree(tr[0].nodes) && k < i < |tr| && Unselected(tr[i], e)
    requires Chosen(tr[k], n) && n.id == e.to
    ensures Unselected(AfterSkips(tr[k]), e)
  {
    hide IsRun, Chosen;
    GraphIsFixed(env, tr, ns, i);
    GraphIsFixed(env, tr, ns, k);
    ChosenIsPending(tr[k], n);
    PropagatedIsFinal(env, tr, ns, k, i);
    UnselectedAlready(AfterSkips(tr[k]), tr[i], e);
  }

  /** Router exclusivity: if at any point of the run the router has recorded
      another branch, the target of the edge is chosen at no point of it, before or
      after, and so never executed, not even by a turn that raises. */
  lemma UnselectedNeverRuns(env: Env, tr: seq<Vm>, ns: seq<Node>, e: Edge<Id>, i: nat, k: nat, n: Node)
    requires IsRun(env, tr, ns) && ExpandFree(tr[0].nodes)
    requires i < |tr| && Unselected(tr[i], e) && k < |tr| && Chosen(tr[k], n)
    ensures n.id != e.to
  {
    hide IsRun, Chosen, Unselected;
    if n.id == e.to {
      if i <= k {
        UnselectedLater(env, tr, ns, e, i, k);
      } else {
        UnselectedEarlier(env, tr, ns, e, i, k, n);
      }
      UnselectedBlocks(tr[k], e, n);
    }
  }

  /** Targets of differently labelled branches are never both chosen once the
      router has recorded a branch. */
  lemma BranchesAreExclusive(env: Env, tr: seq<Vm>, ns: seq<Node>, a: Edge<Id>, b: Edge<Id>, i: nat,
                             j: nat, m: Node, k: nat, n: Node)
    requires IsRun(env, tr, ns) && ExpandFree(tr[0].nodes)
    requires i < |tr| && a in tr[i].edges && b in tr[i].edges && a.from == b.from && IsRouter(tr[i].nodes, a.from)
    requires Branch(a).Some? && Branch(b).Some? && Branch(a) != Branch(b)
    requires a.from in tr[i].states && tr[i].states[a.from].status.Succeeded?
      && tr[i].states[a.from].selectedBranch.Some?
    requires j < |tr| && Chosen(tr[j], m) && k < |tr| && Chosen(tr[k], n)
    ensures !(m.id == a.to && n.id == b.to)
  {
    hide IsRun, Chosen;
    if Branch(a) != tr[i].states[a.from].selectedBranch {
      UnselectedNeverRuns(env, tr, ns, a, i, j, m);
    } else {
      UnselectedNeverRuns(env, tr, ns, b, i, k, n);
    }
  }

  ghost predicate RecordsBranch(vm: Vm, n: Node) {
    n.id in vm.states && vm.states[n.id].status.Succeeded? && !vm.states[n.id].cacheHit ==>
      vm.states[n.id].selectedBranch.Some?
  }

  lemma EffectRecordsBranch(s: Vm, q: Vm, m: Node, t: Vm, n: Node)
    requires Consistent(s) && Effect(s, q, m, t) && n in s.nodes && n.body.kind.Router?
    requires RecordsBranch(s, n)
    ensures RecordsBranch(t, n)
  {
    if m.id == n.id {
      LookupDistinct(s.nodes, n);
      LookupDistinct(s.nodes, m);
    }
  }

  lemma {:induction false} EffectsRecordBranch(tr: seq<Vm>, qs: seq<Vm>, ns: seq<Node>, i: nat, n: Node)
    requires Effects(tr, qs, ns) && ExpandFree(tr[0].nodes) && i < |tr| && n in tr[0].nodes && n.body.kind.Router?
    ensures RecordsBranch(tr[i], n)
  {
    hide Effect, Consistent;
    if i > 0 {
      EffectsRecordBranch(tr, qs, ns, i - 1, n);
      EffectsFixGraph(tr, qs, ns, i - 1);
      NextRecordsBranch(tr, qs, ns, i - 1, n);
    }
  }

  /** A router that succeeded has recorded a branch, unless its result was
      reused from the cache. */
  lemma RouterRecordsBranch(env: Env, tr: seq<Vm>, ns: seq<Node>, i: nat, n: Node)
    requires IsRun(env, tr, ns) && ExpandFree(tr[0].nodes) && i < |tr| && n in tr[0].nodes && n.body.kind.Router?
    ensures RecordsBranch(tr[i], n)
  {
    RunHasEffects(env, tr, ns);
    EffectsRecordBranch(tr, Propagated(tr), ns, i, n);
  }

  lemma NextRecordsBranch(tr: seq<Vm>, qs: seq<Vm>, ns: seq<Node>, i: nat, n: Node)
    requires Effects(tr, qs, ns) && i < |ns| && n in tr[i].nodes && n.body.kind.Router? && RecordsBranch(tr[i], n)
    ensures RecordsBranch(tr[i + 1], n)
  {
    EffectRecordsBranch(tr[i], qs[i], ns[i], tr[i + 1], n);
  }

  ghost predicate NoneExpanded(vm: Vm) {
    forall id :: id in vm.states ==> !vm.states[id].status.Expanded?
  }

  lemma EffectExpandsNone(s: Vm, q: Vm, n: Node, t: Vm)
    requires Effect(s, q, n, t) && !n.body.kind.Expand? && NoneExpanded(s)
    ensures NoneExpanded(t)
  {}

  lemma {:induction false} EffectsExpandNone(tr: seq<Vm>, qs: seq<Vm>, ns: seq<Node>, i: nat)
    requires Effects(tr, qs, ns) && ExpandFree(tr[0].nodes) && i < |tr|
    ensures NoneExpanded(tr[i])
  {
    hide Effect, Consistent;
    if i > 0 {
      EffectsExpandNone(tr, qs, ns, i - 1);
      EffectsFixGraph(tr, qs, ns, i - 1);
      NextExpandsNone(tr, qs, ns, i - 1);
    }
  }

  lemma NextExpandsNone(tr: seq<Vm>, qs: seq<Vm>, ns: seq<Node>, i: nat)
    requires Effects(tr, qs, ns) && i < |ns| && ExpandFree(tr[i].nodes) && NoneExpanded(tr[i])
    ensures NoneExpanded(tr[i + 1])
  {
    assert Effect(tr[i], qs[i], ns[i], tr[i + 1]);
    EffectExpandsNone(tr[i], qs[i], ns[i], tr[i + 1]);
  }
}
