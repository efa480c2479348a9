/** The scheduler: skip propagation to a fixpoint, then the first ready node. */
module Schedulers {
  import opened TaskGraphs
  import opened RunStates
  import opened Storage

  // ----- the skip rules and readiness, on what the scheduler sees -----

  predicate IsRouter(nodes: seq<Node>, id: Id) {
    Lookup(nodes, id).Some? && Lookup(nodes, id).value.body.kind.Router?
  }

  predicate BlockedByNotFound(edges: seq<Edge<Id>>, views: Views, n: Node) {
    n.body.kind.Model? && exists e | e in edges :: e.to == n.id && e.from in views && views[e.from].notFound
  }

  predicate OnUnselectedBranch(view: View, e: Edge<Id>) {
    view.status.Succeeded? && Branch(e).Some? && view.branch.Some? && Branch(e) != view.branch
  }

  predicate BlockedByRouter(nodes: seq<Node>, edges: seq<Edge<Id>>, views: Views, n: Node) {
    exists e | e in edges ::
      e.to == n.id && IsRouter(nodes, e.from) && e.from in views && OnUnselectedBranch(views[e.from], e)
  }

  predicate AllUpstreamSkipped(edges: seq<Edge<Id>>, views: Views, n: Node) {
    && (exists e | e in edges :: e.to == n.id)
    && forall e | e in edges && e.to == n.id :: e.from in views && views[e.from].status.Skipped?
  }

  predicate Skippable(nodes: seq<Node>, edges: seq<Edge<Id>>, views: Views, n: Node) {
    || BlockedByNotFound(edges, views, n)
    || BlockedByRouter(nodes, edges, views, n)
    || AllUpstreamSkipped(edges, views, n)
  }

  function Reason(edges: seq<Edge<Id>>, views: Views, n: Node): SkipReason {
    if BlockedByNotFound(edges, views, n) then UpstreamNotFound else BranchNotSelected
  }

  predicate IsPending(views: Views, n: Node) {
    n.id in views && views[n.id].status.Pending?
  }

  predicate UpstreamComplete(edges: seq<Edge<Id>>, views: Views, n: Node) {
    forall e | e in edges && e.to == n.id :: e.from in views && Complete(views[e.from].status)
  }

  predicate IsReady(edges: seq<Edge<Id>>, views: Views, n: Node) {
    IsPending(views, n) && UpstreamComplete(edges, views, n)
  }

  function FirstReady(nodes: seq<Node>, edges: seq<Edge<Id>>, views: Views): (r: Option<Node>)
    ensures r.Some? ==> r.value in nodes && IsReady(edges, views, r.value)
    ensures r.None? ==> forall n :: n in nodes ==> !IsReady(edges, views, n)
  {
    if nodes == [] then None
    else if IsReady(edges, views, nodes[0]) then Some(nodes[0])
    else FirstReady(nodes[1..], edges, views)
  }

  // ----- what propagation computes: the least closed set -----

  ghost function WithSkipped(views: Views, skipped: set<Id>): Views {
    map id | id in views :: if id in skipped then views[id].(status := Skipped) else views[id]
  }

  ghost function PendingIds(nodes: seq<Node>, views: Views): set<Id> {
    set n | n in nodes && IsPending(views, n) :: n.id
  }

  /** A set of pending nodes that, once skipped, makes no other pending node skippable. */
  ghost predicate SkipClosed(nodes: seq<Node>, edges: seq<Edge<Id>>, views: Views, skipped: set<Id>) {
    && skipped <= PendingIds(nodes, views)
    && forall n :: n in nodes && IsPending(views, n) && Skippable(nodes, edges, WithSkipped(views, skipped), n)
         ==> n.id in skipped
  }

  ghost function LeastSkip(nodes: seq<Node>, edges: seq<Edge<Id>>, views: Views): set<Id> {
    set id | id in PendingIds(nodes, views)
      && forall skipped :: SkipClosed(nodes, edges, views, skipped) ==> id in skipped
  }

  lemma SkippableIsMonotone(nodes: seq<Node>, edges: seq<Edge<Id>>, views: Views, n: Node, a: set<Id>, b: set<Id>)
    requires a <= b <= PendingIds(nodes, views)
    requires Skippable(nodes, edges, WithSkipped(views, a), n)
    ensures Skippable(nodes, edges, WithSkipped(views, b), n)
  {
    var va, vb := WithSkipped(views, a), WithSkipped(views, b);
    if BlockedByNotFound(edges, va, n) {
      var e :| e in edges && e.to == n.id && e.from in va && va[e.from].notFound;
      assert e.from in vb && vb[e.from].notFound;
    } else if BlockedByRouter(nodes, edges, va, n) {
      var e :| e in edges && e.to == n.id && IsRouter(nodes, e.from)
        && e.from in va && OnUnselectedBranch(va[e.from], e);
      assert views[e.from].status.Succeeded? && e.from !in b;
      assert e.from in vb && OnUnselectedBranch(vb[e.from], e);
    } else {
      assert AllUpstreamSkipped(edges, vb, n);
    }
  }

  /** The least closed set is itself closed. */
  lemma LeastSkipIsClosed(nodes: seq<Node>, edges: seq<Edge<Id>>, views: Views)
    ensures SkipClosed(nodes, edges, views, LeastSkip(nodes, edges, views))
  {
    var least := LeastSkip(nodes, edges, views);
    forall n | n in nodes && IsPending(views, n) && Skippable(nodes, edges, WithSkipped(views, least), n)
      ensures n.id in least
    {
      forall skipped | SkipClosed(nodes, edges, views, skipped) ensures n.id in skipped {
        SkippableIsMonotone(nodes, edges, views, n, least, skipped);
      }
      assert n.id in PendingIds(nodes, views);
    }
  }

  /** Leastness doubles as an induction principle over propagation. */
  lemma LeastSkipIsLeast(nodes: seq<Node>, edges: seq<Edge<Id>>, views: Views, skipped: set<Id>)
    requires SkipClosed(nodes, edges, views, skipped)
    ensures LeastSkip(nodes, edges, views) <= skipped
  {}

  ghost function SkipStates(vm: Vm, skipped: set<Id>): map<Id, NodeState> {
    map id | id in vm.states ::
      if id in skipped && Lookup(vm.nodes, id).Some?
      then vm.states[id].(status := Skipped,
                          skipReason := Some(Reason(vm.edges, ViewsOf(vm), Lookup(vm.nodes, id).value)))
      else vm.states[id]
  }

  /** The state once skips have been propagated as far as they go. */
  ghost function AfterSkips(vm: Vm): Vm {
    vm.(states := SkipStates(vm, LeastSkip(vm.nodes, vm.edges, ViewsOf(vm))))
  }

  lemma ViewsOfSkipStates(vm: Vm, skipped: set<Id>)
    requires skipped <= PendingIds(vm.nodes, ViewsOf(vm))
    ensures ViewsOf(vm.(states := SkipStates(vm, skipped))) == WithSkipped(ViewsOf(vm), skipped)
  {}

  predicate CanSkip(vm: Vm, n: Node) {
    IsPending(ViewsOf(vm), n) && Skippable(vm.nodes, vm.edges, ViewsOf(vm), n)
  }

  /** Nothing is left to skip. */
  ghost predicate Quiescent(vm: Vm) {
    forall n :: n in vm.nodes ==> !CanSkip(vm, n)
  }

  lemma AfterSkipsIsQuiescent(vm: Vm)
    ensures Quiescent(AfterSkips(vm))
  {
    var least := LeastSkip(vm.nodes, vm.edges, ViewsOf(vm));
    LeastSkipIsClosed(vm.nodes, vm.edges, ViewsOf(vm));
    ViewsOfSkipStates(vm, least);
  }

  ghost predicate SameNodes(nodes: seq<Node>, order: seq<Node>) {
    DistinctIds(nodes) && DistinctIds(order) && forall n :: n in nodes <==> n in order
  }

  lemma LookupIgnoresOrder(nodes: seq<Node>, order: seq<Node>, id: Id)
    requires SameNodes(nodes, order)
    ensures Lookup(nodes, id) == Lookup(order, id)
  {
    if Lookup(nodes, id).Some? {
      LookupDistinct(order, Lookup(nodes, id).value);
    }
  }

  lemma SkippableIgnoresOrder(nodes: seq<Node>, order: seq<Node>, edges: seq<Edge<Id>>, views: Views, n: Node)
    requires SameNodes(nodes, order)
    ensures Skippable(nodes, edges, views, n) == Skippable(order, edges, views, n)
  {
    forall id ensures Lookup(nodes, id) == Lookup(order, id) {
      LookupIgnoresOrder(nodes, order, id);
    }
  }

  lemma LeastSkipIgnoresOrder(nodes: seq<Node>, order: seq<Node>, edges: seq<Edge<Id>>, views: Views)
    requires SameNodes(nodes, order)
    ensures LeastSkip(nodes, edges, views) == LeastSkip(order, edges, views)
  {
    assert PendingIds(nodes, views) == PendingIds(order, views);
    forall skipped ensures SkipClosed(nodes, edges, views, skipped) == SkipClosed(order, edges, views, skipped) {
      forall n ensures Skippable(nodes, edges, WithSkipped(views, skipped), n)
                    == Skippable(order, edges, WithSkipped(views, skipped), n)
      {
        SkippableIgnoresOrder(nodes, order, edges, WithSkipped(views, skipped), n);
      }
    }
  }

  /** Neither the skipped set nor the recorded reasons depend on the order of
      the nodes. */
  lemma SkipsIgnoreNodeOrder(vm: Vm, order: seq<Node>)
    requires SameNodes(vm.nodes, order)
    ensures AfterSkips(vm.(nodes := order)) == AfterSkips(vm).(nodes := order)
  {
    var other := vm.(nodes := order);
    assert ViewsOf(other) == ViewsOf(vm);
    LeastSkipIgnoresOrder(vm.nodes, order, vm.edges, ViewsOf(vm));
    var least := LeastSkip(vm.nodes, vm.edges, ViewsOf(vm));
    forall id ensures Lookup(vm.nodes, id) == Lookup(order, id) {
      LookupIgnoresOrder(vm.nodes, order, id);
    }
    assert SkipStates(other, least) == SkipStates(vm, least);
  }

  // ----- the loop that computes it -----

  ghost function SkippedTo(vm: Vm, skipped: set<Id>): Vm {
    vm.(states := SkipStates(vm, skipped))
  }

  ghost predicate Propagating(vm: Vm, skipped: set<Id>) {
    DistinctIds(vm.nodes) && skipped <= LeastSkip(vm.nodes, vm.edges, ViewsOf(vm))
  }

  lemma PropagationStep(vm: Vm, skipped: set<Id>, n: Node)
    requires Propagating(vm, skipped) && n in vm.nodes
    requires CanSkip(SkippedTo(vm, skipped), n)
    ensures n.id !in skipped && n.id in LeastSkip(vm.nodes, vm.edges, ViewsOf(vm))
    ensures Reason(vm.edges, ViewsOf(SkippedTo(vm, skipped)), n) == Reason(vm.edges, ViewsOf(vm), n)
  {
    var views := ViewsOf(vm);
    var least := LeastSkip(vm.nodes, vm.edges, views);
    ViewsOfSkipStates(vm, skipped);
    SkippableIsMonotone(vm.nodes, vm.edges, views, n, skipped, least);
    LeastSkipIsClosed(vm.nodes, vm.edges, views);
    var now := WithSkipped(views, skipped);
    assert forall id :: id in views ==> id in now && now[id].notFound == views[id].notFound;
  }

  /** A node still pending has not been touched. */
  lemma PropagationLeavesPending(vm: Vm, skipped: set<Id>, n: Node)
    requires IsPending(ViewsOf(SkippedTo(vm, skipped)), n)
    ensures n.id in vm.states && SkippedTo(vm, skipped).states[n.id] == vm.states[n.id]
  {}

  lemma PropagationUpdate(vm: Vm, skipped: set<Id>, n: Node, state: NodeState)
    requires DistinctIds(vm.nodes) && n in vm.nodes && n.id in vm.states && n.id !in skipped
    requires state == vm.states[n.id].(status := Skipped,
                                       skipReason := Some(Reason(vm.edges, ViewsOf(vm), n)))
    ensures SkipStates(vm, skipped)[n.id := state] == SkipStates(vm, skipped + {n.id})
  {
    LookupDistinct(vm.nodes, n);
  }

  lemma PropagationEnds(vm: Vm, skipped: set<Id>)
    requires Propagating(vm, skipped)
    requires Quiescent(SkippedTo(vm, skipped))
    ensures SkippedTo(vm, skipped) == AfterSkips(vm)
  {
    var views := ViewsOf(vm);
    ViewsOfSkipStates(vm, skipped);
    forall n | n in vm.nodes && IsPending(views, n) && Skippable(vm.nodes, vm.edges, WithSkipped(views, skipped), n)
      ensures n.id in skipped
    {
      assert !CanSkip(SkippedTo(vm, skipped), n);
    }
    LeastSkipIsLeast(vm.nodes, vm.edges, views, skipped);
    assert skipped == LeastSkip(vm.nodes, vm.edges, views);
  }

  lemma NothingSkipped(vm: Vm)
    requires DistinctIds(vm.nodes)
    ensures Propagating(vm, {}) && SkippedTo(vm, {}) == vm
  {
    assert SkipStates(vm, {}) == vm.states;
  }

  predicate FinalSucceeded(vm: Vm, n: Node) {
    n.body.kind.Final? && n.id in vm.states && vm.states[n.id].status.Succeeded?
  }

  class Scheduler {
    const storage: InMemoryStorage

    constructor (storage: InMemoryStorage)
      ensures this.storage == storage
    {
      this.storage := storage;
    }

    /** The body of the propagation loop for one node. */
    method SkipIfBlocked(n: Node, ghost vm: Vm, ghost skipped: set<Id>) returns (blocked: bool)
      requires Propagating(vm, skipped) && storage.Snapshot() == SkippedTo(vm, skipped) && n in vm.nodes
      modifies storage`runNodeStates
      ensures blocked == CanSkip(SkippedTo(vm, skipped), n)
      ensures blocked ==> n.id !in skipped && Propagating(vm, skipped + {n.id})
      ensures blocked ==> n.id in LeastSkip(vm.nodes, vm.edges, ViewsOf(vm))
      ensures storage.Snapshot() == SkippedTo(vm, if blocked then skipped + {n.id} else skipped)
    {
      hide LeastSkip, SkipStates, BlockedByRouter, AllUpstreamSkipped, BlockedByNotFound;
      var views := ViewsOf(storage.Snapshot());
      blocked := IsPending(views, n) && Skippable(storage.nodes, storage.taskEdges, views, n);
      if blocked {
        PropagationStep(vm, skipped, n);
        PropagationLeavesPending(vm, skipped, n);
        var state := storage.runNodeStates[n.id].(
          status := Skipped, skipReason := Some(Reason(storage.taskEdges, views, n)));
        PropagationUpdate(vm, skipped, n, state);
        storage.PutRunNodeState(n.id, state);
      }
    }

    /** First propagate skips until a whole pass changes nothing, then return
        the first pending node whose upstreams have all finished. */
    method NextNode() returns (node: Option<Node>)
      requires DistinctIds(storage.nodes)
      modifies storage`runNodeStates
      ensures storage.Snapshot() == AfterSkips(old(storage.Snapshot()))
      ensures node == FirstReady(storage.nodes, storage.taskEdges, ViewsOf(storage.Snapshot()))
    {
      hide LeastSkip, SkipStates, CanSkip;
      ghost var vm := storage.Snapshot();
      ghost var skipped: set<Id> := {};
      NothingSkipped(vm);
      var changed := true;
      while changed
        invariant Propagating(vm, skipped) && storage.Snapshot() == SkippedTo(vm, skipped)
        invariant !changed ==> Quiescent(SkippedTo(vm, skipped))
        decreases LeastSkip(vm.nodes, vm.edges, ViewsOf(vm)) - skipped, changed
      {
        changed := false;
        ghost var before := skipped;
        for i := 0 to |storage.nodes|
          invariant Propagating(vm, skipped) && storage.Snapshot() == SkippedTo(vm, skipped)
          invariant before <= skipped && (changed ==> before < skipped)
          invariant !changed ==> skipped == before
          invariant !changed ==> forall j :: 0 <= j < i ==> !CanSkip(SkippedTo(vm, skipped), vm.nodes[j])
        {
          var n := storage.nodes[i];
          var blocked := SkipIfBlocked(n, vm, skipped);
          if blocked {
            skipped := skipped + {n.id};
            changed := true;
          }
        }
      }
      PropagationEnds(vm, skipped);
      node := FirstReady(storage.nodes, storage.taskEdges, ViewsOf(storage.Snapshot()));
    }

    /** `terminal_succeeded`: some final node has succeeded. */
    method TerminalSucceeded() returns (done: bool)
      ensures done <==> exists n :: n in storage.nodes && FinalSucceeded(storage.Snapshot(), n)
    {
      done := exists n | n in storage.nodes :: FinalSucceeded(storage.Snapshot(), n);
    }
  }
}
