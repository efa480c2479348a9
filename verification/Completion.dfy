/** No run of an accepted graph stalls: while something is pending, something is
    ready. */
module Completion {
  import opened TaskGraphs
  import opened Acyclicity
  import opened RunStates
  import opened Schedulers
  import opened Execution
  import opened Executors
  import opened Reachability
  import opened Pruning

  ghost predicate KnownSources(nodes: seq<Node>, edges: seq<Edge<Id>>) {
    forall e :: e in edges ==> Lookup(nodes, e.from).Some?
  }

  /** The run keeps states for the nodes of the graph and for nothing else. */
  ghost predicate StatesOfNodes(vm: Vm) {
    forall id :: id in vm.states ==> Lookup(vm.nodes, id).Some?
  }

  /** Walking back from a pending node to pending upstreams ends, by rank, at one
      whose upstreams have all finished. */
  lemma {:induction false} SomePendingIsReady(vm: Vm, rank: Id -> nat, n: Node) returns (m: Node)
    requires Consistent(vm) && Ranked(vm.edges, rank) && KnownSources(vm.nodes, vm.edges)
    requires n in vm.nodes && IsPending(ViewsOf(vm), n)
    ensures m in vm.nodes && IsReady(vm.edges, ViewsOf(vm), m)
    decreases rank(n.id)
  {
    if UpstreamComplete(vm.edges, ViewsOf(vm), n) {
      m := n;
    } else {
      var e :| e in vm.edges && e.to == n.id
        && !(e.from in ViewsOf(vm) && Complete(ViewsOf(vm)[e.from].status));
      var upstream := Lookup(vm.nodes, e.from).value;
      assert GoodState(vm, vm.states[upstream.id]);
      m := SomePendingIsReady(vm, rank, upstream);
    }
  }

  lemma NothingReadyNothingPending(vm: Vm, rank: Id -> nat)
    requires Consistent(vm) && Ranked(vm.edges, rank) && KnownSources(vm.nodes, vm.edges) && StatesOfNodes(vm)
    requires FirstReady(vm.nodes, vm.edges, ViewsOf(vm)).None?
    ensures !AnyPending(vm.states)
  {
    if id :| id in vm.states && vm.states[id].status.Pending? {
      var n := Lookup(vm.nodes, id).value;
      var m := SomePendingIsReady(vm, rank, n);
    }
  }

  /** What the validators establish about a graph, and a run of it from scratch. */
  ghost predicate Accepted(vm: Vm, rank: Id -> nat) {
    && Fresh(vm) && StatesOfNodes(vm) && ExpandFree(vm.nodes)
    && Ranked(vm.edges, rank) && KnownSources(vm.nodes, vm.edges)
  }

  /** The last state of the run and how the executor leaves it. */
  lemma LastState(env: Env, vm: Vm, rank: Id -> nat) returns (tr: seq<Vm>, ns: seq<Node>)
    requires Accepted(vm, rank)
    ensures IsRun(env, tr, ns) && tr[0] == vm && Ends(env, tr[|ns|], RunFrom(env, vm))
    ensures Consistent(tr[|ns|]) && SameGraph(vm, tr[|ns|]) && NoneExpanded(tr[|ns|])
  {
    tr, ns := ExecutionIsARun(env, vm);
    RunIsConsistent(env, tr, ns, |ns|);
    GraphIsFixed(env, tr, ns, |ns|);
    RunHasEffects(env, tr, ns);
    EffectsExpandNone(tr, Propagated(tr), ns, |ns|);
  }

  lemma NothingReadyAfterSkips(vm: Vm, last: Vm, rank: Id -> nat)
    requires Accepted(vm, rank) && Consistent(last) && SameGraph(vm, last)
    requires FirstReady(AfterSkips(last).nodes, AfterSkips(last).edges, ViewsOf(AfterSkips(last))).None?
    ensures !AnyPending(AfterSkips(last).states)
  {
    SkipsAreConsistent(last);
    PropagationOnlySkips(last);
    NothingReadyNothingPending(AfterSkips(last), rank);
  }

  /** Every state along the way and the one the executor stops in: pending nodes
      without a ready one never occur, so the stall error is never raised. */
  lemma NeverStalls(env: Env, vm: Vm, rank: Id -> nat)
    requires Accepted(vm, rank)
    ensures !RunFrom(env, vm).1.Stalled?
  {
    var tr, ns := LastState(env, vm, rank);
    var last := tr[|ns|];
    var s := AfterSkips(last);
    if FirstReady(s.nodes, s.edges, ViewsOf(s)).None? {
      NothingReadyAfterSkips(vm, last, rank);
    }
  }

  lemma ReachableNeverStuck(env: Env, tr: seq<Vm>, ns: seq<Node>, rank: Id -> nat, i: nat)
    requires IsRun(env, tr, ns) && Accepted(tr[0], rank) && i < |tr|
    ensures var s := AfterSkips(tr[i]);
      FirstReady(s.nodes, s.edges, ViewsOf(s)).None? ==> !AnyPending(s.states)
  {
    RunIsConsistent(env, tr, ns, i);
    GraphIsFixed(env, tr, ns, i);
    var s := AfterSkips(tr[i]);
    if FirstReady(s.nodes, s.edges, ViewsOf(s)).None? {
      NothingReadyAfterSkips(tr[0], tr[i], rank);
    }
  }

  lemma FinalStatuses(last: Vm, s: Vm, n: Node)
    requires Consistent(s) && OnlySkips(last, s) && NoneExpanded(last) && !AnyPending(s.states) && n in s.nodes
    ensures n.id in s.states && (s.states[n.id].status.Succeeded? || s.states[n.id].status.Skipped?)
  {
    assert GoodState(s, s.states[n.id]);
  }

  /** A run that returns has finished every node. */
  lemma ReturnedIsComplete(env: Env, vm: Vm, rank: Id -> nat, n: Node)
    requires Accepted(vm, rank) && RunFrom(env, vm).1.Returned? && n in vm.nodes
    ensures var states := RunFrom(env, vm).0.states;
      n.id in states && (states[n.id].status.Succeeded? || states[n.id].status.Skipped?)
  {
    var tr, ns := LastState(env, vm, rank);
    var last := tr[|ns|];
    NothingReadyAfterSkips(vm, last, rank);
    SkipsAreConsistent(last);
    PropagationOnlySkips(last);
    FinalStatuses(last, AfterSkips(last), n);
  }
}
