/** Runs that share a storage: when what earlier runs left in the cache may be
    reused, so that running the same graph again gives the same outcome. */
module Reruns {
  import opened Sequences
  import opened TaskGraphs
  import opened ArtifactCache
  import opened RunStates
  import opened Schedulers
  import opened Transforms
  import opened Execution
  import opened Termination
  import opened Executors
  import opened Reachability
  import opened Pruning
  import opened Completion
  import opened Denotation
  import opened EdgeOrder

  ghost predicate Injective(digest: Content -> int) {
    forall x, y :: digest(x) == digest(y) ==> x == y
  }

  /** A node that is looked up has at most one data edge and no marked results. */
  ghost predicate Reusable(env: Env, nodes: seq<Node>, edges: seq<Edge<Id>>, n: Node) {
    AllowCache(n.body) ==>
      && OneInput(nodes, edges, n)
      && forall direct :: Handle(env, n, direct).Ok? ==> Unmarked(Handle(env, n, direct).value)
  }

  ghost predicate Rerunnable(env: Env, nodes: seq<Node>, edges: seq<Edge<Id>>) {
    && KeysDiffer(nodes) && Injective(env.digest)
    && forall n :: n in nodes ==> Reusable(env, nodes, edges, n)
  }

  // ----- with one data edge, digests tell the inputs -----

  /** What an edge that adds something adds. */
  lemma AddedIs(env: Env, nodes: seq<Node>, views: Views, n: Node, e: Edge<Id>) returns (content: Content)
    ensures var g := Added(env, nodes, views, n, e);
      g == NOTHING
      || (&& Deliver(env, ReadSchema(nodes, e.from), e, content).Ok?
          && g == Gathered([Input(e.toPort, Deliver(env, ReadSchema(nodes, e.from), e, content).value)],
                           [env.digest(content)]))
  {
    hide Deliver;
    if e.from in views && views[e.from].outputs.Some? && views[e.from].outputs.value != [] {
      content := Pick(views[e.from].outputs.value, e.fromPort);
    } else {
      content := map[];
    }
  }

  lemma SameReadSameInput(env: Env, nodes: seq<Node>, a: Views, b: Views, n: Node, e: Edge<Id>)
    requires Injective(env.digest)
    requires Added(env, nodes, a, n, e).digests == Added(env, nodes, b, n, e).digests
    ensures Added(env, nodes, a, n, e) == Added(env, nodes, b, n, e)
  {
    hide Added, Deliver;
    var x := AddedIs(env, nodes, a, n, e);
    var y := AddedIs(env, nodes, b, n, e);
    var ga, gb := Added(env, nodes, a, n, e), Added(env, nodes, b, n, e);
    if ga != NOTHING && gb != NOTHING {
      assert ga.digests[0] == env.digest(x) && gb.digests[0] == env.digest(y);
    }
  }

  lemma {:induction false} NothingCarried(env: Env, nodes: seq<Node>, edges: seq<Edge<Id>>, views: Views, n: Node)
    requires forall e :: e in edges ==> !Carries(nodes, e, n)
    ensures Total(env, nodes, edges, views, n) == NOTHING
  {
    hide Added, Carries, Total;
    TotalUnfolds(env, nodes, edges, views, n);
    if edges != [] {
      NothingCarried(env, nodes, edges[1..], views, n);
      assert !Carries(nodes, edges[0], n);
    }
  }

  lemma {:induction false} SameReadsSameInputs(env: Env, nodes: seq<Node>, edges: seq<Edge<Id>>, a: Views, b: Views,
                                               n: Node)
    requires Injective(env.digest) && OneInput(nodes, edges, n)
    requires Total(env, nodes, edges, a, n).digests == Total(env, nodes, edges, b, n).digests
    ensures Total(env, nodes, edges, a, n) == Total(env, nodes, edges, b, n)
  {
    hide Added, Carries, Total, Injective, Plus;
    TotalUnfolds(env, nodes, edges, a, n);
    TotalUnfolds(env, nodes, edges, b, n);
    if edges != [] {
      var e := edges[0];
      if Carries(nodes, e, n) {
        forall f | f in edges[1..] ensures !Carries(nodes, f, n) {
          var j :| 0 <= j < |edges[1..]| && edges[1..][j] == f;
          assert edges[j + 1] == f;
        }
        NothingCarried(env, nodes, edges[1..], a, n);
        NothingCarried(env, nodes, edges[1..], b, n);
        NothingLast(Added(env, nodes, a, n, e));
        NothingLast(Added(env, nodes, b, n, e));
        SameReadSameInput(env, nodes, a, b, n, e);
      } else {
        assert Added(env, nodes, a, n, e) == NOTHING == Added(env, nodes, b, n, e);
        NothingFirst(Total(env, nodes, edges[1..], a, n));
        NothingFirst(Total(env, nodes, edges[1..], b, n));
        SameReadsSameInputs(env, nodes, edges[1..], a, b, n);
      }
    }
  }

  lemma NothingLast(g: Gathered)
    ensures Plus(g, NOTHING) == g
  {}

  /** Two gatherings that the cache cannot tell apart gathered the same. */
  lemma SameKeySameInputs(env: Env, nodes: seq<Node>, edges: seq<Edge<Id>>, a: Views, b: Views, n: Node)
    requires Injective(env.digest) && OneInput(nodes, edges, n)
    requires Gather(env, nodes, edges, a, n).Ok? && Gather(env, nodes, edges, b, n).Ok?
    requires Sorted(Gather(env, nodes, edges, a, n).value.digests)
          == Sorted(Gather(env, nodes, edges, b, n).value.digests)
    ensures Gather(env, nodes, edges, a, n) == Gather(env, nodes, edges, b, n)
  {
    hide Gather, Total, Sorted, Injective;
    GatheredPermute(env, nodes, edges, edges, a, n);
    GatheredPermute(env, nodes, edges, edges, b, n);
    OneContribution(env, nodes, edges, a, n);
    SortedIsCanonical(Total(env, nodes, edges, a, n).digests, Total(env, nodes, edges, b, n).digests);
    ShortPermutation(Total(env, nodes, edges, a, n).digests, Total(env, nodes, edges, b, n).digests);
    SameReadsSameInputs(env, nodes, edges, a, b, n);
  }

  // ----- stores filled by executions of the same graph -----

  /** The artifact is what the node returned for some inputs with these digests. */
  ghost predicate EarnedBy(env: Env, nodes: seq<Node>, edges: seq<Edge<Id>>, n: Node, digests: seq<int>, a: Artifact) {
    exists views: Views :: Gather(env, nodes, edges, views, n).Ok?
      && Sorted(Gather(env, nodes, edges, views, n).value.digests) == Sorted(digests)
      && Genuine(env, n, Gather(env, nodes, edges, views, n).value.direct, a)
  }

  ghost predicate Earned(env: Env, nodes: seq<Node>, edges: seq<Edge<Id>>, store: ArtifactStore, n: Node) {
    && SoundFor(store, KeyOf(n.body))
    && forall digests :: Find(store, KeyOf(n.body), digests).Some? ==>
         EarnedBy(env, nodes, edges, n, digests, Find(store, KeyOf(n.body), digests).value)
  }

  ghost predicate AllEarned(env: Env, nodes: seq<Node>, edges: seq<Edge<Id>>, store: ArtifactStore) {
    forall n :: n in nodes && AllowCache(n.body) ==> Earned(env, nodes, edges, store, n)
  }

  lemma EmptyIsEarned(env: Env, nodes: seq<Node>, edges: seq<Edge<Id>>, store: ArtifactStore)
    requires store.index == map[]
    ensures AllEarned(env, nodes, edges, store)
  {}

  lemma EarnedHitsAgree(env: Env, vm: Vm, n: Node)
    requires Injective(env.digest) && OneInput(vm.nodes, vm.edges, n) && Earned(env, vm.nodes, vm.edges, vm.store, n)
    ensures HitsAgree(env, vm, n)
  {
    hide Gather, Genuine, Find, Sorted, Injective, OneInput;
    forall views: Views
      ensures var gathered := Gather(env, vm.nodes, vm.edges, views, n);
        gathered.Ok? && Find(vm.store, KeyOf(n.body), gathered.value.digests).Some? ==>
          Genuine(env, n, gathered.value.direct, Find(vm.store, KeyOf(n.body), gathered.value.digests).value)
    {
      var gathered := Gather(env, vm.nodes, vm.edges, views, n);
      if gathered.Ok? && Find(vm.store, KeyOf(n.body), gathered.value.digests).Some? {
        var a := Find(vm.store, KeyOf(n.body), gathered.value.digests).value;
        assert EarnedBy(env, vm.nodes, vm.edges, n, gathered.value.digests, a);
        var other: Views :| Gather(env, vm.nodes, vm.edges, other, n).Ok?
          && Sorted(Gather(env, vm.nodes, vm.edges, other, n).value.digests) == Sorted(gathered.value.digests)
          && Genuine(env, n, Gather(env, vm.nodes, vm.edges, other, n).value.direct, a);
        SameKeySameInputs(env, vm.nodes, vm.edges, other, views, n);
      }
    }
  }

  /** What earlier executions of the graph left is warm. */
  lemma EarnedIsWarm(env: Env, vm: Vm)
    requires Rerunnable(env, vm.nodes, vm.edges) && AllEarned(env, vm.nodes, vm.edges, vm.store)
    ensures Warm(env, vm)
  {
    hide HitsAgree, Earned, KeysDiffer, Injective, OneInput;
    forall n | n in vm.nodes && IsPending(ViewsOf(vm), n) ensures HitsAgree(env, vm, n) {
      if AllowCache(n.body) {
        assert Reusable(env, vm.nodes, vm.edges, n);
        EarnedHitsAgree(env, vm, n);
      } else {
        NeverLookedUp(env, vm, n);
      }
    }
  }

  lemma NeverLookedUp(env: Env, vm: Vm, n: Node)
    requires !AllowCache(n.body)
    ensures HitsAgree(env, vm, n)
  {}

  // ----- each turn earns what it stores -----

  lemma StoredFinds(vm: Vm, a: Artifact, key: CacheKey, digests: seq<int>)
    requires Ahead(vm) && a.id == FreshId(vm.nextId) && a.supersededBy.None? && SoundFor(vm.store, key)
    ensures SoundFor(Stored(vm, a).store, key)
    ensures Find(Stored(vm, a).store, key, digests)
         == if SlotOf(a) == Some(Slot(key, Sorted(digests))) then Some(a) else Find(vm.store, key, digests)
  {
    hide Sorted;
  }

  lemma StoringEarns(env: Env, nodes: seq<Node>, edges: seq<Edge<Id>>, vm: Vm, n: Node, a: Artifact, digests: seq<int>)
    requires Ahead(vm) && a.id == FreshId(vm.nextId) && a.supersededBy.None?
    requires Earned(env, nodes, edges, vm.store, n)
    requires SlotOf(a) == Some(Slot(KeyOf(n.body), Sorted(digests))) && EarnedBy(env, nodes, edges, n, digests, a)
    ensures Earned(env, nodes, edges, Stored(vm, a).store, n)
  {
    hide Gather, Genuine, Find, Sorted, SoundFor, Ahead, Stored;
    StoredFinds(vm, a, KeyOf(n.body), digests);
    forall other | Find(Stored(vm, a).store, KeyOf(n.body), other).Some?
      ensures EarnedBy(env, nodes, edges, n, other, Find(Stored(vm, a).store, KeyOf(n.body), other).value)
    {
      StoredFinds(vm, a, KeyOf(n.body), other);
    }
  }

  lemma CopyEarns(env: Env, nodes: seq<Node>, edges: seq<Edge<Id>>, store: ArtifactStore, n: Node, digests: seq<int>,
                  id: Id)
    requires Earned(env, nodes, edges, store, n) && Find(store, KeyOf(n.body), digests).Some?
    ensures var copy := Find(store, KeyOf(n.body), digests).value.(id := id);
      && copy.supersededBy.None? && SlotOf(copy) == Some(Slot(KeyOf(n.body), Sorted(digests)))
      && EarnedBy(env, nodes, edges, n, digests, copy)
  {
    hide Gather, Sorted, Handle;
    var a := Find(store, KeyOf(n.body), digests).value;
    assert EarnedBy(env, nodes, edges, n, digests, a);
  }

  lemma ResultEarns(env: Env, vm: Vm, n: Node, g: Gathered, id: Id)
    requires Gather(env, vm.nodes, vm.edges, ViewsOf(vm), n) == Ok(g) && Handle(env, n, g.direct).Ok?
    requires Unmarked(Handle(env, n, g.direct).value)
    ensures EarnedBy(env, vm.nodes, vm.edges, n, g.digests,
                     OutputArtifact(id, n, Handle(env, n, g.direct).value, g.digests))
  {
    hide Gather, Handle, Sorted;
  }

  lemma SameFindsEarned(env: Env, nodes: seq<Node>, edges: seq<Edge<Id>>, a: ArtifactStore, b: ArtifactStore, n: Node)
    requires Earned(env, nodes, edges, a, n) && SoundFor(b, KeyOf(n.body)) && SameFinds(a, b, KeyOf(n.body))
    ensures Earned(env, nodes, edges, b, n)
  {
    hide EarnedBy, Find;
  }

  lemma PromptedEarned(env: Env, vm: Vm, n: Node, direct: seq<Input>, nodes: seq<Node>, edges: seq<Edge<Id>>)
    requires Ahead(vm) && Earned(env, nodes, edges, vm.store, n)
    ensures Ahead(Prompted(env, vm, n, direct)) && Earned(env, nodes, edges, Prompted(env, vm, n, direct).store, n)
  {
    hide EarnedBy, Find, Prompted;
    PromptedKeepsFinds(env, vm, n, direct, KeyOf(n.body));
    SameFindsEarned(env, nodes, edges, vm.store, Prompted(env, vm, n, direct).store, n);
  }

  lemma AttemptEarns(env: Env, vm: Vm, n: Node)
    requires n.id in vm.states && !n.body.kind.Expand? && Ahead(vm) && Attempt(env, vm, n).1.Ok?
    requires AllowCache(n.body) && Reusable(env, vm.nodes, vm.edges, n) && Earned(env, vm.nodes, vm.edges, vm.store, n)
    ensures Earned(env, vm.nodes, vm.edges, Attempt(env, vm, n).0.store, n)
  {
    hide Gather, Handle, Earned, EarnedBy, Ahead, Prompted, Find, KeyOf, SlotOf, Sorted, OneInput;
    var g := Gather(env, vm.nodes, vm.edges, ViewsOf(vm), n).value;
    var cached := Find(vm.store, KeyOf(n.body), g.digests);
    if cached.Some? {
      var copy := cached.value.(id := FreshId(vm.nextId));
      CopyEarns(env, vm.nodes, vm.edges, vm.store, n, g.digests, copy.id);
      StoringEarns(env, vm.nodes, vm.edges, vm, n, copy, g.digests);
    } else {
      var mid := Prompted(env, vm, n, g.direct);
      var a := OutputArtifact(FreshId(mid.nextId), n, Handle(env, n, g.direct).value, g.digests);
      PromptedEarned(env, vm, n, g.direct, vm.nodes, vm.edges);
      ResultEarns(env, vm, n, g, a.id);
      OutputSlot(FreshId(mid.nextId), n, Handle(env, n, g.direct).value, g.digests);
      StoringEarns(env, vm.nodes, vm.edges, mid, n, a, g.digests);
    }
  }

  lemma OutputSlot(id: Id, n: Node, v: Value, digests: seq<int>)
    ensures SlotOf(OutputArtifact(id, n, v, digests)) == Some(Slot(KeyOf(n.body), Sorted(digests)))
  {}

  lemma TurnEarns(env: Env, q: Vm, n: Node, m: Node)
    requires Sane(q) && n in q.nodes && m in q.nodes && !n.body.kind.Expand? && Turn(env, q, n).1.Ok?
    requires Rerunnable(env, q.nodes, q.edges) && AllEarned(env, q.nodes, q.edges, q.store) && AllowCache(m.body)
    ensures Earned(env, q.nodes, q.edges, Turn(env, q, n).0.store, m)
  {
    hide Turn, Attempt, Earned, Injective, OneInput, SoundFor, SameFinds, KeyOf, AllowCache;
    var start := Started(q, n);
    TurnRecords(env, q, n);
    TurnView(env, q, n);
    StartedIsAhead(q, n);
    if m == n {
      assert Reusable(env, q.nodes, q.edges, n);
      AttemptEarns(env, start, n);
    } else {
      assert AllowCache(n.body) ==> SoundFor(q.store, KeyOf(n.body)) by {
        if AllowCache(n.body) {
          EarnedIsSound(env, q.nodes, q.edges, q.store, n);
        }
      }
      EarnedIsSound(env, q.nodes, q.edges, q.store, m);
      AttemptKeepsOtherFinds(env, start, n, KeyOf(m.body));
      SameFindsEarned(env, q.nodes, q.edges, q.store, Turn(env, q, n).0.store, m);
    }
  }

  lemma EarnedIsSound(env: Env, nodes: seq<Node>, edges: seq<Edge<Id>>, store: ArtifactStore, n: Node)
    requires Earned(env, nodes, edges, store, n)
    ensures SoundFor(store, KeyOf(n.body))
  {}

  // ----- along a run, and from one run to the next -----

  lemma StepEarns(env: Env, s: Vm, n: Node, t: Vm)
    requires Consistent(s) && Step(env, s, n, t) && ExpandFree(s.nodes)
    requires Rerunnable(env, s.nodes, s.edges) && AllEarned(env, s.nodes, s.edges, s.store)
    ensures AllEarned(env, s.nodes, s.edges, t.store)
  {
    hide Turn, Earned, Rerunnable, Chosen, Consistent;
    var q := AfterSkips(s);
    SkipsAreConsistent(s);
    ChosenIsNode(s, n);
    assert Sane(q) by {
      ConsistentIsSane(q);
    }
    forall m | m in s.nodes && AllowCache(m.body) ensures Earned(env, s.nodes, s.edges, t.store, m) {
      TurnEarns(env, q, n, m);
    }
  }

  lemma ConsistentIsSane(vm: Vm)
    requires Consistent(vm)
    ensures Sane(vm)
  {}

  /** In every reachable state, whatever the cache holds under the key of a node
      that is looked up was returned by it for inputs with those digests. */
  lemma {:induction false} RunStaysEarned(env: Env, tr: seq<Vm>, ns: seq<Node>, i: nat)
    requires IsRun(env, tr, ns) && ExpandFree(tr[0].nodes) && i < |tr|
    requires Rerunnable(env, tr[0].nodes, tr[0].edges) && AllEarned(env, tr[0].nodes, tr[0].edges, tr[0].store)
    ensures tr[i].nodes == tr[0].nodes && tr[i].edges == tr[0].edges
    ensures AllEarned(env, tr[0].nodes, tr[0].edges, tr[i].store)
  {
    hide Step, AllEarned, Rerunnable, Consistent;
    GraphIsFixed(env, tr, ns, i);
    if i > 0 {
      RunStaysEarned(env, tr, ns, i - 1);
      RunIsConsistent(env, tr, ns, i - 1);
      assert Step(env, tr[i - 1], ns[i - 1], tr[i - 1 + 1]);
      StepEarns(env, tr[i - 1], ns[i - 1], tr[i]);
    }
  }

  /** A new run of the stored graph in the same storage. */
  function NextRun(vm: Vm): Vm {
    Prepared(Vm(vm.nodes, vm.edges, map[], vm.store, [], RunPending, None, vm.nextId))
  }

  lemma NextRunIsAccepted(first: Vm, vm: Vm, rank: Id -> nat)
    requires Accepted(first, rank) && SameGraph(first, vm) && Sane(vm)
    ensures Accepted(NextRun(vm), rank)
  {
    var raw := Vm(vm.nodes, vm.edges, map[], vm.store, [], RunPending, None, vm.nextId);
    assert Unstarted(raw);
    PreparedIsFresh(raw);
  }

  /** The state a returning run leaves: the store of its last step. */
  lemma ReturnedEarns(env: Env, vm: Vm, rank: Id -> nat)
    requires Accepted(vm, rank) && RunFrom(env, vm).1.Returned?
    requires Rerunnable(env, vm.nodes, vm.edges) && AllEarned(env, vm.nodes, vm.edges, vm.store)
    ensures var left := RunFrom(env, vm).0;
      && SameGraph(vm, left) && Sane(left) && AllEarned(env, vm.nodes, vm.edges, left.store)
  {
    hide AllEarned, Rerunnable, Accepted, IsRun, Consistent, Ends, RunFrom, Sane, NoneExpanded, ExpandFree;
    AcceptedIsSane(vm, rank);
    assert ExpandFree(vm.nodes) by {
      AcceptedIsExpandFree(vm, rank);
    }
    var tr, ns := LastState(env, vm, rank);
    RunLength(env, tr, ns);
    RunStaysEarned(env, tr, ns, |ns|);
    SkippedKeeps(tr[|ns|]);
    ReturnedLeaves(env, tr[|ns|], RunFrom(env, vm));
  }

  lemma RunLength(env: Env, tr: seq<Vm>, ns: seq<Node>)
    requires IsRun(env, tr, ns)
    ensures |tr| == |ns| + 1
  {}

  lemma AcceptedIsSane(vm: Vm, rank: Id -> nat)
    requires Accepted(vm, rank)
    ensures Sane(vm)
  {}

  lemma AcceptedIsExpandFree(vm: Vm, rank: Id -> nat)
    requires Accepted(vm, rank)
    ensures ExpandFree(vm.nodes)
  {}

  lemma SkippedKeeps(last: Vm)
    requires Consistent(last)
    ensures Sane(AfterSkips(last)) && SameGraph(last, AfterSkips(last)) && AfterSkips(last).store == last.store
  {
    SkippingStaysSane(last);
    PropagationOnlySkips(last);
  }

  lemma ReturnedLeaves(env: Env, last: Vm, outcome: (Vm, RunResult))
    requires Ends(env, last, outcome) && outcome.1.Returned? && Sane(AfterSkips(last))
    ensures Sane(outcome.0) && SameGraph(AfterSkips(last), outcome.0) && outcome.0.store == AfterSkips(last).store
  {}

  /** Running the graph again in the same storage, reused results and all, returns
      again with every node's outcome the same, and leaves a storage of which that
      holds once more. */
  lemma RerunAgrees(env: Env, vm: Vm, rank: Id -> nat, n: Node)
    requires Accepted(vm, rank) && RunFrom(env, vm).1.Returned? && n in vm.nodes
    requires Rerunnable(env, vm.nodes, vm.edges) && AllEarned(env, vm.nodes, vm.edges, vm.store)
    ensures var again := NextRun(RunFrom(env, vm).0);
      && Accepted(again, rank) && again.nodes == vm.nodes && again.edges == vm.edges
      && AllEarned(env, again.nodes, again.edges, again.store)
      && RunFrom(env, again).1.Returned?
      && n.id in ViewsOf(RunFrom(env, vm).0) && n.id in ViewsOf(RunFrom(env, again).0)
      && ViewsOf(RunFrom(env, again).0)[n.id] == ViewsOf(RunFrom(env, vm).0)[n.id]
  {
    hide RunFrom, Accepted, Rerunnable, AllEarned, Warm, NothingFails, Denote, Sane;
    AcceptedIsSane(vm, rank);
    var again := NextRun(RunFrom(env, vm).0);
    ReturnedEarns(env, vm, rank);
    NextRunIsAccepted(vm, RunFrom(env, vm).0, rank);
    AcceptedIsSane(again, rank);
    EarnedIsWarm(env, vm);
    EarnedIsWarm(env, again);
    ReturnsIffNothingFails(env, vm, rank);
    ReturnsIffNothingFails(env, again, rank);
    SameGraphFailsAlike(env, vm, again, rank);
    RunComputesDenotation(env, vm, rank, n);
    RunComputesDenotation(env, again, rank, n);
  }

  lemma SameGraphFailsAlike(env: Env, a: Vm, b: Vm, rank: Id -> nat)
    requires Accepted(a, rank) && Accepted(b, rank) && a.nodes == b.nodes && a.edges == b.edges
    ensures NothingFails(env, a, rank) <==> NothingFails(env, b, rank)
  {
    hide Denote;
  }
}
