/** The meaning of a graph, by recursion over its edges, and the proof that a
    run computes it: the outcome does not depend on the scheduling order or on
    the order of the nodes. */
module Denotation {
  import opened TaskGraphs
  import opened Acyclicity
  import opened ArtifactCache
  import opened RunStates
  import opened Schedulers
  import opened Transforms
  import opened Execution
  import opened Termination
  import opened Executors
  import opened Reachability
  import opened Pruning
  import opened Completion

  const SKIPPED_VIEW := View(Skipped, false, None, Some([]))
  const FAILED_VIEW := View(Failed, false, None, Some([]))
  /** Neither skipped nor able to run: some upstream failed or is unknown. */
  const STUCK_VIEW := View(Pending, false, None, Some([]))

  function DoneView(n: Node, v: Value): View {
    View(Succeeded, v.schema == "NotFound",
         if v.schema == "RoutingDecision" then Field(v.content, "selected_branch") else None,
         Some([Piece(OutputPortName(n.body.ports), v.content)]))
  }

  /** One node's outcome from its upstreams' outcomes: the skip rules first, then
      the handler applied to the gathered inputs. */
  function Outcome1(env: Env, nodes: seq<Node>, edges: seq<Edge<Id>>, up: Views, n: Node): View {
    if Skippable(nodes, edges, up, n) then SKIPPED_VIEW
    else if !UpstreamComplete(edges, up, n) then STUCK_VIEW
    else
      match Gather(env, nodes, edges, up, n)
      case Ok(g) =>
        (match Handle(env, n, g.direct)
         case Ok(v) => DoneView(n, v)
         case _ => FAILED_VIEW)
      case _ => FAILED_VIEW
  }

  function Upstream(edges: seq<Edge<Id>>, id: Id): set<Id> {
    set e | e in edges && e.to == id :: e.from
  }

  /** The outcome of a node, by recursion over the DAG. */
  ghost function Denote(env: Env, nodes: seq<Node>, edges: seq<Edge<Id>>, rank: Id -> nat, id: Id): View
    requires Ranked(edges, rank)
    decreases rank(id)
  {
    match Lookup(nodes, id)
    case None => STUCK_VIEW
    case Some(n) =>
      Outcome1(env, nodes, edges, map u | u in Upstream(edges, id) :: Denote(env, nodes, edges, rank, u), n)
  }

  ghost function Upstreams(env: Env, nodes: seq<Node>, edges: seq<Edge<Id>>, rank: Id -> nat, id: Id): Views
    requires Ranked(edges, rank)
  {
    map u | u in Upstream(edges, id) :: Denote(env, nodes, edges, rank, u)
  }

  // ----- the outcome reads the upstreams only -----

  lemma {:induction false} GatherReadsUpstreams(env: Env, nodes: seq<Node>, edges: seq<Edge<Id>>, a: Views, b: Views,
                                                n: Node, acc: Gathered)
    requires forall e :: e in edges && e.to == n.id ==> e.from in a && e.from in b && a[e.from] == b[e.from]
    ensures GatherFrom(env, nodes, edges, a, n, acc) == GatherFrom(env, nodes, edges, b, n, acc)
  {
    if edges != [] {
      var e := edges[0];
      if e.to != n.id {
        GatherReadsUpstreams(env, nodes, edges[1..], a, b, n, acc);
      } else {
        var step := GatherEdge(env, nodes, a, e, acc);
        assert step == GatherEdge(env, nodes, b, e, acc);
        if step.Ok? {
          GatherReadsUpstreams(env, nodes, edges[1..], a, b, n, step.value);
        }
      }
    }
  }

  lemma {:induction false} GatherIgnoresNodeOrder(env: Env, nodes: seq<Node>, order: seq<Node>, edges: seq<Edge<Id>>,
                                                  views: Views, n: Node, acc: Gathered)
    requires SameNodes(nodes, order)
    ensures GatherFrom(env, nodes, edges, views, n, acc) == GatherFrom(env, order, edges, views, n, acc)
  {
    if edges != [] {
      var e := edges[0];
      LookupIgnoresOrder(nodes, order, e.from);
      if e.to != n.id {
        GatherIgnoresNodeOrder(env, nodes, order, edges[1..], views, n, acc);
      } else {
        var step := GatherEdge(env, nodes, views, e, acc);
        assert step == GatherEdge(env, order, views, e, acc);
        if step.Ok? {
          GatherIgnoresNodeOrder(env, nodes, order, edges[1..], views, n, step.value);
        }
      }
    }
  }

  lemma {:induction false} DenoteIgnoresNodeOrder(env: Env, nodes: seq<Node>, order: seq<Node>, edges: seq<Edge<Id>>,
                                                  rank: Id -> nat, id: Id)
    requires Ranked(edges, rank) && SameNodes(nodes, order)
    ensures Denote(env, nodes, edges, rank, id) == Denote(env, order, edges, rank, id)
    decreases rank(id)
  {
    LookupIgnoresOrder(nodes, order, id);
    if Lookup(nodes, id).Some? {
      var n := Lookup(nodes, id).value;
      forall u | u in Upstream(edges, id)
        ensures Denote(env, nodes, edges, rank, u) == Denote(env, order, edges, rank, u)
      {
        DenoteIgnoresNodeOrder(env, nodes, order, edges, rank, u);
      }
      var up := Upstreams(env, nodes, edges, rank, id);
      assert up == Upstreams(env, order, edges, rank, id);
      SkippableIgnoresOrder(nodes, order, edges, up, n);
      GatherIgnoresNodeOrder(env, nodes, order, edges, up, n, Gathered([], []));
    }
  }

  // ----- what may be in the cache -----

  /** A cache hit records neither a not-found result nor a chosen branch: these
      values carry no such mark. */
  predicate Unmarked(v: Value) {
    v.schema != "NotFound" && !(v.schema == "RoutingDecision" && "selected_branch" in v.content)
  }

  /** A reused result shows its value's meaning exactly when the value is unmarked. */
  lemma ReuseAgreesExactly(vm: Vm, n: Node, cached: Artifact, v: Value)
    requires n.id in vm.states && Clean(vm.states[n.id]) && vm.states[n.id].status.Running?
    requires cached.content == v.content && cached.port == OutputPortName(n.body.ports)
    ensures var t := Reused(vm, n, cached);
      n.id in t.states && (ViewOf(t.store, t.states[n.id]) == DoneView(n, v) <==> Unmarked(v))
  {
    var t := Reused(vm, n, cached);
    assert Resolve(t.store.artifacts, t.states[n.id].outputs).value == [Piece(cached.port, cached.content)];
  }

  /** The cached artifact is what the node would produce from these inputs. */
  ghost predicate Genuine(env: Env, n: Node, direct: seq<Input>, cached: Artifact) {
    && Handle(env, n, direct).Ok? && Unmarked(Handle(env, n, direct).value)
    && cached.content == Handle(env, n, direct).value.content && cached.port == OutputPortName(n.body.ports)
  }

  /** The index entries of the key lead to artifacts stored under it. */
  ghost predicate SoundFor(store: ArtifactStore, key: CacheKey) {
    forall slot :: slot in store.index && slot.key == key ==>
      store.index[slot] in store.artifacts && SlotOf(store.artifacts[store.index[slot]]) == Some(slot)
  }

  /** The node is never looked up, or whatever it may gather, a hit on it is genuine. */
  ghost predicate HitsAgree(env: Env, vm: Vm, n: Node) {
    AllowCache(n.body) ==>
      && SoundFor(vm.store, KeyOf(n.body))
      && forall views: Views :: var gathered := Gather(env, vm.nodes, vm.edges, views, n);
           gathered.Ok? && Find(vm.store, KeyOf(n.body), gathered.value.digests).Some? ==>
             Genuine(env, n, gathered.value.direct, Find(vm.store, KeyOf(n.body), gathered.value.digests).value)
  }

  /** No other node writes under the key of a node that is looked up. */
  ghost predicate KeysDiffer(nodes: seq<Node>) {
    forall n, m :: n in nodes && m in nodes && AllowCache(n.body) && KeyOf(n.body) == KeyOf(m.body) ==> n == m
  }

  /** Keys tell the nodes that are looked up from the others, and every hit there
      could still be is genuine. */
  ghost predicate Warm(env: Env, vm: Vm) {
    && KeysDiffer(vm.nodes)
    && forall n :: n in vm.nodes && IsPending(ViewsOf(vm), n) ==> HitsAgree(env, vm, n)
  }

  /** The key of no pending node that is looked up is in the cache at all. */
  ghost predicate Cold(vm: Vm) {
    && KeysDiffer(vm.nodes)
    && forall n, slot :: n in vm.nodes && AllowCache(n.body) && IsPending(ViewsOf(vm), n) && slot in vm.store.index ==>
         slot.key != KeyOf(n.body)
  }

  /** Uncached nodes need nothing of the cache, of their keys or of their names. */
  lemma UncachedIsCold(env: Env, vm: Vm)
    requires forall n :: n in vm.nodes ==> !AllowCache(n.body)
    ensures Cold(vm) && Warm(env, vm)
  {}

  lemma ColdIsWarm(env: Env, vm: Vm)
    requires Cold(vm)
    ensures Warm(env, vm)
  {
    hide Gather, Handle, KeyOf, AllowCache;
  }

  /** Keys contain the node's name, so distinct names are enough. */
  lemma DistinctNamesAreCold(vm: Vm)
    requires forall n, m :: n in vm.nodes && m in vm.nodes && n.body.name == m.body.name ==> n == m
    requires vm.store.index == map[]
    ensures Cold(vm)
  {}

  // ----- every reachable state agrees with the meaning of the graph -----

  ghost predicate MeantNode(env: Env, vm: Vm, rank: Id -> nat, n: Node)
    requires Ranked(vm.edges, rank)
  {
    n.id in vm.states && (!vm.states[n.id].status.Pending? ==>
      ViewOf(vm.store, vm.states[n.id]) == Denote(env, vm.nodes, vm.edges, rank, n.id))
  }

  ghost predicate Meant(env: Env, vm: Vm, rank: Id -> nat)
    requires Ranked(vm.edges, rank)
  {
    forall n :: n in vm.nodes ==> MeantNode(env, vm, rank, n)
  }

  lemma DenoteUnfolds(env: Env, nodes: seq<Node>, edges: seq<Edge<Id>>, rank: Id -> nat, n: Node)
    requires Ranked(edges, rank) && DistinctIds(nodes) && n in nodes
    ensures Denote(env, nodes, edges, rank, n.id)
         == Outcome1(env, nodes, edges, Upstreams(env, nodes, edges, rank, n.id), n)
  {
    LookupDistinct(nodes, n);
  }

  /** A state that was kept, with its outputs, looks the same. */
  lemma ViewPersists(a: Vm, b: Vm, st: NodeState)
    requires GoodState(a, st) && Frozen(a, b)
    ensures ViewOf(b.store, st) == ViewOf(a.store, st)
  {
    assert Resolve(a.store.artifacts, st.outputs).value == Resolve(b.store.artifacts, st.outputs).value;
  }

  lemma CleanView(store: ArtifactStore, st: NodeState)
    requires Clean(st)
    ensures ViewOf(store, st) == View(st.status, false, None, Some([]))
  {
    assert Resolve(store.artifacts, st.outputs).value == [];
  }

  lemma MeaningPersists(env: Env, a: Vm, b: Vm, rank: Id -> nat, n: Node)
    requires Ranked(a.edges, rank) && Consistent(a) && Frozen(a, b) && b.nodes == a.nodes && b.edges == a.edges
    requires n in a.nodes && MeantNode(env, a, rank, n) && n.id in b.states && b.states[n.id] == a.states[n.id]
    ensures MeantNode(env, b, rank, n)
  {
    ViewPersists(a, b, a.states[n.id]);
  }

  /** The pending nodes the graph's meaning skips. */
  ghost function MeantSkips(env: Env, vm: Vm, rank: Id -> nat): set<Id>
    requires Ranked(vm.edges, rank)
  {
    set id | id in PendingIds(vm.nodes, ViewsOf(vm)) && Denote(env, vm.nodes, vm.edges, rank, id) == SKIPPED_VIEW
  }

  ghost predicate Meaningful(env: Env, vm: Vm, rank: Id -> nat) {
    Ranked(vm.edges, rank) && Consistent(vm) && StatesOfNodes(vm) && Meant(env, vm, rank)
  }

  lemma MarksOfUpstream(env: Env, vm: Vm, rank: Id -> nat, u: Id)
    requires Meaningful(env, vm, rank) && u in vm.states
    ensures var w := WithSkipped(ViewsOf(vm), MeantSkips(env, vm, rank))[u];
      Complete(w.status) || w.notFound ==> SameMarks(w, Denote(env, vm.nodes, vm.edges, rank, u))
  {
    hide Denote, Resolve;
    assert GoodState(vm, vm.states[u]);
    assert MeantNode(env, vm, rank, Lookup(vm.nodes, u).value);
  }

  lemma MeantSkipsAreClosed(env: Env, vm: Vm, rank: Id -> nat)
    requires Meaningful(env, vm, rank)
    ensures SkipClosed(vm.nodes, vm.edges, ViewsOf(vm), MeantSkips(env, vm, rank))
  {
    var w := WithSkipped(ViewsOf(vm), MeantSkips(env, vm, rank));
    forall n | n in vm.nodes && IsPending(ViewsOf(vm), n) && Skippable(vm.nodes, vm.edges, w, n)
      ensures n.id in MeantSkips(env, vm, rank)
    {
      var up := Upstreams(env, vm.nodes, vm.edges, rank, n.id);
      forall e | e in vm.edges && e.to == n.id && e.from in w && (Complete(w[e.from].status) || w[e.from].notFound)
        ensures e.from in up && SameMarks(w[e.from], up[e.from])
      {
        MarksOfUpstream(env, vm, rank, e.from);
      }
      SkippablePersists(vm.nodes, vm.edges, w, up, n);
      DenoteUnfolds(env, vm.nodes, vm.edges, rank, n);
    }
  }

  /** Propagation skips only what the graph's meaning skips. */
  lemma PropagationIsMeant(env: Env, s: Vm, rank: Id -> nat)
    requires Meaningful(env, s, rank)
    ensures Meaningful(env, AfterSkips(s), rank)
  {
    var q := AfterSkips(s);
    MeantSkipsAreClosed(env, s, rank);
    LeastSkipIsLeast(s.nodes, s.edges, ViewsOf(s), MeantSkips(env, s, rank));
    SkipsAreConsistent(s);
    forall n | n in s.nodes ensures MeantNode(env, q, rank, n) {
      if n.id in LeastSkip(s.nodes, s.edges, ViewsOf(s)) {
        SkippedViewIsMeant(env, s, rank, n);
      } else {
        MeaningPersists(env, s, q, rank, n);
      }
    }
  }

  lemma SkippedViewIsMeant(env: Env, s: Vm, rank: Id -> nat, n: Node)
    requires Ranked(s.edges, rank) && Consistent(s) && n in s.nodes
    requires n.id in LeastSkip(s.nodes, s.edges, ViewsOf(s))
    requires Denote(env, s.nodes, s.edges, rank, n.id) == SKIPPED_VIEW
    ensures MeantNode(env, AfterSkips(s), rank, n)
  {
    var st := s.states[n.id];
    assert st.status.Pending? && GoodState(s, st);
    var skipped := AfterSkips(s).states[n.id];
    assert Clean(skipped) && skipped.status.Skipped?;
    CleanView(s.store, skipped);
  }

  lemma OutcomeReadsUpstreams(env: Env, nodes: seq<Node>, edges: seq<Edge<Id>>, a: Views, b: Views, n: Node)
    requires forall e :: e in edges && e.to == n.id ==> e.from in a && e.from in b && a[e.from] == b[e.from]
    ensures Outcome1(env, nodes, edges, a, n) == Outcome1(env, nodes, edges, b, n)
  {
    SkippableReadsUpstreams(nodes, edges, a, b, n);
    GatherReadsUpstreams(env, nodes, edges, a, b, n, Gathered([], []));
  }

  /** In a quiescent state a ready node's outcome, computed from the run so far,
      is its denotation. */
  lemma ReadyOutcomeIsDenoted(env: Env, q: Vm, rank: Id -> nat, n: Node)
    requires Meaningful(env, q, rank) && n in q.nodes && UpstreamsFinished(q, n)
    ensures Outcome1(env, q.nodes, q.edges, ViewsOf(q), n) == Denote(env, q.nodes, q.edges, rank, n.id)
  {
    var up := Upstreams(env, q.nodes, q.edges, rank, n.id);
    forall e | e in q.edges && e.to == n.id
      ensures e.from in ViewsOf(q) && e.from in up && ViewsOf(q)[e.from] == up[e.from]
    {
      assert e.from in q.states;
      assert MeantNode(env, q, rank, Lookup(q.nodes, e.from).value);
    }
    OutcomeReadsUpstreams(env, q.nodes, q.edges, ViewsOf(q), up, n);
    DenoteUnfolds(env, q.nodes, q.edges, rank, n);
  }

  // ----- one turn -----

  lemma ProducedView(mid: Vm, n: Node, v: Value, digests: seq<int>)
    requires n.id in mid.states && Clean(mid.states[n.id]) && mid.states[n.id].status.Running?
    ensures var t := Produced(mid, n, v, digests);
      n.id in t.states && ViewOf(t.store, t.states[n.id]) == DoneView(n, v)
  {
    var t := Produced(mid, n, v, digests);
    var st := t.states[n.id];
    assert Resolve(t.store.artifacts, st.outputs).value == [Piece(OutputPortName(n.body.ports), v.content)];
  }

  /** An execution from a running node, cached or not, against its outcome. */
  lemma AttemptOutcome(env: Env, vm: Vm, n: Node, g: Gathered)
    requires n.id in vm.states && Clean(vm.states[n.id]) && vm.states[n.id].status.Running?
    requires !n.body.kind.Expand? && HitsAgree(env, vm, n)
    requires Gather(env, vm.nodes, vm.edges, ViewsOf(vm), n) == Ok(g)
    ensures var (t, out) := Attempt(env, vm, n);
      && (out.Ok? <==> Handle(env, n, g.direct).Ok?)
      && (out.Ok? ==> n.id in t.states)
      && (out.Ok? ==> ViewOf(t.store, t.states[n.id]) == DoneView(n, Handle(env, n, g.direct).value))
  {
    hide Gather, Handle, DoneView, ViewOf, Reused, Produced, Prompted;
    var cached := Find(vm.store, KeyOf(n.body), g.digests);
    if AllowCache(n.body) && cached.Some? {
      GenuineHit(env, vm, n, ViewsOf(vm), g);
      ReuseAgreesExactly(vm, n, cached.value, Handle(env, n, g.direct).value);
    } else if Handle(env, n, g.direct).Ok? {
      PromptedKeepsStates(env, vm, n, g.direct);
      ProducedView(Prompted(env, vm, n, g.direct), n, Handle(env, n, g.direct).value, g.digests);
    }
  }

  lemma GenuineHit(env: Env, vm: Vm, n: Node, views: Views, g: Gathered)
    requires HitsAgree(env, vm, n) && Gather(env, vm.nodes, vm.edges, views, n) == Ok(g)
    requires AllowCache(n.body) && Find(vm.store, KeyOf(n.body), g.digests).Some?
    ensures Genuine(env, n, g.direct, Find(vm.store, KeyOf(n.body), g.digests).value)
  {
    hide Gather, Handle, Find;
  }

  lemma PromptedKeepsStates(env: Env, vm: Vm, n: Node, direct: seq<Input>)
    ensures Prompted(env, vm, n, direct).states == vm.states
  {}

  lemma StartReadsTheSame(env: Env, q: Vm, n: Node)
    requires n.id in q.states && q.states[n.id].status.Pending? && UpstreamsFinished(q, n)
    ensures var start := Started(q, n);
      Gather(env, start.nodes, start.edges, ViewsOf(start), n) == Gather(env, q.nodes, q.edges, ViewsOf(q), n)
  {
    GatherReadsUpstreams(env, q.nodes, q.edges, ViewsOf(Started(q, n)), ViewsOf(q), n, Gathered([], []));
  }

  lemma TurnView(env: Env, q: Vm, n: Node)
    requires n.id in q.states
    ensures var (t, out) := Attempt(env, Started(q, n), n);
      out.Ok? <==> Turn(env, q, n).1.Ok?
    ensures var (t, out) := Attempt(env, Started(q, n), n);
      out.Ok? ==> Turn(env, q, n).0.states == t.states && Turn(env, q, n).0.store == t.store
  {}

  /** A turn of a ready, unblocked node yields its outcome, or raises when the
      outcome is a failure. */
  lemma TurnOutcome(env: Env, q: Vm, n: Node)
    requires n.id in q.states && Clean(q.states[n.id]) && q.states[n.id].status.Pending?
    requires !n.body.kind.Expand? && HitsAgree(env, q, n)
    requires UpstreamsFinished(q, n) && !Skippable(q.nodes, q.edges, ViewsOf(q), n)
    ensures var (t, out) := Turn(env, q, n);
      && n.id in t.states
      && (out.Ok? ==> ViewOf(t.store, t.states[n.id]) == Outcome1(env, q.nodes, q.edges, ViewsOf(q), n))
      && (!out.Ok? ==> Outcome1(env, q.nodes, q.edges, ViewsOf(q), n) == FAILED_VIEW)
  {
    var start := Started(q, n);
    StartReadsTheSame(env, q, n);
    TurnView(env, q, n);
    assert UpstreamComplete(q.edges, ViewsOf(q), n);
    var gathered := Gather(env, q.nodes, q.edges, ViewsOf(q), n);
    if gathered.Ok? {
      StartedHitsAgree(env, q, n);
      AttemptOutcome(env, start, n, gathered.value);
    }
  }

  lemma SameHitsAgree(env: Env, a: Vm, b: Vm, n: Node)
    requires HitsAgree(env, a, n) && b.nodes == a.nodes && b.edges == a.edges && b.store == a.store
    ensures HitsAgree(env, b, n)
  {
    hide Gather, Find, Genuine;
  }

  lemma StartedHitsAgree(env: Env, q: Vm, n: Node)
    requires n.id in q.states && HitsAgree(env, q, n)
    ensures HitsAgree(env, Started(q, n), n)
  {
    hide HitsAgree;
    SameHitsAgree(env, q, Started(q, n), n);
  }

  /** Lookups under the key find the same in both stores. */
  ghost predicate SameFinds(a: ArtifactStore, b: ArtifactStore, key: CacheKey) {
    forall digests :: Find(b, key, digests) == Find(a, key, digests)
  }

  lemma StoredKeepsFinds(vm: Vm, a: Artifact, key: CacheKey)
    requires Ahead(vm) && a.id == FreshId(vm.nextId) && SoundFor(vm.store, key)
    requires SlotOf(a).Some? ==> SlotOf(a).value.key != key
    ensures SoundFor(Stored(vm, a).store, key) && SameFinds(vm.store, Stored(vm, a).store, key)
  {
    hide Sorted;
  }

  lemma PromptedKeepsFinds(env: Env, vm: Vm, n: Node, direct: seq<Input>, key: CacheKey)
    requires Ahead(vm) && SoundFor(vm.store, key)
    ensures var mid := Prompted(env, vm, n, direct);
      Ahead(mid) && SoundFor(mid.store, key) && SameFinds(vm.store, mid.store, key)
  {
    hide SoundFor, SameFinds, Find;
    SameStoreSameFinds(vm.store, key);
    if UsesPrompt(n.body) && env.prompt(n, direct).Ok? {
      StoredKeepsFinds(vm, PromptArtifact(FreshId(vm.nextId), env.prompt(n, direct).value), key);
    }
  }

  lemma SameStoreSameFinds(store: ArtifactStore, key: CacheKey)
    ensures SameFinds(store, store, key)
  {}

  /** A turn leaves every other node's cached results alone. */
  lemma AttemptKeepsOtherFinds(env: Env, vm: Vm, n: Node, key: CacheKey)
    requires n.id in vm.states && !n.body.kind.Expand? && Ahead(vm)
    requires AllowCache(n.body) ==> SoundFor(vm.store, KeyOf(n.body))
    requires SoundFor(vm.store, key) && key != KeyOf(n.body)
    ensures var t := Attempt(env, vm, n).0; SoundFor(t.store, key) && SameFinds(vm.store, t.store, key)
  {
    hide Gather, Handle, Ahead, SoundFor, SameFinds, KeyOf, Prompted;
    SameStoreSameFinds(vm.store, key);
    match Gather(env, vm.nodes, vm.edges, ViewsOf(vm), n)
    case Ok(g) =>
      var cached := Find(vm.store, KeyOf(n.body), g.digests);
      if AllowCache(n.body) && cached.Some? {
        FoundUnderItsKey(vm.store, KeyOf(n.body), g.digests);
        StoredKeepsFinds(vm, cached.value.(id := FreshId(vm.nextId)), key);
      } else {
        var mid := Prompted(env, vm, n, g.direct);
        PromptedKeepsFinds(env, vm, n, g.direct, key);
        if Handle(env, n, g.direct).Ok? {
          StoredKeepsFinds(mid, OutputArtifact(FreshId(mid.nextId), n, Handle(env, n, g.direct).value, g.digests), key);
          SameFindsCompose(vm.store, mid.store, Attempt(env, vm, n).0.store, key);
        }
      }
    case _ =>
  }

  lemma SameFindsCompose(a: ArtifactStore, b: ArtifactStore, c: ArtifactStore, key: CacheKey)
    requires SameFinds(a, b, key) && SameFinds(b, c, key)
    ensures SameFinds(a, c, key)
  {
    hide Find;
  }

  lemma FoundUnderItsKey(store: ArtifactStore, key: CacheKey, digests: seq<int>)
    requires SoundFor(store, key) && Find(store, key, digests).Some?
    ensures var a := Find(store, key, digests).value; SlotOf(a).Some? && SlotOf(a).value.key == key
  {}

  lemma WarmHitsAgree(env: Env, vm: Vm, n: Node)
    requires Warm(env, vm) && n in vm.nodes && n.id in vm.states && vm.states[n.id].status.Pending?
    ensures HitsAgree(env, vm, n)
  {
    hide HitsAgree;
    assert IsPending(ViewsOf(vm), n);
  }

  lemma PropagationStaysWarm(env: Env, s: Vm)
    requires Warm(env, s)
    ensures Warm(env, AfterSkips(s))
  {
    hide HitsAgree, KeysDiffer;
    var q := AfterSkips(s);
    PropagationOnlySkips(s);
    forall n | n in q.nodes && IsPending(ViewsOf(q), n) ensures HitsAgree(env, q, n) {
      assert IsPending(ViewsOf(s), n);
      SameHitsAgree(env, s, q, n);
    }
  }

  lemma OtherHitsAgree(env: Env, q: Vm, n: Node, m: Node)
    requires n.id in q.states && !n.body.kind.Expand? && Ahead(q)
    requires AllowCache(m.body) ==> KeyOf(m.body) != KeyOf(n.body)
    requires HitsAgree(env, q, n) && HitsAgree(env, q, m)
    requires Turn(env, q, n).0.nodes == q.nodes && Turn(env, q, n).0.edges == q.edges
    ensures HitsAgree(env, Turn(env, q, n).0, m)
  {
    hide Gather, Find, Genuine, Turn, Attempt, SoundFor, Ahead;
    var start, t := Started(q, n), Turn(env, q, n).0;
    TurnRecords(env, q, n);
    assert Ahead(start) by {
      StartedIsAhead(q, n);
    }
    if AllowCache(m.body) {
      AttemptKeepsOtherFinds(env, start, n, KeyOf(m.body));
      assert SameFinds(q.store, t.store, KeyOf(m.body));
    }
  }

  lemma StartedIsAhead(q: Vm, n: Node)
    requires n.id in q.states && Ahead(q)
    ensures Ahead(Started(q, n))
  {}

  lemma TurnStaysWarm(env: Env, s: Vm, q: Vm, n: Node, t: Vm)
    requires Effect(s, q, n, t) && Warm(env, q) && !n.body.kind.Expand? && t == Turn(env, q, n).0
    ensures Warm(env, t)
  {
    hide HitsAgree, Turn, KeyOf;
    WarmHitsAgree(env, q, n);
    forall m | m in t.nodes && IsPending(ViewsOf(t), m) ensures HitsAgree(env, t, m) {
      EffectPending(s, q, n, t, m);
      OtherHitsAgree(env, q, n, m);
    }
  }

  /** Whoever is pending after a turn was pending before it and did not run. */
  lemma EffectPending(s: Vm, q: Vm, n: Node, t: Vm, m: Node)
    requires Effect(s, q, n, t) && !n.body.kind.Expand? && m in t.nodes && IsPending(ViewsOf(t), m)
    ensures m in q.nodes && m != n && IsPending(ViewsOf(q), m)
  {}

  lemma ChosenBecomesMeant(env: Env, q: Vm, n: Node, t: Vm, rank: Id -> nat)
    requires Meaningful(env, q, rank) && Warm(env, q) && Quiescent(q) && n in q.nodes && !n.body.kind.Expand?
    requires q.states[n.id].status.Pending? && UpstreamsFinished(q, n)
    requires Turn(env, q, n).1.Ok? && t == Turn(env, q, n).0 && t.nodes == q.nodes && t.edges == q.edges
    ensures MeantNode(env, t, rank, n)
  {
    hide Turn, Outcome1, Denote, Warm, HitsAgree, Quiescent, UpstreamsFinished, Skippable, Meant, StatesOfNodes;
    PendingIsClean(q, n);
    ReadyIsNotSkippable(q, n);
    WarmHitsAgree(env, q, n);
    TurnOutcome(env, q, n);
    ReadyOutcomeIsDenoted(env, q, rank, n);
    DenoteOfSameGraph(env, q, t, rank, n.id);
  }

  lemma PendingIsClean(q: Vm, n: Node)
    requires Consistent(q) && n in q.nodes && q.states[n.id].status.Pending?
    ensures Clean(q.states[n.id])
  {
    assert GoodState(q, q.states[n.id]);
  }

  lemma ReadyIsNotSkippable(q: Vm, n: Node)
    requires Quiescent(q) && n in q.nodes && n.id in q.states && q.states[n.id].status.Pending?
    ensures !Skippable(q.nodes, q.edges, ViewsOf(q), n)
  {
    assert !CanSkip(q, n);
  }

  lemma DenoteOfSameGraph(env: Env, q: Vm, t: Vm, rank: Id -> nat, id: Id)
    requires Ranked(q.edges, rank) && t.nodes == q.nodes && t.edges == q.edges
    ensures Denote(env, t.nodes, t.edges, rank, id) == Denote(env, q.nodes, q.edges, rank, id)
  {}

  lemma OtherState(s: Vm, q: Vm, n: Node, t: Vm, m: Node)
    requires Effect(s, q, n, t) && !n.body.kind.Expand? && m in q.nodes && m != n
    ensures Frozen(q, t) && t.nodes == q.nodes && t.edges == q.edges
    ensures m.id in q.states && m.id in t.states && t.states[m.id] == q.states[m.id]
  {
    LookupDistinct(q.nodes, m);
    LookupDistinct(q.nodes, n);
    FrozenTurn(s, q, n, t);
  }

  lemma OthersStayMeant(env: Env, s: Vm, q: Vm, n: Node, t: Vm, rank: Id -> nat, m: Node)
    requires Effect(s, q, n, t) && Meaningful(env, q, rank) && !n.body.kind.Expand? && m in q.nodes && m != n
    ensures t.edges == q.edges && MeantNode(env, t, rank, m)
  {
    OtherState(s, q, n, t, m);
    MeaningPersists(env, q, t, rank, m);
  }

  lemma StepIsMeant(env: Env, s: Vm, n: Node, t: Vm, rank: Id -> nat)
    requires Meaningful(env, s, rank) && Warm(env, s) && ExpandFree(s.nodes) && Step(env, s, n, t)
    ensures Meaningful(env, t, rank) && Warm(env, t) && SameGraph(s, t)
  {
    var q := AfterSkips(s);
    StepEffect(env, s, n, t);
    PropagationIsMeant(env, s, rank);
    PropagationStaysWarm(env, s);
    AfterSkipsIsQuiescent(s);
    StepIsMeantFrom(env, s, q, n, t, rank);
  }

  lemma StepIsMeantFrom(env: Env, s: Vm, q: Vm, n: Node, t: Vm, rank: Id -> nat)
    requires Effect(s, q, n, t) && Meaningful(env, q, rank) && Warm(env, q) && Quiescent(q) && ExpandFree(q.nodes)
    requires Turn(env, q, n).1.Ok? && t == Turn(env, q, n).0
    ensures Meaningful(env, t, rank) && Warm(env, t) && SameGraph(s, t)
  {
    TurnStaysWarm(env, s, q, n, t);
    forall m | m in t.nodes ensures MeantNode(env, t, rank, m) {
      if m == n {
        ChosenBecomesMeant(env, q, n, t, rank);
      } else {
        OthersStayMeant(env, s, q, n, t, rank, m);
      }
    }
  }

  lemma FreshIsMeant(env: Env, vm: Vm, rank: Id -> nat)
    requires Accepted(vm, rank) && Consistent(vm)
    ensures Meaningful(env, vm, rank)
  {}

  lemma NextIsMeant(env: Env, tr: seq<Vm>, ns: seq<Node>, rank: Id -> nat, i: nat)
    requires Steps(env, tr, ns) && i < |ns|
    requires Meaningful(env, tr[i], rank) && Warm(env, tr[i]) && ExpandFree(tr[i].nodes)
    ensures Meaningful(env, tr[i + 1], rank) && Warm(env, tr[i + 1]) && SameGraph(tr[i], tr[i + 1])
  {
    StepIsMeant(env, tr[i], ns[i], tr[i + 1], rank);
  }

  lemma {:induction false} StepsAreMeant(env: Env, tr: seq<Vm>, ns: seq<Node>, rank: Id -> nat, i: nat)
    requires Steps(env, tr, ns) && i < |tr|
    requires Meaningful(env, tr[0], rank) && Warm(env, tr[0]) && ExpandFree(tr[0].nodes)
    ensures Meaningful(env, tr[i], rank) && Warm(env, tr[i]) && SameGraph(tr[0], tr[i])
  {
    if i > 0 {
      StepsAreMeant(env, tr, ns, rank, i - 1);
      NextIsMeant(env, tr, ns, rank, i - 1);
    }
  }

  /** In every reachable state, in whatever order the nodes were scheduled, each
      node that is no longer pending shows its denotation. */
  lemma RunIsMeant(env: Env, tr: seq<Vm>, ns: seq<Node>, rank: Id -> nat, i: nat)
    requires IsRun(env, tr, ns) && Accepted(tr[0], rank) && Warm(env, tr[0]) && i < |tr|
    ensures Meaningful(env, tr[i], rank) && Warm(env, tr[i]) && SameGraph(tr[0], tr[i])
  {
    RunIsConsistent(env, tr, ns, 0);
    FreshIsMeant(env, tr[0], rank);
    StepsAreMeant(env, tr, ns, rank, i);
  }

  // ----- the result of a run -----

  ghost predicate NothingFails(env: Env, vm: Vm, rank: Id -> nat)
    requires Ranked(vm.edges, rank)
  {
    forall n :: n in vm.nodes ==> Denote(env, vm.nodes, vm.edges, rank, n.id) != FAILED_VIEW
  }

  /** Where the executor stops, it stops with the meaning of the graph. */
  lemma StopIsMeant(env: Env, vm: Vm, rank: Id -> nat) returns (last: Vm)
    requires Accepted(vm, rank) && Warm(env, vm)
    ensures Ends(env, last, RunFrom(env, vm)) && SameGraph(vm, last)
    ensures Meaningful(env, AfterSkips(last), rank) && Warm(env, AfterSkips(last)) && Quiescent(AfterSkips(last))
    ensures OnlySkips(last, AfterSkips(last)) && NoneExpanded(last)
  {
    var tr, ns := LastState(env, vm, rank);
    last := tr[|ns|];
    RunIsMeant(env, tr, ns, rank, |ns|);
    PropagationIsMeant(env, last, rank);
    PropagationStaysWarm(env, last);
    PropagationOnlySkips(last);
    AfterSkipsIsQuiescent(last);
  }

  /** A turn that raises was for a node whose denotation is the failure. */
  lemma RaisingIsMeant(env: Env, q: Vm, rank: Id -> nat, n: Node)
    requires Meaningful(env, q, rank) && Warm(env, q) && Quiescent(q) && ExpandFree(q.nodes) && n in q.nodes
    requires IsReady(q.edges, ViewsOf(q), n) && !Turn(env, q, n).1.Ok?
    ensures Denote(env, q.nodes, q.edges, rank, n.id) == FAILED_VIEW
  {
    ReadyIsFinishedUpstream(q, n);
    assert GoodState(q, q.states[n.id]);
    assert !CanSkip(q, n);
    WarmHitsAgree(env, q, n);
    TurnOutcome(env, q, n);
    ReadyOutcomeIsDenoted(env, q, rank, n);
  }

  /** The run returns exactly when no node's denotation is a failure. */
  lemma ReturnsIffNothingFails(env: Env, vm: Vm, rank: Id -> nat)
    requires Accepted(vm, rank) && Warm(env, vm)
    ensures RunFrom(env, vm).1.Returned? <==> NothingFails(env, vm, rank)
  {
    NeverStalls(env, vm, rank);
    var last := StopIsMeant(env, vm, rank);
    var q := AfterSkips(last);
    var ready := FirstReady(q.nodes, q.edges, ViewsOf(q));
    if ready.Some? {
      RaisingIsMeant(env, q, rank, ready.value);
    } else {
      forall n | n in vm.nodes ensures Denote(env, vm.nodes, vm.edges, rank, n.id) != FAILED_VIEW {
        ReturnedIsComplete(env, vm, rank, n);
        assert MeantNode(env, q, rank, n);
      }
    }
  }

  lemma ReturnedState(env: Env, last: Vm, outcome: (Vm, RunResult))
    requires Ends(env, last, outcome) && outcome.1.Returned?
    ensures outcome.0.states == AfterSkips(last).states && outcome.0.store == AfterSkips(last).store
  {}

  /** A run that returns gives every node exactly the status, output, not-found
      mark and branch of the recursive definition. */
  lemma RunComputesDenotation(env: Env, vm: Vm, rank: Id -> nat, n: Node)
    requires Accepted(vm, rank) && Warm(env, vm) && RunFrom(env, vm).1.Returned? && n in vm.nodes
    ensures n.id in ViewsOf(RunFrom(env, vm).0)
    ensures ViewsOf(RunFrom(env, vm).0)[n.id] == Denote(env, vm.nodes, vm.edges, rank, n.id)
  {
    var last := StopIsMeant(env, vm, rank);
    var outcome := RunFrom(env, vm);
    ReturnedState(env, last, outcome);
    ReturnedIsComplete(env, vm, rank, n);
    assert MeantNode(env, AfterSkips(last), rank, n);
    assert ViewsOf(outcome.0)[n.id] == ViewOf(outcome.0.store, outcome.0.states[n.id]);
  }

  lemma ReorderedHitsAgree(env: Env, vm: Vm, order: seq<Node>, n: Node)
    requires SameNodes(vm.nodes, order) && HitsAgree(env, vm, n)
    ensures HitsAgree(env, vm.(nodes := order), n)
  {
    hide Find, Genuine, SameNodes;
    forall views: Views ensures Gather(env, vm.nodes, vm.edges, views, n) == Gather(env, order, vm.edges, views, n) {
      GatherIgnoresNodeOrder(env, vm.nodes, order, vm.edges, views, n, Gathered([], []));
    }
  }

  lemma ReorderedIsWarm(env: Env, vm: Vm, order: seq<Node>)
    requires Warm(env, vm) && SameNodes(vm.nodes, order)
    ensures Warm(env, vm.(nodes := order))
  {
    hide HitsAgree;
    var other := vm.(nodes := order);
    assert ViewsOf(other) == ViewsOf(vm);
    forall n | n in other.nodes && IsPending(ViewsOf(other), n) ensures HitsAgree(env, other, n) {
      ReorderedHitsAgree(env, vm, order, n);
    }
  }

  lemma ReorderedIsAccepted(vm: Vm, order: seq<Node>, rank: Id -> nat)
    requires Accepted(vm, rank) && SameNodes(vm.nodes, order)
    ensures Accepted(vm.(nodes := order), rank)
  {
    forall id ensures Lookup(vm.nodes, id) == Lookup(order, id) {
      LookupIgnoresOrder(vm.nodes, order, id);
    }
  }

  lemma ReorderedFailsAlike(env: Env, vm: Vm, order: seq<Node>, rank: Id -> nat)
    requires Ranked(vm.edges, rank) && SameNodes(vm.nodes, order)
    ensures NothingFails(env, vm, rank) <==> NothingFails(env, vm.(nodes := order), rank)
  {
    forall id ensures Denote(env, vm.nodes, vm.edges, rank, id) == Denote(env, order, vm.edges, rank, id) {
      DenoteIgnoresNodeOrder(env, vm.nodes, order, vm.edges, rank, id);
    }
  }

  /** The order in which the nodes are stored changes neither whether the run
      returns nor what it returns. */
  lemma NodeOrderIsIrrelevant(env: Env, vm: Vm, order: seq<Node>, rank: Id -> nat, n: Node)
    requires Accepted(vm, rank) && Warm(env, vm) && n in vm.nodes && SameNodes(vm.nodes, order)
    ensures Accepted(vm.(nodes := order), rank)
    ensures RunFrom(env, vm).1.Returned? <==> RunFrom(env, vm.(nodes := order)).1.Returned?
    ensures RunFrom(env, vm).1.Returned? ==>
      var a, b := ViewsOf(RunFrom(env, vm).0), ViewsOf(RunFrom(env, vm.(nodes := order)).0);
      n.id in a && n.id in b && a[n.id] == b[n.id]
  {
    var other := vm.(nodes := order);
    ReorderedIsAccepted(vm, order, rank);
    ReorderedIsWarm(env, vm, order);
    ReorderedFailsAlike(env, vm, order, rank);
    ReturnsIffNothingFails(env, vm, rank);
    ReturnsIffNothingFails(env, other, rank);
    if RunFrom(env, vm).1.Returned? {
      RunComputesDenotation(env, vm, rank, n);
      RunComputesDenotation(env, other, rank, n);
      DenoteIgnoresNodeOrder(env, vm.nodes, order, vm.edges, rank, n.id);
    }
  }
}
