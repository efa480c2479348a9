/** Two ways in which a reused result is wrong: the mark of a not-found result is
    dropped, and the key does not say which input arrived where. */
module ReuseExamples {
  import opened TaskGraphs
  import opened ArtifactCache
  import opened RunStates
  import opened Schedulers
  import opened Transforms
  import opened Execution
  import opened Reachability
  import opened Denotation

  // ----- a not-found result, reused -----

  const FINDER := Node(FreshId(0),
    NodeBody("find", Model, None, Some("NotFound"), [], map[], Some(true), map[], None))
  const THINKER := Node(FreshId(1),
    NodeBody("think", Model, Some("RawText"), Some("Summary"), [], map[], None, map[], None))
  const LINK: Edge<Id> := Edge(FreshId(0), "output", FreshId(1), "input", None, true, map[])

  /** A run of the two nodes that has not started, in a storage in use. */
  function Start(store: ArtifactStore, nextId: nat): Vm {
    Vm([FINDER, THINKER], [LINK], map[FreshId(0) := FRESH_STATE, FreshId(1) := FRESH_STATE],
       store, [], RunRunning, None, nextId)
  }

  ghost predicate NotFinding(env: Env, v: Value) {
    env.prompt(FINDER, []).Ok? && env.handler(FINDER, []) == Ok(v) && v.schema == "NotFound"
  }

  lemma NothingToSkip(vm: Vm)
    requires DistinctIds(vm.nodes) && Quiescent(vm)
    ensures AfterSkips(vm) == vm
  {
    hide LeastSkip;
    NothingSkipped(vm);
    PropagationEnds(vm, {});
  }

  lemma StartIsQuiescent(store: ArtifactStore, nextId: nat)
    ensures AfterSkips(Start(store, nextId)) == Start(store, nextId)
    ensures Chosen(Start(store, nextId), FINDER)
  {
    hide AfterSkips;
    var vm := Start(store, nextId);
    forall n | n in vm.nodes ensures !CanSkip(vm, n) {
      assert ViewsOf(vm)[FreshId(0)].status == Pending && !ViewsOf(vm)[FreshId(0)].notFound;
    }
    NothingToSkip(vm);
  }

  lemma FinderGathersNothing(env: Env, vm: Vm)
    requires vm.nodes == [FINDER, THINKER] && vm.edges == [LINK]
    ensures Gather(env, vm.nodes, vm.edges, ViewsOf(vm), FINDER) == Ok(Gathered([], []))
  {
    assert vm.edges[0].to != FINDER.id && vm.edges[1..] == [];
    assert GatherFrom(env, vm.nodes, [], ViewsOf(vm), FINDER, Gathered([], [])) == Ok(Gathered([], []));
  }

  /** What the finder's turn does to the states of the two nodes. */
  ghost predicate Left(t: Vm, marked: bool) {
    && t.nodes == [FINDER, THINKER] && t.edges == [LINK] && t.states.Keys == {FreshId(0), FreshId(1)}
    && t.states[FreshId(0)].status.Succeeded? && t.states[FreshId(0)].notFound == marked
    && t.states[FreshId(1)] == FRESH_STATE
  }

  lemma StartedStates(store: ArtifactStore, nextId: nat)
    ensures var start := Started(Start(store, nextId), FINDER);
      && start.nodes == [FINDER, THINKER] && start.edges == [LINK] && start.store == store && start.nextId == nextId
      && start.states == map[FreshId(0) := FRESH_STATE.(status := Running, attempts := 1), FreshId(1) := FRESH_STATE]
  {}

  lemma TurnFromAttempt(env: Env, vm: Vm, n: Node, t: Vm)
    requires n.id in vm.states && Attempt(env, Started(vm, n), n) == (t, Ok(()))
    ensures Turn(env, vm, n) == (Checkpointed(t), Ok(()))
  {}

  /** Without a cached result the finder's mark is recorded, and its result is
      stored under the empty list of inputs. */
  lemma FirstTurn(env: Env, v: Value)
    requires NotFinding(env, v)
    ensures var (t, out) := Turn(env, Start(EMPTY_STORE, 2), FINDER);
      && out.Ok? && Left(t, true)
      && Find(t.store, KeyOf(FINDER.body), []).Some?
  {
    hide Gather, Find, Prompted, Checkpointed, Started;
    var start := Started(Start(EMPTY_STORE, 2), FINDER);
    StartedStates(EMPTY_STORE, 2);
    FinderGathersNothing(env, start);
    NothingFound();
    var mid := Prompted(env, start, FINDER, []);
    PromptedKeepsStates(env, start, FINDER, []);
    PromptedKeepsGraph(env, start);
    assert Handle(env, FINDER, []) == Ok(v);
    TurnFromAttempt(env, Start(EMPTY_STORE, 2), FINDER, Produced(mid, FINDER, v, []));
    StoredIsFound(mid, OutputArtifact(FreshId(mid.nextId), FINDER, v, []), KeyOf(FINDER.body), []);
    CheckpointKeeps(Produced(mid, FINDER, v, []));
  }

  lemma NothingFound()
    ensures Find(EMPTY_STORE, KeyOf(FINDER.body), []).None?
  {}

  lemma PromptedKeepsGraph(env: Env, vm: Vm)
    ensures var mid := Prompted(env, vm, FINDER, []); mid.nodes == vm.nodes && mid.edges == vm.edges
  {}

  lemma CheckpointKeeps(vm: Vm)
    ensures var t := Checkpointed(vm);
      t.nodes == vm.nodes && t.edges == vm.edges && t.states == vm.states && t.store == vm.store
  {}

  lemma StoredIsFound(vm: Vm, a: Artifact, key: CacheKey, digests: seq<int>)
    requires a.cacheKey == Some(key) && a.supersededBy.None?
    requires a.inputs.Some? && Sorted(a.inputs.value) == Sorted(digests)
    ensures Find(Stored(vm, a).store, key, digests) == Some(a)
  {
    hide Sorted;
  }

  /** With one, the mark is dropped. */
  lemma SecondTurn(env: Env, store: ArtifactStore, nextId: nat)
    requires Find(store, KeyOf(FINDER.body), []).Some?
    ensures var (t, out) := Turn(env, Start(store, nextId), FINDER); out.Ok? && Left(t, false)
  {
    hide Gather, Find, Checkpointed, Started;
    var start := Started(Start(store, nextId), FINDER);
    StartedStates(store, nextId);
    FinderGathersNothing(env, start);
    var cached := Find(store, KeyOf(FINDER.body), []).value;
    TurnFromAttempt(env, Start(store, nextId), FINDER, Reused(start, FINDER, cached));
    CheckpointKeeps(Reused(start, FINDER, cached));
  }

  lemma MarkedSkips(t: Vm)
    requires Left(t, true)
    ensures AfterSkips(t).states[FreshId(1)].status.Skipped?
  {
    hide LeastSkip;
    var views, least := ViewsOf(t), LeastSkip(t.nodes, t.edges, ViewsOf(t));
    LeastSkipIsClosed(t.nodes, t.edges, views);
    assert THINKER in t.nodes && IsPending(views, THINKER);
    assert LINK in t.edges && LINK.from in WithSkipped(views, least) && WithSkipped(views, least)[LINK.from].notFound;
    assert BlockedByNotFound(t.edges, WithSkipped(views, least), THINKER);
    assert THINKER.id in least;
    LookupDistinct(t.nodes, THINKER);
  }

  lemma UnmarkedRuns(t: Vm)
    requires Left(t, false)
    ensures Chosen(t, THINKER)
  {
    hide AfterSkips;
    forall n | n in t.nodes ensures !CanSkip(t, n) {
      assert ViewsOf(t)[FreshId(0)].status.Succeeded? && !ViewsOf(t)[FreshId(0)].notFound;
    }
    NothingToSkip(t);
  }

  /** The same two nodes run twice in one storage: the first time the not-found
      result skips the second node, the second time it is reused and the second
      node is chosen. */
  lemma ReusedNotFoundSkipsNothing(env: Env, v: Value)
    requires NotFinding(env, v)
    ensures var vm := Start(EMPTY_STORE, 2);
      var first := Turn(env, vm, FINDER).0;
      var again := Start(first.store, first.nextId);
      var second := Turn(env, again, FINDER).0;
      && Step(env, vm, FINDER, first) && AfterSkips(first).states.Keys == {FreshId(0), FreshId(1)}
      && AfterSkips(first).states[FreshId(1)].status.Skipped?
      && Step(env, again, FINDER, second) && Chosen(second, THINKER)
  {
    hide Turn, AfterSkips, Chosen, Find, NotFinding;
    var first := Turn(env, Start(EMPTY_STORE, 2), FINDER).0;
    StartIsQuiescent(EMPTY_STORE, 2);
    FirstTurn(env, v);
    PropagationOnlySkips(first);
    MarkedSkips(first);
    StartIsQuiescent(first.store, first.nextId);
    SecondTurn(env, first.store, first.nextId);
    UnmarkedRuns(Turn(env, Start(first.store, first.nextId), FINDER).0);
  }

  // ----- two inputs, swapped -----

  const LEFT := Node(FreshId(0), NodeBody("left", Intent, None, Some("RawText"), [], map[], None, map[], None))
  const RIGHT := Node(FreshId(1), NodeBody("right", Intent, None, Some("RawText"), [], map[], None, map[], None))
  const COMPARE := Node(FreshId(2), NodeBody("compare", Tool, None, Some("RawText"), [], map[], None, map[], None))
  const PAIR := [LEFT, RIGHT, COMPARE]
  const FROM_LEFT: Edge<Id> := Edge(FreshId(0), "output", FreshId(2), "left", None, true, map[])
  const FROM_RIGHT: Edge<Id> := Edge(FreshId(1), "output", FreshId(2), "right", None, true, map[])

  /** The left node holds x, the right one y. */
  function Holding(x: Content, y: Content): Views {
    map[FreshId(0) := View(Succeeded, false, None, Some([Piece("output", x)])),
        FreshId(1) := View(Succeeded, false, None, Some([Piece("output", y)]))]
  }

  ghost predicate Fits(env: Env, x: Content) {
    env.validate("RawText", x) == Ok(x)
  }

  lemma PairLookups()
    ensures Lookup(PAIR, FreshId(0)) == Some(LEFT) && Lookup(PAIR, FreshId(1)) == Some(RIGHT)
  {
    assert DistinctIds(PAIR) && LEFT in PAIR && RIGHT in PAIR;
    LookupDistinct(PAIR, LEFT);
    LookupDistinct(PAIR, RIGHT);
  }

  lemma PlainEdgeDelivers(env: Env, views: Views, e: Edge<Id>, x: Content, acc: Gathered)
    requires e == FROM_LEFT || e == FROM_RIGHT
    requires Fits(env, x) && e.from in views
    requires views[e.from] == View(Succeeded, false, None, Some([Piece("output", x)]))
    ensures GatherEdge(env, PAIR, views, e, acc)
         == Ok(Gathered(Put(acc.direct, e.toPort, Value("RawText", x)), acc.digests + [env.digest(x)]))
  {
    hide Lookup, Put;
    PairLookups();
    assert Pick([Piece("output", x)], "output") == x;
  }

  lemma PairGathers(env: Env, x: Content, y: Content)
    requires Fits(env, x) && Fits(env, y)
    ensures Gather(env, PAIR, [FROM_LEFT, FROM_RIGHT], Holding(x, y), COMPARE)
         == Ok(Gathered([Input("left", Value("RawText", x)), Input("right", Value("RawText", y))],
                        [env.digest(x), env.digest(y)]))
  {
    hide GatherEdge;
    var views := Holding(x, y);
    var left, right := Input("left", Value("RawText", x)), Input("right", Value("RawText", y));
    PlainEdgeDelivers(env, views, FROM_LEFT, x, Gathered([], []));
    PlainEdgeDelivers(env, views, FROM_RIGHT, y, Gathered([left], [env.digest(x)]));
    assert Put([], "left", left.value) == [left] && Put([], "right", right.value) == [right];
    assert Put([left], "right", right.value) == [left, right] by {
      assert [left][1..] == [];
      assert [left] + [right] == [left, right];
    }
    assert [] + [env.digest(x)] == [env.digest(x)];
    assert [env.digest(x)] + [env.digest(y)] == [env.digest(x), env.digest(y)];
    assert [FROM_LEFT, FROM_RIGHT][1..] == [FROM_RIGHT] && [FROM_RIGHT][1..] == [];
    var both := Gathered([left, right], [env.digest(x), env.digest(y)]);
    assert GatherFrom(env, PAIR, [], views, COMPARE, both) == Ok(both);
    assert GatherFrom(env, PAIR, [FROM_RIGHT], views, COMPARE, Gathered([left], [env.digest(x)])) == Ok(both);
  }

  /** The result v of the tool for (x, y) is found for (y, x), so the tool is not
      asked; if it would have answered otherwise, the hit is not genuine. */
  lemma SwappedInputsAreServed(env: Env, vm: Vm, x: Content, y: Content, v: Value)
    requires Fits(env, x) && Fits(env, y) && vm.nodes == PAIR && vm.edges == [FROM_LEFT, FROM_RIGHT]
    ensures var stored := Gather(env, PAIR, vm.edges, Holding(x, y), COMPARE);
      var asked := Gather(env, PAIR, vm.edges, Holding(y, x), COMPARE);
      && AllowCache(COMPARE.body) && stored.Ok? && asked.Ok?
      && (x != y ==> stored.value.direct != asked.value.direct)
      && var a := OutputArtifact(FreshId(vm.nextId), COMPARE, v, stored.value.digests);
      && Find(Stored(vm, a).store, KeyOf(COMPARE.body), asked.value.digests) == Some(a)
      && (Handle(env, COMPARE, asked.value.direct).Ok?
          && Handle(env, COMPARE, asked.value.direct).value.content != v.content ==>
            !HitsAgree(env, Stored(vm, a), COMPARE))
  {
    hide Gather, Handle, Find, Sorted;
    PairGathers(env, x, y);
    PairGathers(env, y, x);
    var stored := Gather(env, PAIR, vm.edges, Holding(x, y), COMPARE);
    var asked := Gather(env, PAIR, vm.edges, Holding(y, x), COMPARE);
    var a := OutputArtifact(FreshId(vm.nextId), COMPARE, v, stored.value.digests);
    if x != y {
      assert stored.value.direct[0] != asked.value.direct[0];
    }
    SortedIsCanonical([env.digest(x), env.digest(y)], [env.digest(y), env.digest(x)]);
    assert multiset([env.digest(x), env.digest(y)]) == multiset([env.digest(y), env.digest(x)]);
    StoredIsFound(vm, a, KeyOf(COMPARE.body), asked.value.digests);
    if HitsAgree(env, Stored(vm, a), COMPARE) {
      GenuineHit(env, Stored(vm, a), COMPARE, Holding(y, x), asked.value);
    }
  }
}
