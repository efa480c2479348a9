/** The cache along a run: what the history of the store says about a lookup in
    any reachable state. */
module RunCache {
  import opened TaskGraphs
  import opened ArtifactCache
  import opened RunStates
  import opened Schedulers
  import opened Execution
  import opened Termination
  import opened Reachability

  ghost predicate Logs(op: Op, nextId: nat) {
    op.PersistOp? && op.artifact.supersededBy.None? && op.artifact.id.FreshId? && op.artifact.id.number < nextId
  }

  /** The store was filled by h alone, under growing identifiers. */
  ghost predicate Logged(h: seq<Op>, vm: Vm) {
    && vm.store == Replay(h)
    && (forall i :: 0 <= i < |h| ==> Logs(h[i], vm.nextId))
    && forall i, j :: 0 <= i < j < |h| ==> h[i].artifact.id.number < h[j].artifact.id.number
  }

  lemma StoredIsLogged(h: seq<Op>, vm: Vm, a: Artifact)
    requires Logged(h, vm) && a.id == FreshId(vm.nextId) && a.supersededBy.None?
    ensures Logged(h + [PersistOp(a)], Stored(vm, a))
  {
    var later := h + [PersistOp(a)];
    assert later[..|h|] == h;
  }

  lemma SameStoreIsLogged(h: seq<Op>, vm: Vm, after: Vm)
    requires Logged(h, vm) && after.store == vm.store && vm.nextId <= after.nextId
    ensures Logged(h, after)
  {}

  lemma InvokedIsLogged(h: seq<Op>, env: Env, vm: Vm, n: Node, direct: seq<Input>) returns (later: seq<Op>)
    requires n.id in vm.states && Logged(h, vm)
    ensures n.id in Invoked(env, vm, n, direct).0.states && Logged(later, Invoked(env, vm, n, direct).0)
  {
    hide Logged, Handle;
    later := h;
    if n.body.kind.Expand? && n.body.expansion.Some? {
      AddNodesFrame(vm, n.body.expansion.value.nodes);
      SameStoreIsLogged(h, vm, ExpandedBy(vm, n, n.body.expansion.value));
    } else if !n.body.kind.Expand? && UsesPrompt(n.body) && env.prompt(n, direct).Ok? {
      var a := PromptArtifact(FreshId(vm.nextId), env.prompt(n, direct).value);
      StoredIsLogged(h, vm, a);
      later := h + [PersistOp(a)];
    }
  }

  lemma AttemptIsLogged(h: seq<Op>, env: Env, vm: Vm, n: Node) returns (later: seq<Op>)
    requires n.id in vm.states && Logged(h, vm)
    ensures Logged(later, Attempt(env, vm, n).0)
  {
    hide Logged, Invoked, Gather;
    later := h;
    match Gather(env, vm.nodes, vm.edges, ViewsOf(vm), n)
    case Ok(g) =>
      var cached := Find(vm.store, KeyOf(n.body), g.digests);
      if AllowCache(n.body) && cached.Some? {
        var copy := cached.value.(id := FreshId(vm.nextId));
        StoredIsLogged(h, vm, copy);
        later := h + [PersistOp(copy)];
        SameStoreIsLogged(later, Stored(vm, copy), Reused(vm, n, cached.value));
      } else {
        later := InvokedIsLogged(h, env, vm, n, g.direct);
        var (mid, out) := Invoked(env, vm, n, g.direct);
        if out.Ok? {
          var a := OutputArtifact(FreshId(mid.nextId), n, out.value, g.digests);
          StoredIsLogged(later, mid, a);
          later := later + [PersistOp(a)];
          SameStoreIsLogged(later, Stored(mid, a), Produced(mid, n, out.value, g.digests));
        }
      }
    case _ =>
  }

  lemma TurnIsLogged(h: seq<Op>, env: Env, vm: Vm, n: Node) returns (later: seq<Op>)
    requires n.id in vm.states && Logged(h, vm)
    ensures Logged(later, Turn(env, vm, n).0)
  {
    hide Logged, Attempt;
    SameStoreIsLogged(h, vm, Started(vm, n));
    later := AttemptIsLogged(h, env, Started(vm, n), n);
    TurnRecords(env, vm, n);
    SameStoreIsLogged(later, Attempt(env, Started(vm, n), n).0, Turn(env, vm, n).0);
  }

  lemma StepIsLogged(h: seq<Op>, env: Env, s: Vm, n: Node, t: Vm) returns (later: seq<Op>)
    requires Step(env, s, n, t) && Logged(h, s)
    ensures Logged(later, t)
  {
    hide Logged, Turn;
    SameStoreIsLogged(h, s, AfterSkips(s));
    later := TurnIsLogged(h, env, AfterSkips(s), n);
  }

  lemma {:induction false} RunIsLogged(env: Env, tr: seq<Vm>, ns: seq<Node>, i: nat) returns (h: seq<Op>)
    requires Steps(env, tr, ns) && i < |tr| && tr[0].store == EMPTY_STORE
    ensures Logged(h, tr[i])
  {
    hide Logged, Step;
    if i == 0 {
      h := [];
      NothingLogged(tr[0]);
    } else {
      h := RunIsLogged(env, tr, ns, i - 1);
      h := NextIsLogged(h, env, tr, ns, i - 1);
    }
  }

  lemma NothingLogged(vm: Vm)
    requires vm.store == EMPTY_STORE
    ensures Logged([], vm)
  {}

  lemma NextIsLogged(h: seq<Op>, env: Env, tr: seq<Vm>, ns: seq<Node>, i: nat) returns (later: seq<Op>)
    requires Steps(env, tr, ns) && i < |ns| && Logged(h, tr[i])
    ensures Logged(later, tr[i + 1])
  {
    hide Logged, Step;
    later := StepIsLogged(h, env, tr[i], ns[i], tr[i + 1]);
  }

  lemma AllLive(h: seq<Op>, vm: Vm, i: nat)
    requires Logged(h, vm) && i < |h|
    ensures FreshIds(h) && Live(h, i)
    ensures h[i].artifact.id in vm.store.artifacts && vm.store.artifacts[h[i].artifact.id] == h[i].artifact
  {
    ReplayKeeps(h);
  }

  /** Every stored artifact comes from one step of the history. */
  lemma StepOf(h: seq<Op>, vm: Vm, id: Id) returns (i: nat)
    requires Logged(h, vm) && id in vm.store.artifacts
    ensures i < |h| && h[i].PersistOp? && h[i].artifact.id == id && vm.store.artifacts[id] == h[i].artifact
  {
    ReplayKeeps(h);
    i :| i < |h| && h[i].PersistOp? && h[i].artifact.id == id;
    AllLive(h, vm, i);
  }

  ghost predicate Newest(artifacts: map<Id, Artifact>, a: Artifact, key: CacheKey, inputs: seq<int>) {
    && a.id in artifacts && artifacts[a.id] == a && Matches(a, key, inputs) && a.id.FreshId?
    && forall id :: id in artifacts && Matches(artifacts[id], key, inputs) ==> id.FreshId? && id.number <= a.id.number
  }

  lemma LoggedLookup(h: seq<Op>, vm: Vm, key: CacheKey, inputs: seq<int>)
    requires Logged(h, vm)
    ensures var found := Find(vm.store, key, inputs);
      && (found.None? <==> forall id :: id in vm.store.artifacts ==> !Matches(vm.store.artifacts[id], key, inputs))
      && (found.Some? ==> Newest(vm.store.artifacts, found.value, key, inputs))
  {
    hide Find, Replay, Matches;
    assert FreshIds(h);
    var found := Find(vm.store, key, inputs);
    if found.Some? {
      HitIsNewestLive(h, key, inputs);
      var i :| NewestLive(h, i, key, inputs) && found.value == h[i].artifact;
      AllLive(h, vm, i);
      forall id | id in vm.store.artifacts && Matches(vm.store.artifacts[id], key, inputs)
        ensures id.FreshId? && id.number <= found.value.id.number
      {
        var j := StepOf(h, vm, id);
        AllLive(h, vm, j);
      }
    } else {
      forall id | id in vm.store.artifacts ensures !Matches(vm.store.artifacts[id], key, inputs) {
        var j := StepOf(h, vm, id);
        AllLive(h, vm, j);
        MissExactly(h, key, inputs);
      }
    }
  }

  /** In every reachable state of a run from an empty store, graph growth and
      earlier hits included, the index agrees with a scan of the artifacts: a
      lookup misses exactly when none matches, and otherwise serves the newest. */
  lemma RunLookupsAreExact(env: Env, tr: seq<Vm>, ns: seq<Node>, i: nat, key: CacheKey, inputs: seq<int>)
    requires IsRun(env, tr, ns) && i < |tr| && tr[0].store == EMPTY_STORE
    ensures var artifacts, found := tr[i].store.artifacts, Find(tr[i].store, key, inputs);
      && (found.None? <==> forall id :: id in artifacts ==> !Matches(artifacts[id], key, inputs))
      && (found.Some? ==> Newest(artifacts, found.value, key, inputs))
  {
    hide Logged, Steps;
    var h := RunIsLogged(env, tr, ns, i);
    LoggedLookup(h, tr[i], key, inputs);
  }
}
