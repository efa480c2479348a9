/** The single-process executor, running a graph to completion in the storage. */
module Executors {
  import opened TaskGraphs
  import opened ArtifactCache
  import opened RunStates
  import opened Storage
  import opened Schedulers
  import opened Transforms
  import Expansion
  import opened Execution
  import opened Termination

  // ----- a whole run, as a function -----

  /** How `execute` ends: it returns the run, or it raises because pending
      nodes are stuck, or because a node's execution raised. */
  datatype RunResult = Returned | Stalled | Raised(exception: Outcome<()>)

  /** `_ensure_node_states`, and the run marked running. */
  function Prepared(vm: Vm): Vm {
    vm.(states := WithFreshStates(vm.states, vm.nodes), status := RunRunning)
  }

  function WithFreshStates(existing: map<Id, NodeState>, nodes: seq<Node>): (states: map<Id, NodeState>)
    ensures forall id :: id in states <==> id in existing || exists n :: n in nodes && n.id == id
    ensures forall id :: id in states ==> states[id] == if id in existing then existing[id] else FRESH_STATE
  {
    if nodes == [] then existing
    else
      var states := WithFreshStates(existing, nodes[..|nodes| - 1]);
      var n := nodes[|nodes| - 1];
      if n.id in existing then states else states[n.id := FRESH_STATE]
  }

  predicate AnyPending(states: map<Id, NodeState>) {
    exists id | id in states :: states[id].status.Pending?
  }

  /** What happens when no node is ready. */
  function Concluded(vm: Vm): (Vm, RunResult) {
    if (exists n | n in vm.nodes :: FinalSucceeded(vm, n)) || !AnyPending(vm.states)
    then (vm.(status := RunSucceeded), Returned)
    else (vm.(status := RunFailed), Stalled)
  }

  lemma NextIsLighter(env: Env, vm: Vm, n: Node)
    requires Sane(vm) && n in vm.nodes && PendingIn(AfterSkips(vm).states, n.id)
    ensures var next := Turn(env, AfterSkips(vm), n).0; Sane(next) && Weigh(next) < Weigh(vm)
  {
    SkippingIsNotHeavier(vm);
    SkippingStaysSane(vm);
    TurnIsLighter(env, AfterSkips(vm), n);
    TurnStaysSane(env, AfterSkips(vm), n);
  }

  ghost function RunFrom(env: Env, vm: Vm): (Vm, RunResult)
    requires Sane(vm)
    decreases Weigh(vm)
  {
    var s := AfterSkips(vm);
    match FirstReady(s.nodes, s.edges, ViewsOf(s))
    case None => Concluded(s)
    case Some(n) =>
      var (next, out) := Turn(env, s, n);
      NextIsLighter(env, vm, n);
      if out.Ok? then RunFrom(env, next) else (next, Raised(out))
  }

  ghost predicate Unstarted(vm: Vm) {
    && DistinctIds(vm.nodes)
    && (forall k: nat :: k >= vm.nextId ==> FreshId(k) !in vm.states && FreshId(k) !in vm.store.artifacts)
    && forall n, k: nat :: n in vm.nodes && k >= vm.nextId ==> n.id != FreshId(k)
  }

  lemma PreparedIsSane(vm: Vm)
    requires Unstarted(vm)
    ensures Sane(Prepared(vm))
  {}

  // ----- the executor -----

  class Executor {
    const storage: InMemoryStorage
    const scheduler: Scheduler
    const env: Env

    constructor (storage: InMemoryStorage, env: Env)
      ensures this.storage == storage && this.env == env && scheduler.storage == storage
    {
      this.storage, this.env := storage, env;
      this.scheduler := new Scheduler(storage);
    }

    method EnsureNodeStates()
      modifies storage`runNodeStates
      ensures storage.runNodeStates == Prepared(old(storage.Snapshot())).states
    {
      var existing := storage.runNodeStates;
      for i := 0 to |storage.nodes|
        invariant storage.runNodeStates == WithFreshStates(existing, storage.nodes[..i])
      {
        assert storage.nodes[..i + 1][..i] == storage.nodes[..i];
        if storage.nodes[i].id !in existing {
          storage.PutRunNodeState(storage.nodes[i].id, FRESH_STATE);
        }
      }
      assert storage.nodes[..|storage.nodes|] == storage.nodes;
    }

    /** Gather the inputs edge by edge. */
    method GatherInputs(n: Node) returns (out: Outcome<Gathered>)
      ensures out == Gather(env, storage.nodes, storage.taskEdges, ViewsOf(storage.Snapshot()), n)
    {
      var views := ViewsOf(storage.Snapshot());
      var acc := Gathered([], []);
      for i := 0 to |storage.taskEdges|
        invariant Gather(env, storage.nodes, storage.taskEdges, views, n)
               == GatherFrom(env, storage.nodes, storage.taskEdges[i..], views, n, acc)
      {
        var e := storage.taskEdges[i];
        assert storage.taskEdges[i..][0] == e && storage.taskEdges[i..][1..] == storage.taskEdges[i + 1..];
        if e.to == n.id {
          var step := GatherEdge(env, storage.nodes, views, e, acc);
          if !step.Ok? {
            return step;
          }
          acc := step.value;
        }
      }
      out := Ok(acc);
    }

    method Begin(n: Node)
      requires n.id in storage.runNodeStates
      modifies storage
      ensures storage.Snapshot() == Started(old(storage.Snapshot()), n)
    {
      storage.programCounter := Some(n.id);
      storage.PersistCheckpoint();
      var st := storage.runNodeStates[n.id];
      storage.PutRunNodeState(n.id, st.(status := Running, attempts := st.attempts + 1));
    }

    method StoreArtifact(a: Artifact)
      requires a.id == FreshId(storage.nextId)
      modifies storage
      ensures storage.Snapshot() == Stored(old(storage.Snapshot()), a)
    {
      var _ := storage.NewId();
      storage.PersistArtifact(a);
    }

    /** `_invoke`, with the artifacts and the graph growth it causes. */
    method InvokeNode(n: Node, direct: seq<Input>) returns (out: Outcome<Value>)
      requires n.id in storage.runNodeStates
      modifies storage
      ensures (storage.Snapshot(), out) == Invoked(env, old(storage.Snapshot()), n, direct)
      ensures n.id in storage.runNodeStates
    {
      if n.body.kind.Expand? {
        if n.body.expansion.None? {
          return Error("invalid expansion request");
        }
        var st := storage.runNodeStates[n.id];
        var created := Expansion.Expand(storage, n.body.expansion.value);
        storage.PutRunNodeState(n.id, st.(status := Expanded));
        return Ok(Value("RawText", map["text" := env.describe(created)]));
      }
      if UsesPrompt(n.body) {
        match env.prompt(n, direct)
        case Ok(text) => StoreArtifact(PromptArtifact(FreshId(storage.nextId), text));
        case Fatal(m) => return Fatal(m);
        case Retry(m) => return Retry(m);
        case Error(m) => return Error(m);
      }
      out := Invoke(env, n, direct);
    }

    /** `_execute_node` after the node has been marked running. */
    method ExecuteNode(n: Node) returns (out: Outcome<()>)
      requires n.id in storage.runNodeStates
      modifies storage
      ensures (storage.Snapshot(), out) == Attempt(env, old(storage.Snapshot()), n)
      ensures n.id in storage.runNodeStates
    {
      var gathered := GatherInputs(n);
      match gathered
      case Fatal(m) => return Fatal(m);
      case Retry(m) => return Retry(m);
      case Error(m) => return Error(m);
      case Ok(g) =>
        if AllowCache(n.body) {
          var cached := storage.FindCachedArtifact(KeyOf(n.body), g.digests);
          if cached.Some? {
            var id := FreshId(storage.nextId);
            var st := storage.runNodeStates[n.id];
            StoreArtifact(cached.value.(id := id));
            storage.PutRunNodeState(n.id,
              st.(status := if st.status.Expanded? then Expanded else Succeeded,
                  outputs := st.outputs + [id], cacheHit := true));
            return Ok(());
          }
        }
        var invoked := InvokeNode(n, g.direct);
        match invoked
        case Ok(v) =>
          var id := FreshId(storage.nextId);
          StoreArtifact(OutputArtifact(id, n, v, g.digests));
          storage.PutRunNodeState(n.id, Finished(storage.runNodeStates[n.id], id, v));
          out := Ok(());
        case Fatal(m) => out := Fatal(m);
        case Retry(m) => out := Retry(m);
        case Error(m) => out := Error(m);
    }

    method Mark(n: Node, status: NodeStatus, error: string)
      requires n.id in storage.runNodeStates
      modifies storage`runNodeStates
      ensures storage.Snapshot() == Marked(old(storage.Snapshot()), n, status, error)
    {
      storage.PutRunNodeState(n.id, storage.runNodeStates[n.id].(status := status, lastError := Some(error)));
    }

    /** One turn of the loop: checkpoint, execute, then checkpoint again or
        record the exception. */
    method TakeTurn(n: Node) returns (out: Outcome<()>)
      requires n.id in storage.runNodeStates
      modifies storage
      ensures (storage.Snapshot(), out) == Turn(env, old(storage.Snapshot()), n)
    {
      Begin(n);
      out := ExecuteNode(n);
      match out
      case Ok(_) => storage.PersistCheckpoint();
      case Fatal(m) => Mark(n, Failed, "fatal");
      case Retry(m) => Mark(n, Retryable, m);
      case Error(m) =>
        Mark(n, Failed, m);
        storage.runStatus := RunFailed;
    }

    /** `execute`: it ends on every graph, with the state and the result of
        `RunFrom`. */
    method Execute() returns (result: RunResult)
      requires Unstarted(storage.Snapshot()) && scheduler.storage == storage
      modifies storage
      ensures Sane(Prepared(old(storage.Snapshot())))
      ensures (storage.Snapshot(), result) == RunFrom(env, Prepared(old(storage.Snapshot())))
    {
      hide Turn, LeastSkip, SkipStates;
      ghost var initial := Prepared(storage.Snapshot());
      PreparedIsSane(storage.Snapshot());
      EnsureNodeStates();
      storage.runStatus := RunRunning;
      while true
        invariant Sane(storage.Snapshot())
        invariant RunFrom(env, initial) == RunFrom(env, storage.Snapshot())
        decreases Weigh(storage.Snapshot())
      {
        ghost var before := storage.Snapshot();
        SkippingIsNotHeavier(before);
        SkippingStaysSane(before);
        var node := scheduler.NextNode();
        ghost var s := storage.Snapshot();
        if node.None? {
          var done := scheduler.TerminalSucceeded();
          if done || !AnyPending(storage.runNodeStates) {
            storage.runStatus := RunSucceeded;
            return Returned;
          }
          storage.runStatus := RunFailed;
          return Stalled;
        }
        var n := node.value;
        TurnIsLighter(env, s, n);
        TurnStaysSane(env, s, n);
        var out := TakeTurn(n);
        if !out.Ok? {
          return Raised(out);
        }
      }
    }
  }
}
