/** What one turn of the executor does to the run, node kind by node kind, said on
    the stored states and artifacts and on the foreign code alone. */
module Turns {
  import opened TaskGraphs
  import opened ArtifactCache
  import opened RunStates
  import opened Schedulers
  import opened Transforms
  import opened Expansion
  import opened Execution
  import opened Termination
  import opened Executors
  import opened Reachability
  import opened Pruning
  import opened Denotation

  /** What the node gathers once it is marked running. */
  function GatheredBy(env: Env, q: Vm, n: Node): Outcome<Gathered>
    requires n.id in q.states
  {
    var start := Started(q, n);
    Gather(env, start.nodes, start.edges, ViewsOf(start), n)
  }

  // ----- statuses, run status and checkpoints -----

  ghost predicate Logs(vm: Vm, c: Checkpoint, counter: Id) {
    && c.counter == Some(counter)
    && (forall id :: id in c.completed <==> id in vm.states && vm.states[id].status == Succeeded)
    && (forall id :: id in c.failed <==> id in vm.states && vm.states[id].status == Failed)
  }

  lemma AttemptKeepsRecords(env: Env, vm: Vm, n: Node)
    requires n.id in vm.states
    ensures var t := Attempt(env, vm, n).0;
      t.checkpoints == vm.checkpoints && t.status == vm.status && t.counter == vm.counter
  {
    hide Gather, Handle, Find, AddNodes;
    match Gather(env, vm.nodes, vm.edges, ViewsOf(vm), n)
    case Ok(g) =>
      if n.body.kind.Expand? && n.body.expansion.Some? {
        AddNodesFrame(vm, n.body.expansion.value.nodes);
      }
    case _ =>
  }

  lemma StartedRecords(q: Vm, n: Node)
    requires n.id in q.states
    ensures var start := Started(q, n);
      && |start.checkpoints| == |q.checkpoints| + 1 && start.checkpoints[..|q.checkpoints|] == q.checkpoints
      && Logs(q, start.checkpoints[|q.checkpoints|], n.id)
      && start.counter == Some(n.id) && start.status == q.status
      && start.nodes == q.nodes && start.edges == q.edges && start.store == q.store && start.nextId == q.nextId
      && start.states == q.states[n.id := q.states[n.id].(status := Running, attempts := q.states[n.id].attempts + 1)]
  {}

  lemma TurnAsAttempt(env: Env, q: Vm, n: Node)
    requires n.id in q.states
    ensures var (mid, result) := Attempt(env, Started(q, n), n);
      var (t, out) := Turn(env, q, n);
      && out == result && n.id in mid.states && n.id in t.states
      && (out.Ok? ==> t == Checkpointed(mid))
      && (out.Fatal? ==> t == Marked(mid, n, Failed, "fatal"))
      && (out.Retry? ==> t == Marked(mid, n, Retryable, out.message))
      && (out.Error? ==> t == Marked(mid, n, Failed, out.message).(status := RunFailed))
  {
    hide Attempt, WithStatus;
    AttemptKeepsNode(env, Started(q, n), n);
  }

  /** The statuses and the message each ending leaves, the run's status, and the
      program counter. */
  lemma ExceptionsExactly(env: Env, q: Vm, n: Node)
    requires n.id in q.states
    ensures var (t, out) := Turn(env, q, n);
      && n.id in t.states && t.counter == Some(n.id)
      && (out.Fatal? ==> t.states[n.id].status == Failed && t.states[n.id].lastError == Some("fatal")
                         && t.status == q.status)
      && (out.Retry? ==> t.states[n.id].status == Retryable && t.states[n.id].lastError == Some(out.message)
                         && t.status == q.status)
      && (out.Error? ==> t.states[n.id].status == Failed && t.states[n.id].lastError == Some(out.message)
                         && t.status == RunFailed)
      && (out.Ok? ==> t.status == q.status)
  {
    hide Attempt, Started, WithStatus;
    TurnAsAttempt(env, q, n);
    StartedRecords(q, n);
    AttemptKeepsRecords(env, Started(q, n), n);
  }

  /** One checkpoint before the execution; a second one after it, of the state it
      leaves, exactly when nothing was raised. */
  lemma CheckpointsExactly(env: Env, q: Vm, n: Node)
    requires n.id in q.states
    ensures var (t, out) := Turn(env, q, n);
      && |t.checkpoints| == |q.checkpoints| + (if out.Ok? then 2 else 1)
      && t.checkpoints[..|q.checkpoints|] == q.checkpoints
      && Logs(q, t.checkpoints[|q.checkpoints|], n.id)
      && (out.Ok? ==> Logs(t, t.checkpoints[|q.checkpoints| + 1], n.id))
  {
    hide Attempt, Started;
    TurnAsAttempt(env, q, n);
    StartedRecords(q, n);
    AttemptKeepsRecords(env, Started(q, n), n);
  }

  // ----- what a successful turn stores -----

  ghost predicate Runnable(q: Vm, n: Node) {
    n.id in q.states && Clean(q.states[n.id]) && q.states[n.id].status == Pending && Ahead(q)
  }

  /** The preferred port: the first one directed out, or "output". */
  ghost predicate OutPort(ports: seq<Port>, port: string) {
    || (exists k :: 0 <= k < |ports| && ports[k].direction == "output" && ports[k].name == port
          && forall j :: 0 <= j < k ==> ports[j].direction != "output")
    || (port == "output" && forall k :: 0 <= k < |ports| ==> ports[k].direction != "output")
  }

  lemma OutPortLater(ports: seq<Port>, port: string)
    requires ports != [] && ports[0].direction != "output" && OutPort(ports[1..], port)
    ensures OutPort(ports, port)
  {
    var rest := ports[1..];
    assert forall j :: 0 < j < |ports| ==> ports[j] == rest[j - 1];
    if exists k :: 0 <= k < |rest| && rest[k].direction == "output" {
      var k :| 0 <= k < |rest| && rest[k].direction == "output" && rest[k].name == port
        && forall j :: (0 <= j < k ==> rest[j].direction != "output");
      assert ports[k + 1].direction == "output" && ports[k + 1].name == port;
    }
  }

  lemma {:induction false} OutPortIsFirst(ports: seq<Port>)
    ensures OutPort(ports, OutputPortName(ports))
  {
    if ports != [] && ports[0].direction != "output" {
      OutPortIsFirst(ports[1..]);
      OutPortLater(ports, OutputPortName(ports));
    }
  }

  /** The node's one output after an uncached success with v: what it holds, where,
      how it may be found again, and the marks on the state. */
  ghost predicate Recorded(q: Vm, t: Vm, n: Node, v: Value, digests: seq<int>) {
    && n.id in q.states && n.id in t.states && |t.states[n.id].outputs| == 1
    && var st := t.states[n.id];
    && st.status == Succeeded && st.attempts == q.states[n.id].attempts + 1
    && (st.notFound <==> v.schema == "NotFound")
    && (v.schema == "RoutingDecision" && "selected_branch" in v.content ==>
          st.selectedBranch == Some(v.content["selected_branch"]))
    && (!(v.schema == "RoutingDecision" && "selected_branch" in v.content) ==> st.selectedBranch == None)
    && st.outputs[0] in t.store.artifacts && st.outputs[0] !in q.store.artifacts
    && var a := t.store.artifacts[st.outputs[0]];
    && a.content == v.content && OutPort(n.body.ports, a.port) && a.supersededBy == None
    && a.cacheKey == Some(CacheKey(n.body.kind, n.body.name, n.body.execution, n.body.allowCache))
    && a.inputs == Some(digests)
  }

  lemma ProducedRecords(q: Vm, mid: Vm, n: Node, v: Value, digests: seq<int>)
    requires n.id in q.states && n.id in mid.states && Clean(mid.states[n.id]) && mid.states[n.id].status == Running
    requires mid.states[n.id].attempts == q.states[n.id].attempts + 1
    requires FreshId(mid.nextId) !in q.store.artifacts
    ensures Recorded(q, Produced(mid, n, v, digests), n, v, digests)
  {
    OutPortIsFirst(n.body.ports);
  }

  lemma RecordedLater(q: Vm, mid: Vm, t: Vm, n: Node, v: Value, digests: seq<int>)
    requires Recorded(q, mid, n, v, digests) && t.states == mid.states && t.store == mid.store
    ensures Recorded(q, t, n, v, digests)
  {}

  /** An uncached success of a node that does not grow the graph records what its
      handling returned. */
  lemma SuccessIsRecorded(env: Env, q: Vm, n: Node, g: Gathered)
    requires Runnable(q, n) && !n.body.kind.Expand? && GatheredBy(env, q, n) == Ok(g)
    requires var (t, out) := Turn(env, q, n); n.id in t.states && out.Ok? && !t.states[n.id].cacheHit
    ensures Handle(env, n, g.direct).Ok?
    ensures Recorded(q, Turn(env, q, n).0, n, Handle(env, n, g.direct).value, g.digests)
  {
    hide Gather, Handle, Recorded, Produced, Prompted, Find, Checkpointed;
    var start := Started(q, n);
    TurnAsAttempt(env, q, n);
    var cached := Find(start.store, KeyOf(n.body), g.digests);
    if AllowCache(n.body) && cached.Some? {
      ReusedIsHit(start, n, cached.value);
      CheckpointKeepsAll(Reused(start, n, cached.value));
    } else {
      var mid := Prompted(env, start, n, g.direct);
      PromptedKeepsStates(env, start, n, g.direct);
      PromptedIsLater(env, start, n, g.direct);
      StartedRecords(q, n);
      AheadIsFresh(q, mid.nextId);
      var after := Produced(mid, n, Handle(env, n, g.direct).value, g.digests);
      ProducedRecords(q, mid, n, Handle(env, n, g.direct).value, g.digests);
      CheckpointKeepsAll(after);
      RecordedLater(q, after, Turn(env, q, n).0, n, Handle(env, n, g.direct).value, g.digests);
    }
  }

  lemma ReusedIsHit(vm: Vm, n: Node, cached: Artifact)
    requires n.id in vm.states
    ensures n.id in Reused(vm, n, cached).states && Reused(vm, n, cached).states[n.id].cacheHit
  {}

  lemma CheckpointKeepsAll(vm: Vm)
    ensures var t := Checkpointed(vm);
      && t.nodes == vm.nodes && t.edges == vm.edges && t.states == vm.states
      && t.store == vm.store && t.nextId == vm.nextId
  {}

  lemma AheadIsFresh(vm: Vm, k: nat)
    requires Ahead(vm) && k >= vm.nextId
    ensures FreshId(k) !in vm.store.artifacts
  {}

  lemma PromptedIsLater(env: Env, vm: Vm, n: Node, direct: seq<Input>)
    ensures Prompted(env, vm, n, direct).nextId >= vm.nextId
  {}

  // ----- routers -----

  function Setting(n: Node, key: string, default: string): string {
    if key in n.body.execution then n.body.execution[key] else default
  }

  ghost predicate Deterministic(n: Node) {
    n.body.kind == Router && "mode" in n.body.execution && n.body.execution["mode"] == "deterministic"
  }

  /** The branch of a deterministic router: the first gathered input decides. */
  function Decided(n: Node, direct: seq<Input>): string {
    if direct != [] && direct[0].value.schema == "NotFound" then Setting(n, "not_found_branch", "missing")
    else Setting(n, "default_branch", "found")
  }

  lemma DeterministicRouterDecides(env: Env, q: Vm, n: Node, g: Gathered)
    requires Runnable(q, n) && Deterministic(n) && GatheredBy(env, q, n) == Ok(g)
    requires var (t, out) := Turn(env, q, n); n.id in t.states && out.Ok? && !t.states[n.id].cacheHit
    ensures var st := Turn(env, q, n).0.states[n.id];
      && st.status == Succeeded
      && (g.direct != [] && g.direct[0].value.schema == "NotFound" ==>
            st.selectedBranch == Some(Setting(n, "not_found_branch", "missing")))
      && (g.direct == [] || g.direct[0].value.schema != "NotFound" ==>
            st.selectedBranch == Some(Setting(n, "default_branch", "found")))
  {
    hide Turn, GatheredBy;
    SuccessIsRecorded(env, q, n, g);
  }

  /** A model-assisted router records what the model answered. */
  lemma ModelRouterDecides(env: Env, q: Vm, n: Node, g: Gathered)
    requires Runnable(q, n) && n.body.kind == Router && !Deterministic(n) && GatheredBy(env, q, n) == Ok(g)
    requires var (t, out) := Turn(env, q, n); n.id in t.states && out.Ok? && !t.states[n.id].cacheHit
    ensures env.route(n, g.direct).Ok?
    ensures var st := Turn(env, q, n).0.states[n.id];
      st.status == Succeeded && st.selectedBranch == Some(env.route(n, g.direct).value)
  {
    hide Turn, GatheredBy;
    SuccessIsRecorded(env, q, n, g);
  }

  /** Over a whole run: once a deterministic router has run uncached, no target of
      an edge labelled otherwise than its first input decides is ever chosen. */
  lemma DeterministicRouterPrunes(env: Env, tr: seq<Vm>, ns: seq<Node>, i: nat, g: Gathered, e: Edge<Id>, k: nat,
                                  m: Node)
    requires IsRun(env, tr, ns) && ExpandFree(tr[0].nodes) && i < |ns| && Deterministic(ns[i])
    requires ns[i].id in AfterSkips(tr[i]).states && GatheredBy(env, AfterSkips(tr[i]), ns[i]) == Ok(g)
    requires i + 1 < |tr| && ns[i].id in tr[i + 1].states && !tr[i + 1].states[ns[i].id].cacheHit
    requires e in tr[0].edges && e.from == ns[i].id && "branch" in e.metadata
    requires e.metadata["branch"] != Decided(ns[i], g.direct)
    requires k < |tr| && Chosen(tr[k], m)
    ensures m.id != e.to
  {
    hide IsRun, Turn, GatheredBy, Decided, Chosen, Unselected;
    RouterIsUnselected(env, tr, ns, i, g, e);
    RunSize(env, tr, ns);
    UnselectedNeverRuns(env, tr, ns, e, i + 1, k, m);
  }

  lemma RunSize(env: Env, tr: seq<Vm>, ns: seq<Node>)
    requires IsRun(env, tr, ns)
    ensures |tr| == |ns| + 1
  {}

  lemma RouterIsUnselected(env: Env, tr: seq<Vm>, ns: seq<Node>, i: nat, g: Gathered, e: Edge<Id>)
    requires IsRun(env, tr, ns) && ExpandFree(tr[0].nodes) && i < |ns| && Deterministic(ns[i])
    requires ns[i].id in AfterSkips(tr[i]).states && GatheredBy(env, AfterSkips(tr[i]), ns[i]) == Ok(g)
    requires i + 1 < |tr| && ns[i].id in tr[i + 1].states && !tr[i + 1].states[ns[i].id].cacheHit
    requires e in tr[0].edges && e.from == ns[i].id && "branch" in e.metadata
    requires e.metadata["branch"] != Decided(ns[i], g.direct)
    ensures Unselected(tr[i + 1], e)
  {
    hide IsRun, Turn, GatheredBy, Runnable, Decided, Chosen, Unselected, AfterSkips, Deterministic, Consistent;
    StepIsTurn(env, tr, ns, i);
    ChosenIsRunnable(env, tr, ns, i, ns[i]);
    DecidedIsRecorded(env, AfterSkips(tr[i]), ns[i], g);
    GraphIsFixed(env, tr, ns, i);
    GraphIsFixed(env, tr, ns, i + 1);
    RunIsConsistent(env, tr, ns, i + 1);
    ConsistentIsDistinct(tr[i + 1]);
    DeterministicIsRouter(ns[i]);
    DecidedIsUnselected(tr[i + 1], ns[i], e, Decided(ns[i], g.direct));
  }

  lemma ConsistentIsDistinct(vm: Vm)
    requires Consistent(vm)
    ensures DistinctIds(vm.nodes)
  {}

  lemma DeterministicIsRouter(n: Node)
    requires Deterministic(n)
    ensures n.body.kind == Router
  {}

  lemma DecidedIsRecorded(env: Env, q: Vm, n: Node, g: Gathered)
    requires Runnable(q, n) && Deterministic(n) && GatheredBy(env, q, n) == Ok(g)
    requires var (t, out) := Turn(env, q, n); n.id in t.states && out.Ok? && !t.states[n.id].cacheHit
    ensures var st := Turn(env, q, n).0.states[n.id];
      st.status == Succeeded && st.selectedBranch == Some(Decided(n, g.direct))
  {
    hide Turn, GatheredBy, Runnable;
    DeterministicRouterDecides(env, q, n, g);
  }

  lemma StepIsTurn(env: Env, tr: seq<Vm>, ns: seq<Node>, i: nat)
    requires IsRun(env, tr, ns) && i < |ns|
    ensures |tr| == |ns| + 1 && Chosen(tr[i], ns[i]) && ns[i].id in AfterSkips(tr[i]).states
    ensures Turn(env, AfterSkips(tr[i]), ns[i]).1.Ok? && tr[i + 1] == Turn(env, AfterSkips(tr[i]), ns[i]).0
  {
    hide Turn, Chosen;
    assert Step(env, tr[i], ns[i], tr[i + 1]);
    ChosenIsPending(tr[i], ns[i]);
  }

  /** In every reachable state a chosen node is pending, clean, and the generator
      is ahead of everything stored. */
  lemma ChosenIsRunnable(env: Env, tr: seq<Vm>, ns: seq<Node>, i: nat, n: Node)
    requires IsRun(env, tr, ns) && i < |tr| && Chosen(tr[i], n)
    ensures Runnable(AfterSkips(tr[i]), n) && n in tr[i].nodes
  {
    hide IsRun, Chosen;
    RunIsConsistent(env, tr, ns, i);
    SkipsAreConsistent(tr[i]);
    ChosenIsPending(tr[i], n);
    ChosenIsNode(tr[i], n);
    PendingIsRunnable(AfterSkips(tr[i]), n);
  }

  lemma PendingIsRunnable(q: Vm, n: Node)
    requires Consistent(q) && n.id in q.states && q.states[n.id].status == Pending
    ensures Runnable(q, n)
  {
    assert GoodState(q, q.states[n.id]);
  }

  lemma DecidedIsUnselected(vm: Vm, n: Node, e: Edge<Id>, branch: string)
    requires DistinctIds(vm.nodes) && n in vm.nodes && n.body.kind == Router && n.id in vm.states
    requires vm.states[n.id].status == Succeeded && vm.states[n.id].selectedBranch == Some(branch)
    requires e in vm.edges && e.from == n.id && "branch" in e.metadata && e.metadata["branch"] != branch
    ensures Unselected(vm, e)
  {
    LookupDistinct(vm.nodes, n);
  }

  // ----- final nodes -----

  ghost predicate Says(content: Content, text: string, source: Option<string>) {
    && content.Keys == (if source.Some? then {"text", "sources"} else {"text"})
    && content["text"] == text && (source.Some? ==> content["sources"] == source.value)
  }

  /** The answer: an input that is one already, a not-found input's detail, or the
      input's text (its serialised content if it has none) with its source. */
  ghost predicate Answers(env: Env, direct: seq<Input>, content: Content) {
    if direct == [] then Says(content, "", None)
    else
      var v := direct[0].value;
      if v.schema == "FinalAnswer" then content == v.content
      else if v.schema == "NotFound" && "detail" in v.content then Says(content, v.content["detail"], None)
      else
        Says(content, if "text" in v.content then v.content["text"] else env.dump(v.content),
             if "source_id" in v.content && v.content["source_id"] != "" then Some(v.content["source_id"]) else None)
  }

  lemma FinalAnswersExactly(env: Env, q: Vm, n: Node, g: Gathered)
    requires Runnable(q, n) && n.body.kind == Final && GatheredBy(env, q, n) == Ok(g)
    requires var (t, out) := Turn(env, q, n); n.id in t.states && out.Ok? && !t.states[n.id].cacheHit
    ensures var t := Turn(env, q, n).0;
      && |t.states[n.id].outputs| == 1 && t.states[n.id].outputs[0] in t.store.artifacts
      && Answers(env, g.direct, t.store.artifacts[t.states[n.id].outputs[0]].content)
  {
    hide Turn, GatheredBy, Recorded;
    SuccessIsRecorded(env, q, n, g);
    FinalValue(env, n, g.direct);
    RecordedContent(q, Turn(env, q, n).0, n, Handle(env, n, g.direct).value, g.digests);
  }

  lemma FinalValue(env: Env, n: Node, direct: seq<Input>)
    requires n.body.kind == Final
    ensures Handle(env, n, direct).Ok? && Answers(env, direct, Handle(env, n, direct).value.content)
  {}

  lemma RecordedContent(q: Vm, t: Vm, n: Node, v: Value, digests: seq<int>)
    requires n.id in q.states && Recorded(q, t, n, v, digests)
    ensures |t.states[n.id].outputs| == 1 && t.states[n.id].outputs[0] in t.store.artifacts
    ensures t.store.artifacts[t.states[n.id].outputs[0]].content == v.content
  {}

  // ----- every other kind, and how a turn goes wrong -----

  /** The decision naming the branch, and nothing else. */
  ghost predicate Decides(v: Value, branch: string) {
    v.schema == "RoutingDecision" && v.content.Keys == {"selected_branch"} && v.content["selected_branch"] == branch
  }

  /** What handling a node that does not grow the graph may come to, kind by kind. */
  ghost predicate HandledBy(env: Env, n: Node, direct: seq<Input>, out: Outcome<Value>) {
    match n.body.kind
    case Intent => out == env.handler(n, direct)
    case Tool => if direct == [] then out.Error? else out == env.handler(n, direct)
    case Model => PromptedFirst(env, n, direct, out)
    case Compress => PromptedFirst(env, n, direct, out)
    case Final => out.Ok? && out.value.schema == "FinalAnswer" && Answers(env, direct, out.value.content)
    case Router =>
      if Deterministic(n) then out.Ok? && Decides(out.value, Decided(n, direct))
      else if env.route(n, direct).Ok? then out.Ok? && Decides(out.value, env.route(n, direct).value)
      else SameException(env.route(n, direct), out)
    case _ => out.Error?
  }

  ghost predicate PromptedFirst(env: Env, n: Node, direct: seq<Input>, out: Outcome<Value>) {
    if env.prompt(n, direct).Ok? then out == env.handler(n, direct) else SameException(env.prompt(n, direct), out)
  }

  lemma RouterHandled(env: Env, n: Node, direct: seq<Input>)
    requires n.body.kind == Router
    ensures HandledBy(env, n, direct, Handle(env, n, direct))
  {}

  lemma HandlingExactly(env: Env, n: Node, direct: seq<Input>)
    requires n.body.kind != Expand
    ensures HandledBy(env, n, direct, Handle(env, n, direct))
  {
    if n.body.kind == Router {
      RouterHandled(env, n, direct);
    } else if n.body.kind == Final {
      hide Answers;
      FinalValue(env, n, direct);
    }
  }

  /** The node may be looked up (tools unless told not to, others only if told to)
      and its key and inputs are in the cache. */
  ghost predicate Served(q: Vm, n: Node, g: Gathered) {
    && (n.body.allowCache == Some(true) || (n.body.allowCache == None && n.body.kind == Tool))
    && Find(q.store, CacheKey(n.body.kind, n.body.name, n.body.execution, n.body.allowCache), g.digests).Some?
  }

  function ServedWith(q: Vm, n: Node, g: Gathered): Artifact
    requires Served(q, n, g)
  {
    Find(q.store, CacheKey(n.body.kind, n.body.name, n.body.execution, n.body.allowCache), g.digests).value
  }

  /** A hit: one output, a copy of the cached artifact under a new identifier, and
      no mark but that it was a hit. */
  ghost predicate Copied(q: Vm, t: Vm, n: Node, cached: Artifact) {
    && n.id in q.states && n.id in t.states && |t.states[n.id].outputs| == 1
    && var st := t.states[n.id];
    && st.status == Succeeded && st.attempts == q.states[n.id].attempts + 1 && st.cacheHit
    && !st.notFound && st.selectedBranch == None
    && st.outputs[0] in t.store.artifacts && st.outputs[0] !in q.store.artifacts
    && t.store.artifacts[st.outputs[0]] == cached.(id := st.outputs[0])
  }

  lemma ReusedCopies(q: Vm, n: Node, cached: Artifact)
    requires Runnable(q, n)
    ensures n.id in Started(q, n).states && Copied(q, Reused(Started(q, n), n, cached), n, cached)
  {
    hide WithStatus;
  }

  lemma CopiedLater(q: Vm, mid: Vm, t: Vm, n: Node, cached: Artifact)
    requires Copied(q, mid, n, cached) && t.states == mid.states && t.store == mid.store
    ensures Copied(q, t, n, cached)
  {}

  lemma ServedTurn(env: Env, q: Vm, n: Node, g: Gathered)
    requires Runnable(q, n) && GatheredBy(env, q, n) == Ok(g) && Served(q, n, g)
    ensures var (t, out) := Turn(env, q, n); out.Ok? && Copied(q, t, n, ServedWith(q, n, g))
  {
    hide Gather, Find, Copied, Reused, Checkpointed;
    var start := Started(q, n);
    StartedRecords(q, n);
    TurnAsAttempt(env, q, n);
    ReusedCopies(q, n, ServedWith(q, n, g));
    CheckpointKeepsAll(Reused(start, n, ServedWith(q, n, g)));
    CopiedLater(q, Reused(start, n, ServedWith(q, n, g)), Turn(env, q, n).0, n, ServedWith(q, n, g));
  }

  lemma UnservedTurn(env: Env, q: Vm, n: Node, g: Gathered)
    requires Runnable(q, n) && n.body.kind != Expand && GatheredBy(env, q, n) == Ok(g) && !Served(q, n, g)
    ensures var (t, out) := Turn(env, q, n);
      && n.id in t.states && !t.states[n.id].cacheHit
      && (out.Ok? <==> Handle(env, n, g.direct).Ok?)
      && (!out.Ok? ==> SameException(Handle(env, n, g.direct), out))
  {
    hide Gather, Find, Handle, Prompted, Checkpointed;
    var start := Started(q, n);
    StartedRecords(q, n);
    TurnAsAttempt(env, q, n);
    var mid := Prompted(env, start, n, g.direct);
    PromptedKeepsStates(env, start, n, g.direct);
    if Handle(env, n, g.direct).Ok? {
      CheckpointKeepsAll(Produced(mid, n, Handle(env, n, g.direct).value, g.digests));
    }
  }

  /** The whole turn of a node that does not grow the graph: gathering raised, or
      the cache served it, or its handling raised, or its handling is recorded. */
  lemma TurnExactly(env: Env, q: Vm, n: Node)
    requires Runnable(q, n) && n.body.kind != Expand
    ensures var (t, out) := Turn(env, q, n);
      var gathered := GatheredBy(env, q, n);
      && n.id in t.states
      && (!gathered.Ok? ==> SameException(gathered, out))
      && (gathered.Ok? && Served(q, n, gathered.value) ==>
            out.Ok? && Copied(q, t, n, ServedWith(q, n, gathered.value)))
      && (gathered.Ok? && !Served(q, n, gathered.value) ==>
            exists x :: HandledBy(env, n, gathered.value.direct, x)
              && (x.Ok? <==> out.Ok?) && (!x.Ok? ==> SameException(x, out))
              && (x.Ok? ==> Recorded(q, t, n, x.value, gathered.value.digests) && !t.states[n.id].cacheHit))
  {
    hide Turn, GatheredBy, HandledBy, Handle, Recorded, Copied, Served;
    var gathered := GatheredBy(env, q, n);
    TurnKeepsNode(env, q, n);
    if !gathered.Ok? {
      UngatheredTurn(env, q, n);
    } else if Served(q, n, gathered.value) {
      ServedTurn(env, q, n, gathered.value);
    } else {
      var x := Handle(env, n, gathered.value.direct);
      HandlingExactly(env, n, gathered.value.direct);
      UnservedTurn(env, q, n, gathered.value);
      if x.Ok? {
        SuccessIsRecorded(env, q, n, gathered.value);
      }
    }
  }

  lemma TurnKeepsNode(env: Env, q: Vm, n: Node)
    requires n.id in q.states
    ensures n.id in Turn(env, q, n).0.states
  {
    hide Attempt;
    TurnAsAttempt(env, q, n);
  }

  lemma UngatheredTurn(env: Env, q: Vm, n: Node)
    requires n.id in q.states && !GatheredBy(env, q, n).Ok?
    ensures SameException(GatheredBy(env, q, n), Turn(env, q, n).1)
  {
    hide Gather;
    TurnAsAttempt(env, q, n);
  }

  /** A model or compress node that is not served stores its prompt before the
      provider is asked, whatever comes of it; no lookup ever finds it. */
  lemma PromptIsStored(env: Env, q: Vm, n: Node, g: Gathered) returns (id: Id)
    requires Runnable(q, n) && (n.body.kind == Model || n.body.kind == Compress)
    requires GatheredBy(env, q, n) == Ok(g) && !Served(q, n, g) && env.prompt(n, g.direct).Ok?
    ensures id !in q.store.artifacts && id in Turn(env, q, n).0.store.artifacts
    ensures var a := Turn(env, q, n).0.store.artifacts[id];
      && a.port == "prompt" && a.content == map["text" := env.prompt(n, g.direct).value]
      && a.cacheKey == None && a.inputs == None
  {
    hide Gather, Find, Handle, Checkpointed;
    var start := Started(q, n);
    StartedRecords(q, n);
    TurnAsAttempt(env, q, n);
    id := FreshId(q.nextId);
    var mid := Prompted(env, start, n, g.direct);
    AheadIsFresh(q, q.nextId);
    PromptOfMid(env, start, n, g.direct);
    if Handle(env, n, g.direct).Ok? {
      CheckpointKeepsAll(Produced(mid, n, Handle(env, n, g.direct).value, g.digests));
    }
  }

  lemma PromptOfMid(env: Env, vm: Vm, n: Node, direct: seq<Input>)
    requires (n.body.kind == Model || n.body.kind == Compress) && env.prompt(n, direct).Ok?
    ensures var mid := Prompted(env, vm, n, direct);
      && mid.nextId == vm.nextId + 1 && mid.states == vm.states && FreshId(vm.nextId) in mid.store.artifacts
      && var a := mid.store.artifacts[FreshId(vm.nextId)];
      && a.port == "prompt" && a.content == map["text" := env.prompt(n, direct).value]
      && a.cacheKey == None && a.inputs == None
  {}

  // ----- how the executor stops -----

  /** With nothing chosen, the run has succeeded if a final node has, or if nothing
      is pending; only then does the executor return, and otherwise it stalls. A
      raising turn decides the run's status itself. */
  lemma StopsExactly(env: Env, last: Vm, outcome: (Vm, RunResult))
    requires Ends(env, last, outcome)
    ensures var s := AfterSkips(last);
      var done :=
        (exists n :: n in s.nodes && n.body.kind == Final && n.id in s.states && s.states[n.id].status == Succeeded)
        || forall id :: id in s.states ==> s.states[id].status != Pending;
      && (outcome.1.Returned? ==> done && outcome.0 == s.(status := RunSucceeded))
      && (outcome.1.Stalled? ==> !done && outcome.0 == s.(status := RunFailed))
      && (outcome.1.Raised? <==> exists n :: Chosen(last, n))
  {
    hide AfterSkips, Turn;
    var s := AfterSkips(last);
    if n :| Chosen(last, n) {
      SameNodesAfter(last);
      assert FirstReady(s.nodes, s.edges, ViewsOf(s)).Some?;
    }
  }

  lemma SameNodesAfter(last: Vm)
    ensures AfterSkips(last).nodes == last.nodes && AfterSkips(last).edges == last.edges
  {}

  // ----- the beginning of a run -----

  /** A run starts marked running, with a fresh state for each node that has none;
      nothing else is touched. */
  lemma PreparedExactly(vm: Vm)
    ensures Prepared(vm) == vm.(states := Prepared(vm).states, status := RunRunning)
    ensures forall id :: id in Prepared(vm).states <==> id in vm.states || exists n :: n in vm.nodes && n.id == id
    ensures forall id :: id in Prepared(vm).states ==>
      if id in vm.states then Prepared(vm).states[id] == vm.states[id]
      else Prepared(vm).states[id] == NodeState(Pending, 0, [], false, None, false, None, None)
  {}

  /** Every turn that succeeds leaves the run's status alone. */
  lemma {:induction false} RunStatusExactly(env: Env, tr: seq<Vm>, ns: seq<Node>, i: nat)
    requires Steps(env, tr, ns) && i < |tr|
    ensures tr[i].status == tr[0].status
  {
    hide Step;
    if i > 0 {
      RunStatusExactly(env, tr, ns, i - 1);
      assert Step(env, tr[i - 1], ns[i - 1], tr[i - 1 + 1]);
      StepStatus(env, tr[i - 1], ns[i - 1], tr[i]);
    }
  }

  lemma StepStatus(env: Env, s: Vm, n: Node, t: Vm)
    requires Step(env, s, n, t)
    ensures t.status == s.status
  {
    hide Turn, Chosen;
    ChosenIsPending(s, n);
    ExceptionsExactly(env, AfterSkips(s), n);
  }
}
