/** What one turn of the executor does to a run, as functions on its state:
    gathering inputs, invoking the node, and recording the result or the
    exception. The executor class does the same step by step in the storage. */
module Execution {
  import opened TaskGraphs
  import opened ArtifactCache
  import opened RunStates
  import opened Schedulers
  import opened Transforms
  import Expansion

  /** Inputs gathered for a node: a dictionary from port to value, in insertion
      order, and the digests of the contents that were read. */
  datatype Input = Input(port: string, value: Value)
  datatype Gathered = Gathered(direct: seq<Input>, digests: seq<int>)

  /** Everything outside the runtime: schemas, hashing, serialisation, and the
      tools and models themselves, as functions of what they are given. */
  datatype Env = Env(
    registry: Registry,
    validate: (string, Content) -> Outcome<Content>,
    digest: Content -> int,
    dump: Content -> string,
    describe: seq<Id> -> string,
    prompt: (Node, seq<Input>) -> Outcome<string>,
    handler: (Node, seq<Input>) -> Outcome<Value>,
    route: (Node, seq<Input>) -> Outcome<string>)

  // ----- gathering inputs -----

  /** `direct[port] = value`. */
  function Put(direct: seq<Input>, port: string, value: Value): seq<Input> {
    if direct == [] then [Input(port, value)]
    else if direct[0].port == port then [Input(port, value)] + direct[1..]
    else [direct[0]] + Put(direct[1..], port, value)
  }

  /** The piece on the edge's port, or the first one. */
  function Pick(pieces: seq<Piece>, port: string): Content
    requires pieces != []
  {
    if exists i | 0 <= i < |pieces| :: pieces[i].port == port then PickFrom(pieces, port) else pieces[0].content
  }

  function PickFrom(pieces: seq<Piece>, port: string): Content
    requires exists i | 0 <= i < |pieces| :: pieces[i].port == port
  {
    if pieces[0].port == port then pieces[0].content else PickFrom(pieces[1..], port)
  }

  /** `if edge.transform`: the empty name is no transform. */
  function TransformOf<I>(e: Edge<I>): Option<string> {
    if e.transform == Some("") then None else e.transform
  }

  /** The schema a node's stored content is read back with. */
  function ReadSchema(nodes: seq<Node>, id: Id): string {
    match Lookup(nodes, id)
    case Some(n) => if n.body.outputSchema.Some? then n.body.outputSchema.value else "RawText"
    case None => "RawText"
  }

  function Deliver(env: Env, schema: string, e: Edge<Id>, content: Content): Outcome<Value> {
    match env.validate(schema, content)
    case Ok(fields) =>
      if TransformOf(e).Some?
      then ApplyTransform(env.registry, TransformOf(e).value, Value(schema, fields), e.metadata)
      else Ok(Value(schema, fields))
    case Fatal(m) => Fatal(m)
    case Retry(m) => Retry(m)
    case Error(m) => Error(m)
  }

  const MISSING_INPUT := "Missing required input"

  function GatherEdge(env: Env, nodes: seq<Node>, views: Views, e: Edge<Id>, acc: Gathered): Outcome<Gathered> {
    if IsRouter(nodes, e.from) then Ok(acc)
    else if e.from !in views || views[e.from].outputs == Some([]) then
      if e.required && !(e.from in views && views[e.from].status.Skipped?) then Error(MISSING_INPUT) else Ok(acc)
    else if views[e.from].outputs.None? then Error("Unknown artifact")
    else
      var content := Pick(views[e.from].outputs.value, e.fromPort);
      match Deliver(env, ReadSchema(nodes, e.from), e, content)
      case Ok(v) => Ok(Gathered(Put(acc.direct, e.toPort, v), acc.digests + [env.digest(content)]))
      case Fatal(m) => Fatal(m)
      case Retry(m) => Retry(m)
      case Error(m) => Error(m)
  }

  function GatherFrom(env: Env, nodes: seq<Node>, edges: seq<Edge<Id>>, views: Views, n: Node,
                      acc: Gathered): Outcome<Gathered> {
    if edges == [] then Ok(acc)
    else if edges[0].to != n.id then GatherFrom(env, nodes, edges[1..], views, n, acc)
    else
      var step := GatherEdge(env, nodes, views, edges[0], acc);
      if step.Ok? then GatherFrom(env, nodes, edges[1..], views, n, step.value) else step
  }

  function Gather(env: Env, nodes: seq<Node>, edges: seq<Edge<Id>>, views: Views, n: Node): Outcome<Gathered> {
    GatherFrom(env, nodes, edges, views, n, Gathered([], []))
  }

  // ----- invoking a node -----

  function Text(v: Value, dump: Content -> string): string {
    if "text" in v.content then v.content["text"] else dump(v.content)
  }

  function FinalAnswer(env: Env, direct: seq<Input>): Value {
    var input := if direct == [] then Value("RawText", map["text" := ""]) else direct[0].value;
    if input.schema == "FinalAnswer" then input
    else if input.schema == "NotFound" && "detail" in input.content
    then Value("FinalAnswer", map["text" := input.content["detail"]])
    else
      var answer := map["text" := Text(input, env.dump)];
      var source := Field(input.content, "source_id");
      Value("FinalAnswer", if source.Some? && source.value != "" then answer["sources" := source.value] else answer)
  }

  function Decision(branch: string): Value {
    Value("RoutingDecision", map["selected_branch" := branch])
  }

  function OrDefault(value: Option<string>, default: string): string {
    if value.Some? then value.value else default
  }

  function Route(env: Env, n: Node, direct: seq<Input>): Outcome<Value> {
    if Field(n.body.execution, "mode") == Some("deterministic") then
      Ok(Decision(
        if direct != [] && direct[0].value.schema == "NotFound"
        then OrDefault(Field(n.body.execution, "not_found_branch"), "missing")
        else OrDefault(Field(n.body.execution, "default_branch"), "found")))
    else
      match env.route(n, direct)
      case Ok(branch) => Ok(Decision(branch))
      case Fatal(m) => Fatal(m)
      case Retry(m) => Retry(m)
      case Error(m) => Error(m)
  }

  /** `_invoke` for every kind but expand. */
  function Invoke(env: Env, n: Node, direct: seq<Input>): Outcome<Value> {
    match n.body.kind
    case Intent => env.handler(n, direct)
    case Tool => if direct == [] then Error("Tool node has no input artifact") else env.handler(n, direct)
    case Model => env.handler(n, direct)
    case Compress => env.handler(n, direct)
    case Final => Ok(FinalAnswer(env, direct))
    case Router => Route(env, n, direct)
    case _ => Error("Unsupported node kind")
  }

  function AllowCache(body: NodeBody): bool {
    if body.allowCache.Some? then body.allowCache.value else body.kind.Tool?
  }

  function KeyOf(body: NodeBody): CacheKey {
    CacheKey(body.kind, body.name, body.execution, body.allowCache)
  }

  predicate UsesPrompt(body: NodeBody) {
    body.kind.Model? || body.kind.Compress?
  }

  // ----- one execution, as a function on the run's state -----

  function Started(vm: Vm, n: Node): Vm
    requires n.id in vm.states
  {
    var noted := Checkpointed(vm.(counter := Some(n.id)));
    var st := vm.states[n.id];
    noted.(states := vm.states[n.id := st.(status := Running, attempts := st.attempts + 1)])
  }

  /** The state a successful execution leaves behind. */
  function Finished(st: NodeState, artifact: Id, v: Value): NodeState {
    st.(status := if st.status.Expanded? then Expanded else Succeeded,
        outputs := st.outputs + [artifact],
        notFound := st.notFound || v.schema == "NotFound",
        selectedBranch := if v.schema == "RoutingDecision"
                          then Field(v.content, "selected_branch") else st.selectedBranch)
  }

  function Stored(vm: Vm, a: Artifact): Vm {
    vm.(store := Persist(vm.store, a), nextId := vm.nextId + 1)
  }

  /** A cache hit copies the artifact under a new identifier and records only
      that it was a hit. */
  function Reused(vm: Vm, n: Node, cached: Artifact): Vm
    requires n.id in vm.states
  {
    var id := FreshId(vm.nextId);
    var st := vm.states[n.id];
    Stored(vm, cached.(id := id)).(
      states := vm.states[n.id := st.(status := if st.status.Expanded? then Expanded else Succeeded,
                                      outputs := st.outputs + [id], cacheHit := true)])
  }

  function OutputArtifact(id: Id, n: Node, v: Value, digests: seq<int>): Artifact {
    Artifact(id, OutputPortName(n.body.ports), v.content, Some(KeyOf(n.body)), Some(digests), None)
  }

  function Produced(vm: Vm, n: Node, v: Value, digests: seq<int>): Vm
    requires n.id in vm.states
  {
    var id := FreshId(vm.nextId);
    Stored(vm, OutputArtifact(id, n, v, digests)).(states := vm.states[n.id := Finished(vm.states[n.id], id, v)])
  }

  function PromptArtifact(id: Id, text: string): Artifact {
    Artifact(id, "prompt", map["text" := text], None, None, None)
  }

  function ExpansionReport(env: Env, vm: Vm, request: ExpansionRequest): Value {
    Value("RawText", map["text" := env.describe(Expansion.IdsFrom(vm.nextId, |request.nodes|))])
  }

  function ExpandedBy(vm: Vm, n: Node, request: ExpansionRequest): Vm
    requires n.id in vm.states
  {
    var grown := Expansion.ApplyExpansion(vm, request);
    grown.(states := grown.states[n.id := vm.states[n.id].(status := Expanded)])
  }

  /** The value or exception of a node that does not grow the graph. Model and
      compress nodes first select their context and render their prompt. */
  function Handle(env: Env, n: Node, direct: seq<Input>): Outcome<Value> {
    if !UsesPrompt(n.body) then Invoke(env, n, direct)
    else
      match env.prompt(n, direct)
      case Ok(_) => Invoke(env, n, direct)
      case Fatal(m) => Fatal(m)
      case Retry(m) => Retry(m)
      case Error(m) => Error(m)
  }

  /** The prompt is stored before the provider is asked. */
  function Prompted(env: Env, vm: Vm, n: Node, direct: seq<Input>): Vm {
    if UsesPrompt(n.body) && env.prompt(n, direct).Ok?
    then Stored(vm, PromptArtifact(FreshId(vm.nextId), env.prompt(n, direct).value))
    else vm
  }

  /** The handler's value or exception, and the state it leaves behind. */
  function Invoked(env: Env, vm: Vm, n: Node, direct: seq<Input>): (Vm, Outcome<Value>)
    requires n.id in vm.states
  {
    if !n.body.kind.Expand? then (Prompted(env, vm, n, direct), Handle(env, n, direct))
    else if n.body.expansion.None? then (vm, Error("invalid expansion request"))
    else (ExpandedBy(vm, n, n.body.expansion.value), Ok(ExpansionReport(env, vm, n.body.expansion.value)))
  }

  /** `_execute_node` once the node is marked running. */
  function Attempt(env: Env, vm: Vm, n: Node): (Vm, Outcome<()>)
    requires n.id in vm.states
  {
    match Gather(env, vm.nodes, vm.edges, ViewsOf(vm), n)
    case Fatal(m) => (vm, Fatal(m))
    case Retry(m) => (vm, Retry(m))
    case Error(m) => (vm, Error(m))
    case Ok(g) =>
      if AllowCache(n.body) && Find(vm.store, KeyOf(n.body), g.digests).Some? then
        (Reused(vm, n, Find(vm.store, KeyOf(n.body), g.digests).value), Ok(()))
      else
        var (after, out) := Invoked(env, vm, n, g.direct);
        match out
        case Ok(v) => (Produced(after, n, v, g.digests), Ok(()))
        case Fatal(m) => (after, Fatal(m))
        case Retry(m) => (after, Retry(m))
        case Error(m) => (after, Error(m))
  }

  function Marked(vm: Vm, n: Node, status: NodeStatus, error: string): Vm
    requires n.id in vm.states
  {
    vm.(states := vm.states[n.id := vm.states[n.id].(status := status, lastError := Some(error))])
  }

  lemma AttemptKeepsNode(env: Env, vm: Vm, n: Node)
    requires n.id in vm.states
    ensures n.id in Attempt(env, vm, n).0.states
  {}

  /** One turn of the loop for the chosen node, exceptions included. */
  function Turn(env: Env, vm: Vm, n: Node): (Vm, Outcome<()>)
    requires n.id in vm.states
  {
    var (after, out) := Attempt(env, Started(vm, n), n);
    AttemptKeepsNode(env, Started(vm, n), n);
    match out
    case Ok(_) => (Checkpointed(after), out)
    case Fatal(m) => (Marked(after, n, Failed, "fatal"), out)
    case Retry(m) => (Marked(after, n, Retryable, m), out)
    case Error(m) => (Marked(after, n, Failed, m).(status := RunFailed), out)
  }
}
