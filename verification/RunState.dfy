/** The state of one run, as a value. `Vm` is everything the storage holds for
    the run; `View` is what the scheduler and the input gathering can see of one
    node. */
module RunStates {
  import opened TaskGraphs
  import opened ArtifactCache

  datatype NodeStatus = Pending | Running | Succeeded | Failed | Retryable | Expanded | Skipped

  datatype SkipReason = UpstreamNotFound | BranchNotSelected

  datatype NodeState = NodeState(
    status: NodeStatus,
    attempts: nat,
    outputs: seq<Id>,
    notFound: bool,
    selectedBranch: Option<string>,
    cacheHit: bool,
    skipReason: Option<SkipReason>,
    lastError: Option<string>)

  const FRESH_STATE := NodeState(Pending, 0, [], false, None, false, None, None)

  datatype RunStatus = RunPending | RunRunning | RunSucceeded | RunFailed

  datatype Checkpoint = Checkpoint(counter: Option<Id>, completed: set<Id>, failed: set<Id>)

  datatype Vm = Vm(
    nodes: seq<Node>,
    edges: seq<Edge<Id>>,
    states: map<Id, NodeState>,
    store: ArtifactStore,
    checkpoints: seq<Checkpoint>,
    status: RunStatus,
    counter: Option<Id>,
    nextId: nat)

  function WithStatus(states: map<Id, NodeState>, status: NodeStatus): set<Id> {
    set id | id in states && states[id].status == status
  }

  /** `_checkpoint`: one more record of what has succeeded and failed so far. */
  function Checkpointed(vm: Vm): Vm {
    vm.(checkpoints := vm.checkpoints
          + [Checkpoint(vm.counter, WithStatus(vm.states, Succeeded), WithStatus(vm.states, Failed))])
  }

  function Complete(status: NodeStatus): bool {
    status.Succeeded? || status.Expanded? || status.Skipped?
  }

  /** Statuses a node reaches by being executed without an exception. */
  function Executed(status: NodeStatus): bool {
    status.Succeeded? || status.Expanded?
  }

  // ----- views -----

  datatype Piece = Piece(port: string, content: Content)

  /** `outputs` is None when some recorded artifact cannot be loaded. */
  datatype View = View(status: NodeStatus, notFound: bool, branch: Option<string>, outputs: Option<seq<Piece>>)

  type Views = map<Id, View>

  function Resolve(artifacts: map<Id, Artifact>, ids: seq<Id>): Option<seq<Piece>> {
    if forall i | 0 <= i < |ids| :: ids[i] in artifacts
    then Some(seq(|ids|, i requires 0 <= i < |ids| => Piece(artifacts[ids[i]].port, artifacts[ids[i]].content)))
    else None
  }

  function ViewOf(store: ArtifactStore, st: NodeState): View {
    View(st.status, st.notFound, st.selectedBranch, Resolve(store.artifacts, st.outputs))
  }

  function ViewsOf(vm: Vm): Views {
    map id | id in vm.states :: ViewOf(vm.store, vm.states[id])
  }
}
