/** The in-memory storage of one run, updated in place by the scheduler, the
    executor and the expansion. `Snapshot` is its contents as a value. */
module Storage {
  import opened TaskGraphs
  import opened ArtifactCache
  import opened RunStates

  class InMemoryStorage {
    var nodes: seq<Node>
    var taskEdges: seq<Edge<Id>>
    var runNodeStates: map<Id, NodeState>
    var artifacts: map<Id, Artifact>
    var artifactCache: map<Slot, Id>
    var checkpoints: seq<Checkpoint>
    var runStatus: RunStatus
    var programCounter: Option<Id>
    var nextId: nat

    function Snapshot(): Vm
      reads this
    {
      Vm(nodes, taskEdges, runNodeStates, ArtifactStore(artifacts, artifactCache),
         checkpoints, runStatus, programCounter, nextId)
    }

    /** A stored task graph and a run that has not started. */
    constructor (graph: TaskGraph, nextId: nat)
      ensures Snapshot() == Vm(graph.nodes, graph.edges, map[], EMPTY_STORE, [], RunPending, None, nextId)
    {
      nodes, taskEdges, runNodeStates := graph.nodes, graph.edges, map[];
      artifacts, artifactCache, checkpoints := map[], map[], [];
      runStatus, programCounter := RunPending, None;
      this.nextId := nextId;
    }

    method NewId() returns (id: Id)
      modifies this`nextId
      ensures id == FreshId(old(nextId)) && nextId == old(nextId) + 1
    {
      id := FreshId(nextId);
      nextId := nextId + 1;
    }

    /** Both `create_run_node_state` and `update_run_node_state`. */
    method PutRunNodeState(id: Id, state: NodeState)
      modifies this`runNodeStates
      ensures Snapshot() == old(Snapshot()).(states := old(runNodeStates)[id := state])
    {
      runNodeStates := runNodeStates[id := state];
    }

    method PersistArtifact(a: Artifact)
      modifies this`artifacts, this`artifactCache
      ensures Snapshot() == old(Snapshot()).(store := Persist(old(Snapshot()).store, a))
    {
      artifacts := artifacts[a.id := a];
      if a.cacheKey.Some? && a.inputs.Some? && a.supersededBy.None? {
        artifactCache := artifactCache[Slot(a.cacheKey.value, Sorted(a.inputs.value)) := a.id];
      }
    }

    /** False is the storage error for an unknown artifact. */
    method UpdateArtifact(id: Id, successor: Id) returns (known: bool)
      modifies this`artifacts, this`artifactCache
      ensures known == Supersede(old(Snapshot()).store, id, successor).Some?
      ensures known ==>
        Snapshot() == old(Snapshot()).(store := Supersede(old(Snapshot()).store, id, successor).value)
      ensures !known ==> Snapshot() == old(Snapshot())
    {
      if id !in artifacts {
        return false;
      }
      var a := artifacts[id].(supersededBy := Some(successor));
      artifacts := artifacts[id := a];
      if a.cacheKey.Some? && a.inputs.Some? {
        artifactCache := artifactCache - {Slot(a.cacheKey.value, Sorted(a.inputs.value))};
      }
      return true;
    }

    method FindCachedArtifact(key: CacheKey, inputs: seq<int>) returns (found: Option<Artifact>)
      ensures found == Find(Snapshot().store, key, inputs)
    {
      var slot := Slot(key, Sorted(inputs));
      if slot !in artifactCache || artifactCache[slot] !in artifacts {
        return None;
      }
      var a := artifacts[artifactCache[slot]];
      return if a.supersededBy.None? then Some(a) else None;
    }

    /** `_checkpoint` of the executor: the record is computed from the states. */
    method PersistCheckpoint()
      modifies this`checkpoints
      ensures Snapshot() == Checkpointed(old(Snapshot()))
    {
      checkpoints := checkpoints
        + [Checkpoint(programCounter, WithStatus(runNodeStates, Succeeded), WithStatus(runNodeStates, Failed))];
    }
  }
}
