/** The records a run leaves: two checkpoints for every executed node, one
    artifact for every executed node and one more for every prompt, and
    checkpoints whose completed sets only grow. */
module Ledger {
  import opened TaskGraphs
  import opened ArtifactCache
  import opened RunStates
  import opened Schedulers
  import opened Execution
  import opened Termination
  import opened Executors
  import opened Reachability

  ghost function ExecutedIds(vm: Vm): set<Id> {
    set id | id in vm.states && Executed(vm.states[id].status)
  }

  /** Executed model and compress nodes whose result was not reused. */
  ghost function PromptedIds(vm: Vm): set<Id> {
    set n | n in vm.nodes && n.id in ExecutedIds(vm) && UsesPrompt(n.body) && !vm.states[n.id].cacheHit :: n.id
  }

  lemma StoredCounts(vm: Vm, a: Artifact)
    requires Ahead(vm) && a.id == FreshId(vm.nextId)
    ensures |Stored(vm, a).store.artifacts| == |vm.store.artifacts| + 1
  {
    assert Stored(vm, a).store.artifacts.Keys == vm.store.artifacts.Keys + {a.id};
    assert |vm.store.artifacts.Keys| == |vm.store.artifacts|;
    assert |Stored(vm, a).store.artifacts.Keys| == |Stored(vm, a).store.artifacts|;
  }

  function Prompts(n: Node, st: NodeState): nat {
    if UsesPrompt(n.body) && !st.cacheHit then 1 else 0
  }

  lemma InvokedCounts(env: Env, vm: Vm, n: Node, direct: seq<Input>)
    requires n.id in vm.states && Ahead(vm) && !vm.states[n.id].cacheHit && Invoked(env, vm, n, direct).1.Ok?
    ensures var mid := Invoked(env, vm, n, direct).0;
      && |mid.store.artifacts| == |vm.store.artifacts| + (if UsesPrompt(n.body) then 1 else 0)
      && n.id in mid.states && !mid.states[n.id].cacheHit && Ahead(mid)
      && mid.checkpoints == vm.checkpoints
  {
    InvokedGrows(env, vm, n, direct);
    if n.body.kind.Expand? && n.body.expansion.Some? {
      AddNodesFrame(vm, n.body.expansion.value.nodes);
    } else if UsesPrompt(n.body) && env.prompt(n, direct).Ok? {
      StoredCounts(vm, PromptArtifact(FreshId(vm.nextId), env.prompt(n, direct).value));
    }
  }

  lemma AttemptCounts(env: Env, vm: Vm, n: Node)
    requires n.id in vm.states && Ahead(vm) && !vm.states[n.id].cacheHit && Attempt(env, vm, n).1.Ok?
    ensures var t := Attempt(env, vm, n).0;
      && n.id in t.states && t.checkpoints == vm.checkpoints
      && |t.store.artifacts| == |vm.store.artifacts| + 1 + Prompts(n, t.states[n.id])
  {
    var g := Gather(env, vm.nodes, vm.edges, ViewsOf(vm), n).value;
    var cached := Find(vm.store, KeyOf(n.body), g.digests);
    if AllowCache(n.body) && cached.Some? {
      StoredCounts(vm, cached.value.(id := FreshId(vm.nextId)));
    } else {
      InvokedCounts(env, vm, n, g.direct);
      var (mid, out) := Invoked(env, vm, n, g.direct);
      StoredCounts(mid, OutputArtifact(FreshId(mid.nextId), n, out.value, g.digests));
    }
  }

  ghost predicate TurnRecord(q: Vm, n: Node, t: Vm) {
    && n.id in t.states
    && |t.store.artifacts| == |q.store.artifacts| + 1 + Prompts(n, t.states[n.id])
    && |t.checkpoints| == |q.checkpoints| + 2
    && t.checkpoints[..|q.checkpoints|] == q.checkpoints
    && t.checkpoints[|q.checkpoints|].completed == WithStatus(q.states, Succeeded)
    && t.checkpoints[|q.checkpoints| + 1].completed == WithStatus(t.states, Succeeded)
  }

  lemma TurnIsRecorded(env: Env, q: Vm, n: Node)
    requires n.id in q.states && Ahead(q) && !q.states[n.id].cacheHit && Turn(env, q, n).1.Ok?
    ensures TurnRecord(q, n, Turn(env, q, n).0)
  {
    AttemptCounts(env, Started(q, n), n);
  }

  // ----- along a run -----

  ghost predicate Growing(checkpoints: seq<Checkpoint>, final: set<Id>) {
    && (forall i, j :: 0 <= i <= j < |checkpoints| ==> checkpoints[i].completed <= checkpoints[j].completed)
    && (forall i :: 0 <= i < |checkpoints| ==> checkpoints[i].completed <= final)
    && (checkpoints != [] ==> checkpoints[|checkpoints| - 1].completed == final)
  }

  /** What the log of a run from `base` artifacts says in state vm. */
  ghost predicate Balanced(vm: Vm, base: nat) {
    && |vm.checkpoints| == 2 * |ExecutedIds(vm)|
    && |vm.store.artifacts| == base + |ExecutedIds(vm)| + |PromptedIds(vm)|
    && Growing(vm.checkpoints, WithStatus(vm.states, Succeeded))
  }

  lemma ExecutedMember(s: Vm, q: Vm, n: Node, t: Vm, id: Id)
    requires Effect(s, q, n, t)
    ensures id in ExecutedIds(t) <==> id in ExecutedIds(s) || id == n.id
  {}

  lemma EffectCounts(s: Vm, q: Vm, n: Node, t: Vm)
    requires Effect(s, q, n, t)
    ensures |ExecutedIds(t)| == |ExecutedIds(s)| + 1
  {
    forall id ensures id in ExecutedIds(t) <==> id in ExecutedIds(s) || id == n.id {
      ExecutedMember(s, q, n, t, id);
    }
    EffectExecutes(s, q, n, t);
    assert ExecutedIds(t) == ExecutedIds(s) + {n.id};
  }

  lemma EffectSucceeded(s: Vm, q: Vm, n: Node, t: Vm)
    requires Effect(s, q, n, t)
    ensures WithStatus(q.states, Succeeded) == WithStatus(s.states, Succeeded) <= WithStatus(t.states, Succeeded)
  {}

  lemma PromptedMember(s: Vm, q: Vm, n: Node, t: Vm, id: Id)
    requires Effect(s, q, n, t)
    ensures id in PromptedIds(t) <==> id in PromptedIds(s) || (id == n.id && Prompts(n, t.states[n.id]) == 1)
  {
    if id == n.id {
      EffectExecutes(s, q, n, t);
      OnlyNode(t, n);
    } else if id in q.states {
      assert t.states[id] == q.states[id];
    }
  }

  /** The node with n's identifier is n. */
  lemma OnlyNode(vm: Vm, n: Node)
    requires DistinctIds(vm.nodes) && n in vm.nodes
    ensures forall m :: m in vm.nodes && m.id == n.id ==> m == n
  {
    forall m | m in vm.nodes && m.id == n.id ensures m == n {
      LookupDistinct(vm.nodes, n);
      LookupDistinct(vm.nodes, m);
    }
  }

  lemma EffectPrompts(s: Vm, q: Vm, n: Node, t: Vm)
    requires Effect(s, q, n, t)
    ensures |PromptedIds(t)| == |PromptedIds(s)| + Prompts(n, t.states[n.id])
  {
    var added := if Prompts(n, t.states[n.id]) == 1 then {n.id} else {};
    EffectExecutes(s, q, n, t);
    assert n.id !in PromptedIds(s);
    forall id ensures id in PromptedIds(t) <==> id in PromptedIds(s) + added {
      PromptedMember(s, q, n, t, id);
    }
    assert PromptedIds(t) == PromptedIds(s) + added;
  }

  lemma GrowingExtends(old_: seq<Checkpoint>, before: set<Id>, log: seq<Checkpoint>, after: set<Id>)
    requires Growing(old_, before) && before <= after && |log| == |old_| + 2 && log[..|old_|] == old_
    requires log[|old_|].completed == before && log[|old_| + 1].completed == after
    ensures Growing(log, after)
  {
    assert forall i :: 0 <= i < |old_| ==> log[i] == old_[i];
  }

  lemma StepIsBalanced(s: Vm, q: Vm, n: Node, t: Vm, base: nat)
    requires Effect(s, q, n, t) && TurnRecord(q, n, t) && q.checkpoints == s.checkpoints
    requires Balanced(s, base)
    ensures Balanced(t, base)
  {
    EffectCounts(s, q, n, t);
    EffectPrompts(s, q, n, t);
    EffectSucceeded(s, q, n, t);
    GrowingExtends(s.checkpoints, WithStatus(s.states, Succeeded), t.checkpoints, WithStatus(t.states, Succeeded));
  }

  lemma FreshIsBalanced(vm: Vm)
    requires Fresh(vm)
    ensures Balanced(vm, |vm.store.artifacts|)
  {
    assert ExecutedIds(vm) == {} && PromptedIds(vm) == {};
  }

  lemma NextIsBalanced(env: Env, tr: seq<Vm>, ns: seq<Node>, i: nat, base: nat)
    requires Steps(env, tr, ns) && i < |ns| && Consistent(tr[i]) && Balanced(tr[i], base)
    ensures Balanced(tr[i + 1], base)
  {
    var q := AfterSkips(tr[i]);
    StepEffect(env, tr[i], ns[i], tr[i + 1]);
    assert GoodState(q, q.states[ns[i].id]);
    TurnIsRecorded(env, q, ns[i]);
    StepIsBalanced(tr[i], q, ns[i], tr[i + 1], base);
  }

  /** Conservation: in every reachable state, graph growth and cache hits
      included, the log is balanced. */
  lemma {:induction false} RunIsBalanced(env: Env, tr: seq<Vm>, ns: seq<Node>, i: nat)
    requires IsRun(env, tr, ns) && i < |tr|
    ensures Balanced(tr[i], |tr[0].store.artifacts|)
  {
    if i == 0 {
      FreshIsBalanced(tr[0]);
    } else {
      RunIsBalanced(env, tr, ns, i - 1);
      RunIsConsistent(env, tr, ns, i - 1);
      NextIsBalanced(env, tr, ns, i - 1, |tr[0].store.artifacts|);
    }
  }

  lemma SkippingKeepsBalance(s: Vm, q: Vm, base: nat)
    requires OnlySkips(s, q) && q.checkpoints == s.checkpoints && Balanced(s, base)
    ensures Balanced(q, base)
  {
    assert ExecutedIds(q) == ExecutedIds(s);
    assert PromptedIds(q) == PromptedIds(s);
    assert WithStatus(q.states, Succeeded) == WithStatus(s.states, Succeeded);
  }

  lemma SkipsAreBalanced(s: Vm, base: nat)
    requires Balanced(s, base)
    ensures Balanced(AfterSkips(s), base)
  {
    PropagationOnlySkips(s);
    SkippingKeepsBalance(s, AfterSkips(s), base);
  }

  /** The log of an execution that returns: twice as many checkpoints as executed
      nodes, and the last one lists exactly the succeeded nodes. */
  lemma ReturnedIsBalanced(env: Env, vm: Vm)
    requires Fresh(vm) && RunFrom(env, vm).1.Returned?
    ensures Balanced(RunFrom(env, vm).0, |vm.store.artifacts|)
  {
    var tr, ns := ExecutionIsARun(env, vm);
    RunIsBalanced(env, tr, ns, |ns|);
    SkipsAreBalanced(tr[|ns|], |vm.store.artifacts|);
    ReturnedKeepsLog(env, tr[|ns|], RunFrom(env, vm), |vm.store.artifacts|);
  }

  lemma ReturnedKeepsLog(env: Env, last: Vm, outcome: (Vm, RunResult), base: nat)
    requires Ends(env, last, outcome) && outcome.1.Returned? && Balanced(AfterSkips(last), base)
    ensures Balanced(outcome.0, base)
  {
    assert outcome.0 == AfterSkips(last).(status := RunSucceeded);
    assert PromptedIds(outcome.0) == PromptedIds(AfterSkips(last));
    assert ExecutedIds(outcome.0) == ExecutedIds(AfterSkips(last));
  }
}
