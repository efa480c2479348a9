/** Runs of the virtual machine and what every reachable state satisfies. A step
    is one turn of the executor for any ready node, not just the first, so each
    theorem holds for every scheduling order; `RunFrom` is one such run. */
module Reachability {
  import opened TaskGraphs
  import opened RunStates
  import opened Schedulers
  import opened Transforms
  import opened Execution
  import opened Termination
  import opened Executors

  /** The node can be chosen after propagation. */
  ghost predicate Chosen(s: Vm, n: Node) {
    n in s.nodes && IsReady(s.edges, ViewsOf(AfterSkips(s)), n)
  }

  ghost predicate Step(env: Env, s: Vm, n: Node, t: Vm) {
    Chosen(s, n) && Turn(env, AfterSkips(s), n).1.Ok? && t == Turn(env, AfterSkips(s), n).0
  }

  /** Nothing has happened yet. */
  ghost predicate Fresh(vm: Vm) {
    && Sane(vm) && vm.checkpoints == []
    && forall id :: id in vm.states ==> vm.states[id] == FRESH_STATE
  }

  /** States tr[0..] with ns[i] executed between tr[i] and tr[i+1]. */
  ghost predicate Steps(env: Env, tr: seq<Vm>, ns: seq<Node>) {
    && |tr| == |ns| + 1
    && forall i :: 0 <= i < |ns| ==> Step(env, tr[i], ns[i], tr[i + 1])
  }

  ghost predicate IsRun(env: Env, tr: seq<Vm>, ns: seq<Node>) {
    Steps(env, tr, ns) && Fresh(tr[0])
  }

  /** How a run that has reached `last` ends. */
  ghost predicate Ends(env: Env, last: Vm, outcome: (Vm, RunResult)) {
    var s := AfterSkips(last);
    match FirstReady(s.nodes, s.edges, ViewsOf(s))
    case None => outcome == Concluded(s)
    case Some(n) =>
      && Chosen(last, n) && !Turn(env, s, n).1.Ok?
      && outcome == (Turn(env, s, n).0, Raised(Turn(env, s, n).1))
  }

  ghost predicate Continues(env: Env, vm: Vm) {
    var s := AfterSkips(vm);
    var ready := FirstReady(s.nodes, s.edges, ViewsOf(s));
    ready.Some? && ready.value.id in s.states && Turn(env, s, ready.value).1.Ok?
  }

  lemma RunUnfolds(env: Env, vm: Vm, n: Node)
    requires Sane(vm) && Continues(env, vm)
    requires n == FirstReady(AfterSkips(vm).nodes, AfterSkips(vm).edges, ViewsOf(AfterSkips(vm))).value
    ensures Sane(Turn(env, AfterSkips(vm), n).0)
    ensures RunFrom(env, vm) == RunFrom(env, Turn(env, AfterSkips(vm), n).0)
  {
    NextIsLighter(env, vm, n);
  }

  lemma RunContinues(env: Env, vm: Vm) returns (n: Node, next: Vm)
    requires Sane(vm) && Continues(env, vm)
    ensures Step(env, vm, n, next)
    ensures Sane(next) && Weigh(next) < Weigh(vm) && RunFrom(env, vm) == RunFrom(env, next)
  {
    var s := AfterSkips(vm);
    n := FirstReady(s.nodes, s.edges, ViewsOf(s)).value;
    next := Turn(env, s, n).0;
    NextIsLighter(env, vm, n);
    RunUnfolds(env, vm, n);
  }

  lemma RunStops(env: Env, vm: Vm)
    requires Sane(vm) && !Continues(env, vm)
    ensures Ends(env, vm, RunFrom(env, vm))
  {
    SkippingStaysSane(vm);
  }

  lemma StepsPrepend(env: Env, vm: Vm, n: Node, tr: seq<Vm>, ns: seq<Node>)
    requires Steps(env, tr, ns) && Step(env, vm, n, tr[0])
    ensures Steps(env, [vm] + tr, [n] + ns)
  {
    hide Step;
    forall i | 0 <= i < |[n] + ns| ensures Step(env, ([vm] + tr)[i], ([n] + ns)[i], ([vm] + tr)[i + 1]) {
      if i > 0 {
        assert Step(env, tr[i - 1], ns[i - 1], tr[i - 1 + 1]);
      }
    }
  }

  /** The executor's result is that of a run, so whatever holds in every
      reachable state holds up to the point where the executor stops. */
  lemma {:induction false} ExecutionIsARun(env: Env, vm: Vm) returns (tr: seq<Vm>, ns: seq<Node>)
    requires Sane(vm)
    ensures Steps(env, tr, ns) && tr[0] == vm && Ends(env, tr[|ns|], RunFrom(env, vm))
    decreases Weigh(vm)
  {
    tr, ns := [vm], [];
    if Continues(env, vm) {
      var n, next := RunContinues(env, vm);
      var later, executed := ExecutionIsARun(env, next);
      StepsPrepend(env, vm, n, later, executed);
      tr, ns := [vm] + later, [n] + executed;
    } else {
      RunStops(env, vm);
    }
  }

  /** A run prepared from a stored graph without node states starts fresh. */
  lemma PreparedIsFresh(vm: Vm)
    requires Unstarted(vm) && vm.states == map[] && vm.checkpoints == []
    ensures Fresh(Prepared(vm))
  {}

  // ----- the shape of the states -----

  ghost predicate GoodState(vm: Vm, st: NodeState) {
    match st.status
    case Pending => st.attempts == 0 && st.outputs == [] && !st.notFound && st.selectedBranch.None? && !st.cacheHit
    case Skipped => st.attempts == 0 && st.outputs == [] && !st.notFound && st.selectedBranch.None? && !st.cacheHit
    case Succeeded => st.attempts == 1 && |st.outputs| == 1 && st.outputs[0] in vm.store.artifacts
    case Expanded => st.attempts == 1 && |st.outputs| == 1 && st.outputs[0] in vm.store.artifacts
    case _ => false
  }

  ghost predicate Consistent(vm: Vm) {
    Sane(vm) && forall id :: id in vm.states ==> GoodState(vm, vm.states[id])
  }

  /** What has finished is never touched again, whole state included. */
  ghost predicate Frozen(s: Vm, t: Vm) {
    && (forall id :: id in s.states ==> id in t.states)
    && (forall id :: id in s.states && Complete(s.states[id].status) ==> t.states[id] == s.states[id])
    && forall id :: id in s.store.artifacts ==>
         id in t.store.artifacts && t.store.artifacts[id] == s.store.artifacts[id]
  }

  lemma SkipsAreConsistent(s: Vm)
    requires Consistent(s)
    ensures Consistent(AfterSkips(s)) && Frozen(s, AfterSkips(s))
  {
    hide Skippable, SkipClosed, Reason, Resolve;
    SkippingStaysSane(s);
    var q := AfterSkips(s);
    forall id | id in s.states && Complete(s.states[id].status) ensures q.states[id] == s.states[id] {
      assert id !in PendingIds(s.nodes, ViewsOf(s));
    }
  }

  ghost predicate Clean(st: NodeState) {
    st.outputs == [] && !st.notFound && st.selectedBranch.None? && !st.cacheHit
  }

  lemma ProducedIsGood(mid: Vm, n: Node, v: Value, digests: seq<int>)
    requires n.id in mid.states && Clean(mid.states[n.id]) && mid.states[n.id].attempts == 1
    ensures var after := Produced(mid, n, v, digests);
      n.id in after.states && var st := after.states[n.id];
      && Executed(st.status) && GoodState(after, st)
      && (st.status.Expanded? <==> mid.states[n.id].status.Expanded?)
      && (v.schema == "RoutingDecision" ==> st.selectedBranch == Field(v.content, "selected_branch"))
  {}

  lemma ReusedIsGood(vm: Vm, n: Node, cached: ArtifactCache.Artifact)
    requires n.id in vm.states && Clean(vm.states[n.id]) && vm.states[n.id].attempts == 1
    ensures var after := Reused(vm, n, cached);
      n.id in after.states && var st := after.states[n.id];
      && Executed(st.status) && GoodState(after, st) && st.cacheHit
      && (st.status.Expanded? <==> vm.states[n.id].status.Expanded?)
  {}

  lemma RoutersDecide(env: Env, n: Node, direct: seq<Input>)
    requires n.body.kind.Router? && Handle(env, n, direct).Ok?
    ensures var v := Handle(env, n, direct).value; v.schema == "RoutingDecision" && "selected_branch" in v.content
  {}

  /** The executed node's own state before its result is recorded. */
  lemma InvokedState(env: Env, vm: Vm, n: Node, direct: seq<Input>)
    requires n.id in vm.states && vm.states[n.id].status.Running?
    ensures var mid := Invoked(env, vm, n, direct).0;
      && n.id in mid.states
      && mid.states[n.id] == vm.states[n.id].(status := mid.states[n.id].status)
      && (mid.states[n.id].status.Expanded? ==> n.body.kind.Expand?)
  {}

  /** A successful execution leaves one attempt and one stored output. */
  lemma AttemptResult(env: Env, vm: Vm, n: Node)
    requires n.id in vm.states && vm.states[n.id].status.Running? && Clean(vm.states[n.id])
    requires vm.states[n.id].attempts == 1 && Attempt(env, vm, n).1.Ok?
    ensures var after := Attempt(env, vm, n).0;
      && n.id in after.states && Executed(after.states[n.id].status) && GoodState(after, after.states[n.id])
      && (after.states[n.id].status.Expanded? ==> n.body.kind.Expand?)
      && (n.body.kind.Router? && !after.states[n.id].cacheHit ==> after.states[n.id].selectedBranch.Some?)
  {
    hide Gather, Produced, Reused, GoodState, Handle, ExpandedBy, Prompted;
    var g := Gather(env, vm.nodes, vm.edges, ViewsOf(vm), n).value;
    var cached := ArtifactCache.Find(vm.store, KeyOf(n.body), g.digests);
    if AllowCache(n.body) && cached.Some? {
      ReusedIsGood(vm, n, cached.value);
    } else {
      var (mid, out) := Invoked(env, vm, n, g.direct);
      InvokedState(env, vm, n, g.direct);
      ProducedIsGood(mid, n, out.value, g.digests);
      if n.body.kind.Router? {
        RoutersDecide(env, n, g.direct);
      }
    }
  }

  /** The other nodes of the graph are as they were; nodes the turn added are fresh. */
  ghost predicate OthersUntouched(q: Vm, n: Node, t: Vm) {
    && q.nodes <= t.nodes && (forall m :: m in t.nodes ==> m in q.nodes || m.id !in q.states)
    && (forall id :: id in q.states ==> id in t.states)
    && (forall id :: id in q.states && id != n.id ==> t.states[id] == q.states[id])
    && (forall id :: id in t.states ==> id in q.states || t.states[id] == FRESH_STATE)
    && (!n.body.kind.Expand? ==> t.nodes == q.nodes && t.edges == q.edges && t.states.Keys == q.states.Keys)
  }

  lemma TurnTouchesOneNode(env: Env, q: Vm, n: Node)
    requires Sane(q) && n in q.nodes
    ensures OthersUntouched(q, n, Turn(env, q, n).0)
  {
    hide Turn;
    var start := Started(q, n);
    var proposed := TurnShape(env, q, n);
    AddNodesFrame(start, proposed);
    assert Sane(start);
  }

  /** What the executed node's state looks like after its turn. */
  ghost predicate Settled(n: Node, t: Vm) {
    && n.id in t.states && Executed(t.states[n.id].status) && GoodState(t, t.states[n.id])
    && (t.states[n.id].status.Expanded? ==> n.body.kind.Expand?)
    && (n.body.kind.Router? && !t.states[n.id].cacheHit ==> t.states[n.id].selectedBranch.Some?)
  }

  lemma TurnSettles(env: Env, q: Vm, n: Node)
    requires Consistent(q) && n in q.nodes && q.states[n.id].status.Pending? && Turn(env, q, n).1.Ok?
    ensures Settled(n, Turn(env, q, n).0)
  {
    AttemptResult(env, Started(q, n), n);
  }

  /** Propagation from s to q only skips pending nodes. */
  ghost predicate OnlySkips(s: Vm, q: Vm) {
    && q.nodes == s.nodes && q.edges == s.edges && q.store == s.store
    && q.states.Keys == s.states.Keys
    && forall id :: id in s.states ==>
         q.states[id] == s.states[id] || (s.states[id].status.Pending? && q.states[id].status.Skipped?)
  }

  lemma PropagationOnlySkips(s: Vm)
    ensures OnlySkips(s, AfterSkips(s))
  {
    forall id | id in s.states && AfterSkips(s).states[id] != s.states[id]
      ensures s.states[id].status.Pending? && AfterSkips(s).states[id].status.Skipped?
    {
      assert id in PendingIds(s.nodes, ViewsOf(s));
    }
  }

  ghost predicate UpstreamsFinished(q: Vm, n: Node) {
    forall e :: e in q.edges && e.to == n.id ==> e.from in q.states && Complete(q.states[e.from].status)
  }

  /** Everything later arguments use about a step from s, by way of q, to t. */
  ghost predicate Effect(s: Vm, q: Vm, n: Node, t: Vm) {
    && OnlySkips(s, q) && n in q.nodes && n.id in q.states && q.states[n.id].status.Pending?
    && UpstreamsFinished(q, n) && OthersUntouched(q, n, t) && Settled(n, t)
    && Consistent(q) && Consistent(t) && Frozen(s, t)
  }

  lemma EffectOfParts(s: Vm, q: Vm, n: Node, t: Vm)
    requires Frozen(s, q) && Consistent(q) && Sane(t) && StoreGrows(q, t)
    requires n.id in q.states && q.states[n.id].status.Pending?
    requires OthersUntouched(q, n, t) && Settled(n, t)
    ensures Consistent(t) && Frozen(s, t)
  {}

  lemma StepEffect(env: Env, s: Vm, n: Node, t: Vm)
    requires Consistent(s) && Step(env, s, n, t)
    ensures Effect(s, AfterSkips(s), n, t)
  {
    var q := AfterSkips(s);
    PropagationOnlySkips(s);
    SkipsAreConsistent(s);
    ReadyIsFinishedUpstream(q, n);
    TurnStaysSane(env, q, n);
    TurnGrows(env, q, n);
    TurnTouchesOneNode(env, q, n);
    TurnSettles(env, q, n);
    EffectOfParts(s, q, n, t);
  }

  lemma ReadyIsFinishedUpstream(q: Vm, n: Node)
    requires IsReady(q.edges, ViewsOf(q), n)
    ensures UpstreamsFinished(q, n) && n.id in q.states && q.states[n.id].status.Pending?
  {
    forall e | e in q.edges && e.to == n.id ensures e.from in q.states && Complete(q.states[e.from].status) {
      assert e.from in ViewsOf(q) && Complete(ViewsOf(q)[e.from].status);
    }
  }

  // ----- along a run -----

  /** The states after each propagation. */
  ghost function Propagated(tr: seq<Vm>): seq<Vm> {
    seq(|tr|, i requires 0 <= i < |tr| => AfterSkips(tr[i]))
  }

  ghost predicate Effects(tr: seq<Vm>, qs: seq<Vm>, ns: seq<Node>) {
    && |tr| == |ns| + 1 == |qs|
    && (forall i :: 0 <= i < |tr| ==> Consistent(tr[i]))
    && (forall id :: id in tr[0].states ==> tr[0].states[id] == FRESH_STATE)
    && forall i :: 0 <= i < |ns| ==> Effect(tr[i], qs[i], ns[i], tr[i + 1])
  }

  lemma {:induction false} RunIsConsistent(env: Env, tr: seq<Vm>, ns: seq<Node>, i: nat)
    requires IsRun(env, tr, ns) && i < |tr|
    ensures Consistent(tr[i])
  {
    if i > 0 {
      RunIsConsistent(env, tr, ns, i - 1);
      StepIsConsistent(env, tr, ns, i - 1);
    }
  }

  lemma StepIsConsistent(env: Env, tr: seq<Vm>, ns: seq<Node>, i: nat)
    requires IsRun(env, tr, ns) && i < |ns| && Consistent(tr[i])
    ensures Consistent(tr[i + 1])
  {
    StepEffect(env, tr[i], ns[i], tr[i + 1]);
  }

  lemma RunHasEffects(env: Env, tr: seq<Vm>, ns: seq<Node>)
    requires IsRun(env, tr, ns)
    ensures Effects(tr, Propagated(tr), ns)
  {
    forall i | 0 <= i < |tr| ensures Consistent(tr[i]) {
      RunIsConsistent(env, tr, ns, i);
    }
    forall i | 0 <= i < |ns| ensures Effect(tr[i], Propagated(tr)[i], ns[i], tr[i + 1]) {
      StepEffect(env, tr[i], ns[i], tr[i + 1]);
    }
  }

  lemma {:induction false} EffectsFreeze(tr: seq<Vm>, qs: seq<Vm>, ns: seq<Node>, i: nat, j: nat)
    requires Effects(tr, qs, ns) && i <= j < |tr|
    ensures Frozen(tr[i], tr[j])
    decreases j
  {
    hide Effect, Consistent;
    if i < j {
      hide Frozen;
      EffectsFreeze(tr, qs, ns, i, j - 1);
      EffectFreezes(tr, qs, ns, j - 1);
      FrozenTransitive(tr[i], tr[j - 1], tr[j]);
    }
  }

  lemma EffectFreezes(tr: seq<Vm>, qs: seq<Vm>, ns: seq<Node>, i: nat)
    requires Effects(tr, qs, ns) && i < |ns|
    ensures Frozen(tr[i], tr[i + 1])
  {
    assert Effect(tr[i], qs[i], ns[i], tr[i + 1]);
  }

  lemma FrozenTransitive(a: Vm, b: Vm, c: Vm)
    requires Frozen(a, b) && Frozen(b, c)
    ensures Frozen(a, c)
  {}

  /** A node counted as executed was executed by an earlier step. */
  lemma {:induction false} ExecutedEarlier(tr: seq<Vm>, qs: seq<Vm>, ns: seq<Node>, i: nat, id: Id)
    requires Effects(tr, qs, ns) && i < |tr| && id in tr[i].states && Executed(tr[i].states[id].status)
    ensures exists j :: 0 <= j < i && ns[j].id == id
  {
    hide Effect, Consistent;
    if i > 0 {
      assert Effect(tr[i - 1], qs[i - 1], ns[i - 1], tr[i - 1 + 1]);
      if ns[i - 1].id != id {
        ExecutedBefore(tr[i - 1], qs[i - 1], ns[i - 1], tr[i], id);
        ExecutedEarlier(tr, qs, ns, i - 1, id);
      }
    }
  }

  lemma ExecutedBefore(s: Vm, q: Vm, n: Node, t: Vm, id: Id)
    requires Effect(s, q, n, t) && id in t.states && Executed(t.states[id].status) && id != n.id
    ensures id in s.states && Executed(s.states[id].status)
  {}

  /** The turn of a chosen node, whether it succeeds or raises, leaves everything
      finished as it was. */
  lemma TurnFreezes(env: Env, s: Vm, n: Node)
    requires Consistent(s) && Chosen(s, n)
    ensures n.id in AfterSkips(s).states && Frozen(s, Turn(env, AfterSkips(s), n).0)
  {
    hide Turn, Chosen;
    var q := AfterSkips(s);
    ChosenIsPending(s, n);
    assert n in q.nodes by {
      ChosenIsNode(s, n);
    }
    SkipsAreConsistent(s);
    TurnTouchesOneNode(env, q, n);
    TurnGrows(env, q, n);
    UntouchedIsFrozen(s, q, n, Turn(env, q, n).0);
  }

  lemma ChosenIsNode(s: Vm, n: Node)
    requires Chosen(s, n)
    ensures n in AfterSkips(s).nodes
  {}

  lemma UntouchedIsFrozen(s: Vm, q: Vm, n: Node, t: Vm)
    requires Frozen(s, q) && n.id in s.states && s.states[n.id].status.Pending?
    requires OthersUntouched(q, n, t) && StoreGrows(q, t)
    ensures Frozen(s, t)
  {}

  /** No status ever leaves succeeded, expanded or skipped, and the whole state
      recorded with it, outputs included, is final: between any two states of a
      run, and across the turn of any node chosen in the later one, be it the turn
      that raises. */
  lemma FinishedIsFinal(env: Env, tr: seq<Vm>, ns: seq<Node>, i: nat, j: nat)
    requires IsRun(env, tr, ns) && i <= j < |tr|
    ensures Frozen(tr[i], tr[j])
    ensures forall n :: Chosen(tr[j], n) ==>
      n.id in AfterSkips(tr[j]).states && Frozen(tr[i], Turn(env, AfterSkips(tr[j]), n).0)
  {
    hide Chosen, Turn, Frozen;
    RunHasEffects(env, tr, ns);
    EffectsFreeze(tr, Propagated(tr), ns, i, j);
    RunIsConsistent(env, tr, ns, j);
    forall n | Chosen(tr[j], n)
      ensures n.id in AfterSkips(tr[j]).states && Frozen(tr[i], Turn(env, AfterSkips(tr[j]), n).0)
    {
      TurnFreezes(env, tr[j], n);
      FrozenTransitive(tr[i], tr[j], Turn(env, AfterSkips(tr[j]), n).0);
    }
  }

  /** However the executor stops, returning, stalled or raising, what was finished
      at any point of the run is unchanged in the state it leaves. */
  lemma OutcomeIsFinal(env: Env, tr: seq<Vm>, ns: seq<Node>, i: nat, outcome: (Vm, RunResult))
    requires IsRun(env, tr, ns) && i < |tr| && Ends(env, tr[|ns|], outcome)
    ensures Frozen(tr[i], outcome.0)
  {
    hide Chosen, Turn, Frozen;
    var last := tr[|ns|];
    FinishedIsFinal(env, tr, ns, i, |ns|);
    var ready := FirstReady(AfterSkips(last).nodes, AfterSkips(last).edges, ViewsOf(AfterSkips(last)));
    if ready.None? {
      RunIsConsistent(env, tr, ns, |ns|);
      SkipsAreConsistent(last);
      ConcludedIsFrozen(AfterSkips(last));
      FrozenTransitive(tr[i], last, AfterSkips(last));
      FrozenTransitive(tr[i], AfterSkips(last), outcome.0);
    }
  }

  lemma ConcludedIsFrozen(vm: Vm)
    ensures Frozen(vm, Concluded(vm).0)
  {}

  lemma EffectExecutes(s: Vm, q: Vm, n: Node, t: Vm)
    requires Effect(s, q, n, t)
    ensures n.id in s.states && s.states[n.id].status.Pending?
    ensures n.id in t.states && Executed(t.states[n.id].status)
  {}

  lemma ChosenIsPending(s: Vm, n: Node)
    requires Chosen(s, n)
    ensures n.id in AfterSkips(s).states && AfterSkips(s).states[n.id].status.Pending?
    ensures n.id in s.states && s.states[n.id].status.Pending? && UpstreamsFinished(AfterSkips(s), n)
  {
    PropagationOnlySkips(s);
    ReadyIsFinishedUpstream(AfterSkips(s), n);
  }

  /** Each node is executed at most once: a node chosen at any point of the run,
      whether its turn then succeeds or raises, was not executed before. */
  lemma ExecutedAtMostOnce(env: Env, tr: seq<Vm>, ns: seq<Node>, i: nat, n: Node, j: nat)
    requires IsRun(env, tr, ns) && j < i < |tr| && Chosen(tr[i], n)
    ensures n.id != ns[j].id
  {
    hide Chosen, IsRun, Consistent;
    RunHasEffects(env, tr, ns);
    ChosenIsPending(tr[i], n);
    ExecutedStays(tr, Propagated(tr), ns, j, i);
  }

  lemma ExecutedStays(tr: seq<Vm>, qs: seq<Vm>, ns: seq<Node>, j: nat, i: nat)
    requires Effects(tr, qs, ns) && j < |ns| && j < i < |tr|
    ensures ns[j].id in tr[i].states && Executed(tr[i].states[ns[j].id].status)
  {
    hide Effect, Consistent;
    EffectsFreeze(tr, qs, ns, j + 1, i);
    assert Effect(tr[j], qs[j], ns[j], tr[j + 1]);
    EffectExecutes(tr[j], qs[j], ns[j], tr[j + 1]);
  }

  /** Topological execution: when a node is chosen, every upstream has been
      skipped or was executed by an earlier step. */
  lemma UpstreamsRunFirst(env: Env, tr: seq<Vm>, ns: seq<Node>, i: nat, n: Node, e: Edge<Id>)
    requires IsRun(env, tr, ns) && i < |tr| && Chosen(tr[i], n) && e in tr[i].edges && e.to == n.id
    ensures e.from in AfterSkips(tr[i]).states
    ensures AfterSkips(tr[i]).states[e.from].status.Skipped? || exists j :: 0 <= j < i && ns[j].id == e.from
  {
    hide Chosen;
    var q := AfterSkips(tr[i]);
    RunHasEffects(env, tr, ns);
    ChosenIsPending(tr[i], n);
    PropagationOnlySkips(tr[i]);
    if !q.states[e.from].status.Skipped? {
      ExecutedEarlier(tr, Propagated(tr), ns, i, e.from);
    }
  }

  /** Executed nodes are chosen ones, so both hold of every step of a run. */
  lemma StepsAreChosen(env: Env, tr: seq<Vm>, ns: seq<Node>, i: nat)
    requires IsRun(env, tr, ns) && i < |ns|
    ensures Chosen(tr[i], ns[i])
  {
    hide Chosen;
    assert Step(env, tr[i], ns[i], tr[i + 1]);
  }

  // ----- readiness implies data -----

  ghost predicate HasData(views: Views, id: Id) {
    && id in views && views[id].outputs.Some?
    && (views[id].status.Skipped? || views[id].outputs.value != [])
  }

  lemma FinishedHasData(q: Vm, n: Node, id: Id)
    requires Consistent(q) && n.id in q.states && id in q.states && Complete(q.states[id].status) && id != n.id
    ensures HasData(ViewsOf(Started(q, n)), id)
  {}

  /** For a chosen node, each upstream was skipped or holds at least one
      loadable output. */
  lemma ReadyHasData(s: Vm, n: Node, e: Edge<Id>)
    requires Consistent(s) && Chosen(s, n) && e in s.edges && e.to == n.id
    ensures HasData(ViewsOf(Started(AfterSkips(s), n)), e.from)
  {
    var q := AfterSkips(s);
    SkipsAreConsistent(s);
    ReadyIsFinishedUpstream(q, n);
    FinishedHasData(q, n, e.from);
  }

  /** The scheduler let the node run although the edge has nothing to deliver:
      the one case in which gathering reports a missing input. */
  predicate LacksInput(nodes: seq<Node>, views: Views, e: Edge<Id>) {
    && !IsRouter(nodes, e.from) && e.required
    && (e.from !in views || (views[e.from].outputs == Some([]) && !views[e.from].status.Skipped?))
  }

  ghost predicate SameException<A(!new), B(!new)>(a: Outcome<A>, b: Outcome<B>) {
    match a
    case Ok(_) => false
    case Fatal(m) => b == Fatal(m)
    case Retry(m) => b == Retry(m)
    case Error(m) => b == Error(m)
  }

  /** Reading what the edge delivers, the piece on its port or the first one,
      raised exactly this. */
  ghost predicate DeliveryRaises(env: Env, nodes: seq<Node>, views: Views, e: Edge<Id>, out: Outcome<Gathered>) {
    && !IsRouter(nodes, e.from) && e.from in views
    && views[e.from].outputs.Some? && views[e.from].outputs.value != []
    && SameException(Deliver(env, ReadSchema(nodes, e.from), e, Pick(views[e.from].outputs.value, e.fromPort)), out)
  }

  /** With data behind every edge, gathering succeeds or raises what reading one
      of the gathered contents raised. */
  lemma {:induction false} GatherFailure(env: Env, nodes: seq<Node>, edges: seq<Edge<Id>>, views: Views, n: Node,
                                         acc: Gathered)
    requires forall e :: e in edges && e.to == n.id ==> HasData(views, e.from)
    ensures var out := GatherFrom(env, nodes, edges, views, n, acc);
      out.Ok? || exists e :: e in edges && e.to == n.id && DeliveryRaises(env, nodes, views, e, out)
  {
    if edges != [] {
      var e := edges[0];
      if e.to != n.id {
        GatherFailure(env, nodes, edges[1..], views, n, acc);
      } else {
        var step := GatherEdge(env, nodes, views, e, acc);
        assert HasData(views, e.from);
        if step.Ok? {
          GatherFailure(env, nodes, edges[1..], views, n, step.value);
        } else {
          assert DeliveryRaises(env, nodes, views, e, step);
        }
      }
    }
  }

  /** "Missing required input" is never raised: in every reachable state, for
      every environment, no edge into a chosen node lacks its input, and gathering
      succeeds or raises what reading one of the gathered contents raised. */
  lemma RequiredInputsArePresent(env: Env, tr: seq<Vm>, ns: seq<Node>, i: nat, n: Node)
    requires IsRun(env, tr, ns) && i < |tr| && Chosen(tr[i], n)
    ensures var start := Started(AfterSkips(tr[i]), n);
      var views := ViewsOf(start);
      var out := Gather(env, start.nodes, start.edges, views, n);
      && (forall e :: e in start.edges && e.to == n.id ==> !LacksInput(start.nodes, views, e))
      && (out.Ok? || exists e :: e in start.edges && e.to == n.id && DeliveryRaises(env, start.nodes, views, e, out))
  {
    RunIsConsistent(env, tr, ns, i);
    var start := Started(AfterSkips(tr[i]), n);
    forall e | e in start.edges && e.to == n.id ensures HasData(ViewsOf(start), e.from) {
      ReadyHasData(tr[i], n, e);
    }
    GatherFailure(env, start.nodes, start.edges, ViewsOf(start), n, Gathered([], []));
  }

  /** An edge that lacks its input raises the missing-input error; another edge
      could only do so by delivering a content whose reading raised those words. */
  lemma MissingExactly(env: Env, nodes: seq<Node>, views: Views, e: Edge<Id>, acc: Gathered)
    ensures LacksInput(nodes, views, e) ==> GatherEdge(env, nodes, views, e, acc) == Error(MISSING_INPUT)
    ensures GatherEdge(env, nodes, views, e, acc) == Error(MISSING_INPUT) && !LacksInput(nodes, views, e) ==>
      DeliveryRaises(env, nodes, views, e, Error(MISSING_INPUT))
  {}
}
