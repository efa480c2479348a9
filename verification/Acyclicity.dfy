/** The depth-first cycle check of the graph validator, proved sound and
    complete for every edge list, whatever identifiers the edges mention. */
module Acyclicity {
  import opened TaskGraphs

  ghost predicate Arrow<I>(edges: seq<Edge<I>>, u: I, v: I) {
    exists e :: e in edges && e.from == u && e.to == v
  }

  ghost predicate IsPath<I>(edges: seq<Edge<I>>, p: seq<I>) {
    && |p| >= 1
    && forall i :: 0 <= i < |p| - 1 ==> Arrow(edges, p[i], p[i + 1])
  }

  ghost predicate IsCycle<I>(edges: seq<Edge<I>>, p: seq<I>) {
    IsPath(edges, p) && |p| >= 2 && p[0] == p[|p| - 1]
  }

  ghost predicate Acyclic<I(!new)>(edges: seq<Edge<I>>) {
    !exists p :: IsCycle(edges, p)
  }

  /** A rank is a topological order: it grows along every edge. */
  ghost predicate Ranked<I>(edges: seq<Edge<I>>, rank: I -> nat) {
    forall e :: e in edges ==> rank(e.from) < rank(e.to)
  }

  lemma {:induction false} RankGrowsAlongPath<I>(edges: seq<Edge<I>>, rank: I -> nat, p: seq<I>)
    requires Ranked(edges, rank) && IsPath(edges, p) && |p| >= 2
    ensures rank(p[0]) < rank(p[|p| - 1])
  {
    assert Arrow(edges, p[0], p[0 + 1]);
    if |p| > 2 {
      forall i | 0 <= i < |p[1..]| - 1 ensures Arrow(edges, p[1..][i], p[1..][i + 1]) {
        assert Arrow(edges, p[i + 1], p[i + 1 + 1]);
      }
      RankGrowsAlongPath(edges, rank, p[1..]);
    }
  }

  lemma RankedIsAcyclic<I(!new)>(edges: seq<Edge<I>>, rank: I -> nat)
    requires Ranked(edges, rank)
    ensures Acyclic(edges)
  {
    if p :| IsCycle(edges, p) {
      RankGrowsAlongPath(edges, rank, p);
    }
  }

  // ----- the order in which the search finishes nodes -----

  function Position<I(==)>(order: seq<I>, x: I): (k: nat)
    ensures k <= |order| && (k < |order| <==> x in order)
    ensures k < |order| ==> order[k] == x
  {
    if order == [] then 0 else if order[0] == x then 0 else 1 + Position(order[1..], x)
  }

  lemma {:induction false} PositionIsFirst<I>(order: seq<I>, x: I, k: nat)
    requires k < |order| && order[k] == x
    ensures Position(order, x) <= k
  {
    if order[0] != x {
      PositionIsFirst(order[1..], x, k - 1);
    }
  }

  /** Everything a finished node points to was finished before it. */
  ghost predicate FinishOrder<I>(edges: seq<Edge<I>>, order: seq<I>) {
    forall i, e :: 0 <= i < |order| && e in edges && e.from == order[i] ==> e.to in order[..i]
  }

  lemma FinishOrderGivesRank<I(!new)>(edges: seq<Edge<I>>, order: seq<I>) returns (rank: I -> nat)
    requires FinishOrder(edges, order)
    requires forall e :: e in edges ==> e.from in order
    ensures Ranked(edges, rank)
  {
    rank := x => |order| - Position(order, x);
    forall e | e in edges ensures rank(e.from) < rank(e.to) {
      var i := Position(order, e.from);
      var j :| 0 <= j < |order[..i]| && order[..i][j] == e.to;
      PositionIsFirst(order, e.to, j);
    }
  }

  /** `outgoing` lists exactly the edges, and every endpoint is in `universe`. */
  ghost predicate Adjacent<I(!new)>(edges: seq<Edge<I>>, outgoing: map<I, seq<I>>, universe: set<I>) {
    && (forall u, v :: u in outgoing && v in outgoing[u] ==> Arrow(edges, u, v))
    && (forall e :: e in edges ==> e.from in outgoing && e.to in outgoing[e.from] && e.to in universe)
  }

  /** What every call of the search keeps; `stack` is the chain of pending calls. */
  ghost predicate Searching<I(!new)>(edges: seq<Edge<I>>, visiting: set<I>, visited: set<I>,
                                     order: seq<I>, stack: seq<I>) {
    && (forall x :: x in visited <==> x in order)
    && (forall x :: x in visiting <==> x in stack)
    && visited !! visiting
    && FinishOrder(edges, order)
    && (stack == [] || IsPath(edges, stack))
  }

  lemma ClosingTheStack<I(!new)>(edges: seq<Edge<I>>, stack: seq<I>, id: I)
    requires stack != [] && IsPath(edges, stack) && id in stack
    requires Arrow(edges, stack[|stack| - 1], id)
    ensures exists p :: IsCycle(edges, p)
  {
    var k :| 0 <= k < |stack| && stack[k] == id;
    var p := stack[k..] + [id];
    forall i | 0 <= i < |p| - 1 ensures Arrow(edges, p[i], p[i + 1]) {
      if i + 1 < |p| - 1 {
        assert Arrow(edges, stack[k + i], stack[k + i + 1]);
      }
    }
    assert IsCycle(edges, p);
  }

  lemma Enter<I(!new)>(edges: seq<Edge<I>>, visiting: set<I>, visited: set<I>, order: seq<I>, stack: seq<I>, id: I)
    requires Searching(edges, visiting, visited, order, stack)
    requires id !in visiting && id !in visited
    requires stack != [] ==> Arrow(edges, stack[|stack| - 1], id)
    ensures Searching(edges, visiting + {id}, visited, order, stack + [id])
  {
    var deeper := stack + [id];
    forall i | 0 <= i < |deeper| - 1 ensures Arrow(edges, deeper[i], deeper[i + 1]) {
      if i + 1 < |stack| {
        assert Arrow(edges, stack[i], stack[i + 1]);
      }
    }
  }

  lemma Leave<I(!new)>(edges: seq<Edge<I>>, visiting: set<I>, visited: set<I>, order: seq<I>, stack: seq<I>, id: I)
    requires Searching(edges, visiting + {id}, visited, order, stack + [id])
    requires id !in visiting && (forall x :: x in visiting <==> x in stack)
    requires forall e :: e in edges && e.from == id ==> e.to in visited
    ensures Searching(edges, visiting, visited + {id}, order + [id], stack)
  {
    var finished := order + [id];
    forall i, e | 0 <= i < |finished| && e in edges && e.from == finished[i] ensures e.to in finished[..i] {
      if i < |order| {
        assert e.to in order[..i] && order[..i] == finished[..i];
      } else {
        assert finished[..i] == order;
      }
    }
    if stack != [] {
      forall i | 0 <= i < |stack| - 1 ensures Arrow(edges, stack[i], stack[i + 1]) {
        assert Arrow(edges, (stack + [id])[i], (stack + [id])[i + 1]);
      }
    }
  }

  ghost function Elements<I>(s: seq<I>): set<I> {
    set x | x in s
  }

  /** The same search as an argument: on acyclic edges it finishes everything. */
  lemma FinishFrom<I(!new)>(edges: seq<Edge<I>>, universe: set<I>, visiting: set<I>,
                            order: seq<I>, stack: seq<I>, id: I)
    returns (later: seq<I>)
    requires Acyclic(edges) && Searching(edges, visiting, Elements(order), order, stack)
    requires id in universe && visiting <= universe && forall e :: e in edges ==> e.to in universe
    requires stack != [] ==> Arrow(edges, stack[|stack| - 1], id)
    ensures Searching(edges, visiting, Elements(later), later, stack)
    ensures order <= later && id in later
    decreases universe - visiting
  {
    later := order;
    if id in order {
      return;
    }
    if id in visiting {
      ClosingTheStack(edges, stack, id);
    }
    Enter(edges, visiting, Elements(order), order, stack, id);
    for i := 0 to |edges|
      invariant Searching(edges, visiting + {id}, Elements(later), later, stack + [id])
      invariant order <= later
      invariant forall j :: 0 <= j < i && edges[j].from == id ==> edges[j].to in later
    {
      if edges[i].from == id {
        assert Arrow(edges, id, edges[i].to);
        later := FinishFrom(edges, universe, visiting + {id}, later, stack + [id], edges[i].to);
      }
    }
    Leave(edges, visiting, Elements(later), later, stack, id);
    assert Elements(later) + {id} == Elements(later + [id]);
    later := later + [id];
  }

  lemma FinishAll<I(!new)>(edges: seq<Edge<I>>, universe: set<I>) returns (order: seq<I>)
    requires Acyclic(edges) && forall e :: e in edges ==> e.from in universe && e.to in universe
    ensures Searching(edges, {}, Elements(order), order, [])
    ensures forall e :: e in edges ==> e.from in order
  {
    hide Acyclic;
    order := [];
    for i := 0 to |edges|
      invariant Searching(edges, {}, Elements(order), order, [])
      invariant forall j :: 0 <= j < i ==> edges[j].from in order
    {
      hide Searching;
      order := FinishFrom(edges, universe, {}, order, [], edges[i].from);
    }
  }

  /** An edge list without a cycle has a topological order. */
  lemma AcyclicHasRank<I(!new)>(edges: seq<Edge<I>>) returns (rank: I -> nat)
    requires Acyclic(edges)
    ensures Ranked(edges, rank)
  {
    var order := FinishAll(edges, (set e | e in edges :: e.from) + set e | e in edges :: e.to);
    rank := FinishOrderGivesRank(edges, order);
  }

  /** The mutable state of one check: what is on the search stack and what is
      finished; `order` records when. */
  class CycleCheck<I(==, !new)> {
    const outgoing: map<I, seq<I>>
    var visiting: set<I>
    var visited: set<I>
    ghost const edges: seq<Edge<I>>
    ghost const universe: set<I>
    ghost var order: seq<I>

    ghost predicate Valid(stack: seq<I>)
      reads this
    {
      && Adjacent(edges, outgoing, universe)
      && visiting <= universe
      && Searching(edges, visiting, visited, order, stack)
    }

    constructor (outgoing: map<I, seq<I>>, ghost edges: seq<Edge<I>>, ghost universe: set<I>)
      requires Adjacent(edges, outgoing, universe)
      ensures Valid([]) && this.outgoing == outgoing && this.edges == edges && this.universe == universe
      ensures visiting == {} && visited == {}
    {
      this.outgoing, this.edges, this.universe := outgoing, edges, universe;
      visiting, visited, order := {}, {}, [];
    }

    /** `stack` is the chain of recursive calls that led here. */
    method Visit(id: I, ghost stack: seq<I>) returns (ok: bool)
      requires Valid(stack) && id in universe
      requires stack != [] ==> Arrow(edges, stack[|stack| - 1], id)
      modifies this
      ensures ok ==> Valid(stack) && id in visited && old(visited) <= visited
      ensures ok ==> visiting == old(visiting)
      ensures !ok ==> exists p :: IsCycle(edges, p)
      decreases universe - visiting
    {
      if id in visiting {
        ClosingTheStack(edges, stack, id);
        return false;
      }
      if id in visited {
        return true;
      }
      Enter(edges, visiting, visited, order, stack, id);
      visiting := visiting + {id};
      var successors := if id in outgoing then outgoing[id] else [];
      for i := 0 to |successors|
        invariant Valid(stack + [id]) && visiting == old(visiting) + {id} && old(visited) <= visited
        invariant forall j :: 0 <= j < i ==> successors[j] in visited
      {
        assert Arrow(edges, id, successors[i]);
        var deeperOk := Visit(successors[i], stack + [id]);
        if !deeperOk {
          return false;
        }
      }
      Leave(edges, old(visiting), visited, order, stack, id);
      assert visiting - {id} == old(visiting);
      visiting := visiting - {id};
      visited := visited + {id};
      order := order + [id];
      return true;
    }
  }

  /** `outgoing` after `{node.id: [] for node in nodes}` and one
      `setdefault(...).append(...)` per edge, with its keys in insertion order. */
  method Adjacency<I(==, !new)>(nodes: seq<I>, edges: seq<Edge<I>>)
    returns (outgoing: map<I, seq<I>>, keys: seq<I>)
    ensures forall u :: u in outgoing <==> u in keys
    ensures forall u :: u in keys <==> u in nodes || exists e :: e in edges && e.from == u
    ensures forall u, v :: u in outgoing && v in outgoing[u] <==> Arrow(edges, u, v)
  {
    outgoing, keys := map[], [];
    for i := 0 to |nodes|
      invariant forall u :: u in outgoing <==> u in keys
      invariant forall u :: u in keys <==> u in nodes[..i]
      invariant forall u :: u in outgoing ==> outgoing[u] == []
    {
      if nodes[i] !in outgoing {
        keys := keys + [nodes[i]];
      }
      outgoing := outgoing[nodes[i] := []];
    }
    assert nodes[..|nodes|] == nodes;
    for i := 0 to |edges|
      invariant forall u :: u in outgoing <==> u in keys
      invariant forall u :: u in keys <==> u in nodes || exists e :: e in edges[..i] && e.from == u
      invariant forall u, v :: u in outgoing && v in outgoing[u] <==> Arrow(edges[..i], u, v)
    {
      var e := edges[i];
      assert edges[..i + 1] == edges[..i] + [e];
      ghost var before := outgoing;
      if e.from !in outgoing {
        keys := keys + [e.from];
        outgoing := outgoing[e.from := [e.to]];
      } else {
        outgoing := outgoing[e.from := outgoing[e.from] + [e.to]];
      }
      forall u, v ensures u in outgoing && v in outgoing[u] <==> Arrow(edges[..i + 1], u, v) {
        assert Arrow(edges[..i + 1], u, v) <==> Arrow(edges[..i], u, v) || (u == e.from && v == e.to);
        assert u in before && v in before[u] <==> Arrow(edges[..i], u, v);
      }
    }
    assert edges[..|edges|] == edges;
  }

  /** `validate_acyclic`: true stands for an empty issue list. */
  method ValidateAcyclic<I(==, !new)>(nodes: seq<I>, edges: seq<Edge<I>>) returns (ok: bool)
    ensures ok <==> Acyclic(edges)
  {
    hide IsCycle, FinishOrder, IsPath;
    var outgoing, keys := Adjacency(nodes, edges);
    forall e | e in edges ensures e.from in outgoing && e.to in outgoing[e.from] {
      assert Arrow(edges, e.from, e.to);
    }
    ghost var universe := outgoing.Keys + set e | e in edges :: e.to;
    var check := new CycleCheck(outgoing, edges, universe);
    for i := 0 to |keys|
      invariant fresh(check) && check.Valid([]) && check.visiting == {}
      invariant forall j :: 0 <= j < i ==> keys[j] in check.visited
    {
      var visitOk := check.Visit(keys[i], []);
      if !visitOk {
        return false;
      }
    }
    ghost var rank := FinishOrderGivesRank(edges, check.order);
    RankedIsAcyclic(edges, rank);
    return true;
  }
}
