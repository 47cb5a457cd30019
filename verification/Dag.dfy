/** Dependency validation of an explicit workflow
    (agent/app/subagent/workflow.py, _validate_dependencies). */
module Dag {
  import opened Ordering

  type NodeId = string

  type Deps = map<NodeId, seq<NodeId>>

  datatype GraphError = MissingDependency(node: NodeId) | SelfDependency(node: NodeId) | DependencyCycle

  ghost predicate Closed(deps: Deps) {
    forall n, d :: n in deps && d in deps[n] ==> d in deps
  }

  /** Each node of the path depends on the next one. */
  ghost predicate IsPath(deps: Deps, p: seq<NodeId>) {
    && (forall i :: 0 <= i < |p| ==> p[i] in deps)
    && (forall i :: 0 <= i < |p| - 1 ==> p[i + 1] in deps[p[i]])
  }

  ghost predicate IsCycle(deps: Deps, p: seq<NodeId>) {
    |p| >= 2 && IsPath(deps, p) && p[0] == p[|p| - 1]
  }

  ghost predicate Acyclic(deps: Deps) {
    forall p :: !IsCycle(deps, p)
  }

  /** A topological rank: every node ranks above what it depends on. */
  ghost predicate Ranked(deps: Deps, rank: map<NodeId, nat>) {
    && rank.Keys == deps.Keys
    && forall n, d :: n in deps && d in deps[n] ==> d in rank && rank[d] < rank[n]
  }

  lemma {:induction false} RankFallsAlongPath(deps: Deps, rank: map<NodeId, nat>, p: seq<NodeId>)
    requires Ranked(deps, rank) && IsPath(deps, p) && |p| >= 2
    ensures rank[p[|p| - 1]] < rank[p[0]]
  {
    assert p[1] in deps[p[0]];
    if |p| > 2 {
      RankFallsAlongPath(deps, rank, p[1..]);
    }
  }

  lemma {:induction false} RankedMeansAcyclic(deps: Deps, rank: map<NodeId, nat>)
    requires Ranked(deps, rank)
    ensures Acyclic(deps)
  {
    forall p | IsCycle(deps, p)
      ensures false
    {
      RankFallsAlongPath(deps, rank, p);
    }
  }

  /** The finished part of a depth-first search, ranked by finishing order. */
  ghost predicate Finished(deps: Deps, visited: set<NodeId>, rank: map<NodeId, nat>) {
    && visited <= deps.Keys && rank.Keys == visited
    && (forall v :: v in visited ==> rank[v] < |visited|)
    && (forall v, d :: v in visited && d in deps[v] ==> d in visited && rank[d] < rank[v])
  }

  /** The nodes under visit, in the order in which they were entered. */
  ghost predicate OnStack(deps: Deps, stack: seq<NodeId>, visiting: set<NodeId>, next: NodeId) {
    && IsPath(deps, stack + [next])
    && (forall v :: v in visiting <==> v in stack)
  }

  lemma {:induction false} StackRevisitIsCycle(deps: Deps, stack: seq<NodeId>, visiting: set<NodeId>, id: NodeId)
    requires OnStack(deps, stack, visiting, id) && id in visiting
    ensures exists c :: IsCycle(deps, c)
  {
    var path := stack + [id];
    var k :| 0 <= k < |stack| && stack[k] == id;
    assert path[|stack|] == id;
    assert IsCycle(deps, path[k..]);
  }

  lemma {:induction false} PushOnStack(deps: Deps, stack: seq<NodeId>, visiting: set<NodeId>, id: NodeId, d: NodeId)
    requires Closed(deps) && OnStack(deps, stack, visiting, id)
    ensures id in deps
    ensures d in deps[id] ==> OnStack(deps, stack + [id], visiting + {id}, d)
  {
    assert (stack + [id])[|stack|] == id;
  }

  lemma {:induction false} FinishNode(deps: Deps, visited: set<NodeId>, rank: map<NodeId, nat>, id: NodeId)
    requires Finished(deps, visited, rank) && id in deps && id !in visited
    requires forall d :: d in deps[id] ==> d in visited
    ensures Finished(deps, visited + {id}, rank[id := |visited|])
  {
  }

  /** The nested visit function: visits everything below id, or meets a cycle. */
  method Visit(deps: Deps, id: NodeId, visiting: set<NodeId>, visited0: set<NodeId>,
               ghost stack: seq<NodeId>, ghost rank0: map<NodeId, nat>)
      returns (ok: bool, visited: set<NodeId>, ghost rank: map<NodeId, nat>)
    requires Closed(deps) && OnStack(deps, stack, visiting, id) && visiting !! visited0
    requires Finished(deps, visited0, rank0)
    ensures ok ==> Finished(deps, visited, rank) && visited0 <= visited && id in visited && visiting !! visited
    ensures !ok ==> exists c :: IsCycle(deps, c)
    decreases deps.Keys - visiting
  {
    hide Finished, OnStack, Closed, IsCycle;
    visited, rank := visited0, rank0;
    PushOnStack(deps, stack, visiting, id, id);
    if id in visiting {
      StackRevisitIsCycle(deps, stack, visiting, id);
      return false, visited, rank;
    }
    if id in visited {
      return true, visited, rank;
    }
    var entered := visiting + {id};
    for i := 0 to |deps[id]|
      invariant Finished(deps, visited, rank) && visited0 <= visited && entered !! visited
      invariant forall d :: d in deps[id][..i] ==> d in visited
    {
      PushOnStack(deps, stack, visiting, id, deps[id][i]);
      ok, visited, rank := Visit(deps, deps[id][i], entered, visited, stack + [id], rank);
      if !ok {
        return false, visited, rank;
      }
      assert deps[id][..i + 1] == deps[id][..i] + [deps[id][i]];
    }
    FinishNode(deps, visited, rank, id);
    rank := rank[id := |visited|];
    visited := visited + {id};
    ok := true;
  }

  /** The first loop: every dependency exists and none is the node itself. */
  method CheckReferences(order: seq<NodeId>, deps: Deps) returns (r: Result<(), GraphError>)
    requires forall n :: n in order <==> n in deps
    ensures r.Ok? <==> Closed(deps) && forall n :: n in deps ==> n !in deps[n]
    ensures r.Err? && r.error.MissingDependency? ==>
              r.error.node in deps && exists d :: d in deps[r.error.node] && d !in deps
    ensures r.Err? && r.error.SelfDependency? ==> r.error.node in deps && r.error.node in deps[r.error.node]
    ensures r.Err? ==> !r.error.DependencyCycle?
  {
    for i := 0 to |order|
      invariant forall n :: n in order[..i] ==> n !in deps[n] && forall d :: d in deps[n] ==> d in deps
    {
      var n := order[i];
      if exists d :: d in deps[n] && d !in deps {
        return Err(MissingDependency(n));
      }
      if n in deps[n] {
        return Err(SelfDependency(n));
      }
      assert order[..i + 1] == order[..i] + [n];
    }
    assert order[..|order|] == order;
    return Ok(());
  }

  lemma {:induction false} NothingFinished(deps: Deps)
    ensures Finished(deps, {}, map[])
  {
  }

  lemma {:induction false} AllFinished(deps: Deps, visited: set<NodeId>, rank: map<NodeId, nat>)
    requires Finished(deps, visited, rank) && deps.Keys <= visited
    ensures Ranked(deps, rank)
  {
  }

  lemma {:induction false} EmptyStack(deps: Deps, n: NodeId)
    requires n in deps
    ensures OnStack(deps, [], {}, n)
  {
    assert [] + [n] == [n];
  }

  /** The second loop: visits everything, or meets a cycle. */
  method SearchAll(order: seq<NodeId>, deps: Deps) returns (ok: bool)
    requires Closed(deps) && forall n :: n in order <==> n in deps
    ensures ok ==> exists rank :: Ranked(deps, rank)
    ensures !ok ==> exists c :: IsCycle(deps, c)
  {
    hide IsCycle, Closed, Finished, OnStack, Ranked;
    var visited: set<NodeId> := {};
    ghost var rank: map<NodeId, nat> := map[];
    NothingFinished(deps);
    for i := 0 to |order|
      invariant Finished(deps, visited, rank)
      invariant forall n :: n in order[..i] ==> n in visited
    {
      EmptyStack(deps, order[i]);
      ok, visited, rank := Visit(deps, order[i], {}, visited, [], rank);
      if !ok {
        return;
      }
      assert order[..i + 1] == order[..i] + [order[i]];
    }
    assert order[..|order|] == order;
    AllFinished(deps, visited, rank);
    ok := true;
  }

  /** Accepts exactly the graphs whose dependencies exist and form no cycle. */
  method ValidateDependencies(order: seq<NodeId>, deps: Deps) returns (r: Result<(), GraphError>)
    requires forall n :: n in order <==> n in deps
    ensures r.Ok? <==> Closed(deps) && Acyclic(deps)
    ensures r.Ok? ==> exists rank :: Ranked(deps, rank)
    ensures r.Err? && r.error.MissingDependency? ==>
              r.error.node in deps && exists d :: d in deps[r.error.node] && d !in deps
    ensures r.Err? && r.error.SelfDependency? ==> r.error.node in deps && r.error.node in deps[r.error.node]
    ensures r == Err(DependencyCycle) ==>
              Closed(deps) && (exists c :: IsCycle(deps, c)) && forall n :: n in deps ==> n !in deps[n]
  {
    r := CheckReferences(order, deps);
    if r.Err? {
      assert r.error.SelfDependency? ==> IsCycle(deps, [r.error.node, r.error.node]);
      return;
    }
    var ok := SearchAll(order, deps);
    if !ok {
      return Err(DependencyCycle);
    }
    ghost var rank :| Ranked(deps, rank);
    RankedMeansAcyclic(deps, rank);
  }
}
