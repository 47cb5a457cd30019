/** Dependency safety, disjoint writers and dispatch accounting of explicit
    workflows, over every reachable graph. */
module WorkflowInvariant {
  import opened Ordering
  import opened Dag
  import Scopes
  import opened Workflow
  import opened WorkflowSafety

  /*----------------------------- dependency safety ----------------------------*/

  predicate Engaged(g: Graph, n: NodeId) {
    HasStatus(g, n, Running) || HasStatus(g, n, Completed)
  }

  /** Work only ever starts on top of completed dependencies. */
  ghost predicate DependencySafe(g: Graph) {
    forall n :: n in g.nodes && Engaged(g, n) ==> DependenciesCompleted(g, n)
  }

  /** Completed nodes are final. */
  ghost predicate KeepsCompleted(g: Graph, g': Graph) {
    forall n :: HasStatus(g, n, Completed) ==> n in g'.nodes && g'.nodes[n] == g.nodes[n]
  }

  lemma {:induction false} SafeStep(g: Graph, g': Graph)
    requires DependencySafe(g) && g'.nodes.Keys == g.nodes.Keys
    requires forall n :: n in g.nodes ==> g'.nodes[n].dependsOn == g.nodes[n].dependsOn
    requires forall n :: HasStatus(g, n, Completed) ==> HasStatus(g', n, Completed)
    requires forall n :: n in g.nodes && Engaged(g', n) ==> Engaged(g, n) || DependenciesCompleted(g, n)
    ensures DependencySafe(g')
  {
    forall n | n in g'.nodes && Engaged(g', n)
      ensures DependenciesCompleted(g', n)
    {
      assert DependenciesCompleted(g, n);
      forall d | d in g'.nodes[n].dependsOn
        ensures HasStatus(g', d, Completed)
      {
        assert HasStatus(g, d, Completed);
      }
    }
  }

  /*----------------------------- disjoint writers -----------------------------*/

  ghost predicate ShareFile(a: Node, b: Node) {
    exists file :: Scopes.ProtectsAny(a.writeScopes, file) && Scopes.ProtectsAny(b.writeScopes, file)
  }

  /** No file may be written by two running nodes. */
  ghost predicate WritersDisjoint(g: Graph) {
    forall a, b :: HasStatus(g, a, Running) && HasStatus(g, b, Running) && a != b ==> !ShareFile(g.nodes[a], g.nodes[b])
  }

  /** A step that starts nothing keeps the writers apart. */
  lemma {:induction false} WritersStep(g: Graph, g': Graph)
    requires WritersDisjoint(g)
    requires forall n :: HasStatus(g', n, Running) ==>
               HasStatus(g, n, Running) && g'.nodes[n].writeScopes == g.nodes[n].writeScopes
    ensures WritersDisjoint(g')
  {
    forall a, b | HasStatus(g', a, Running) && HasStatus(g', b, Running) && a != b
      ensures !ShareFile(g'.nodes[a], g'.nodes[b])
    {
      assert !ShareFile(g.nodes[a], g.nodes[b]);
    }
  }

  /*-------------------------------- accounting --------------------------------*/

  function Dispatches(node: Node): nat { node.dispatchCount }

  function Duration(node: Node): nat { node.durationMs }

  function SumOver(order: seq<NodeId>, nodes: map<NodeId, Node>, measure: Node -> nat): nat {
    if order == [] then 0
    else (if order[0] in nodes then measure(nodes[order[0]]) else 0) + SumOver(order[1..], nodes, measure)
  }

  lemma {:induction false} SumSame(order: seq<NodeId>, nodes: map<NodeId, Node>, nodes': map<NodeId, Node>,
          measure: Node -> nat)
    requires nodes.Keys == nodes'.Keys
    requires forall n :: n in nodes ==> measure(nodes'[n]) == measure(nodes[n])
    ensures SumOver(order, nodes', measure) == SumOver(order, nodes, measure)
  {
    if order != [] {
      SumSame(order[1..], nodes, nodes', measure);
    }
  }

  lemma {:induction false} SumUpdate(order: seq<NodeId>, nodes: map<NodeId, Node>, n: NodeId, node: Node,
          measure: Node -> nat)
    requires Distinct(order) && n in nodes
    ensures SumOver(order, nodes[n := node], measure) + (if n in order then measure(nodes[n]) else 0)
         == SumOver(order, nodes, measure) + (if n in order then measure(node) else 0)
  {
    if order != [] {
      SumUpdate(order[1..], nodes, n, node, measure);
      assert order == [order[0]] + order[1..];
      assert order[0] == n ==> n !in order[1..];
    }
  }

  lemma {:induction false} SumSettled(g: Graph, order: seq<NodeId>, done: set<NodeId>, outcome: NodeId -> Outcome)
    requires forall n :: n in order ==> n in g.nodes
    ensures SumOver(order, FinishAll(g, done, outcome).nodes, Duration)
         == SumOver(order, g.nodes, Duration) + SumElapsed(order, done, outcome)
  {
    if order != [] {
      SumSettled(g, order[1..], done, outcome);
    }
  }

  /** The dispatch counters of the graph, its quota and its nodes agree. */
  ghost predicate Accounted(g: Graph) {
    && g.schedulerSequence == g.quota.usedAttempts == SumOver(g.order, g.nodes, Dispatches)
    && g.quota.usedRuntimeMs == SumOver(g.order, g.nodes, Duration)
  }

  /** Dispatch numbers identify the latest dispatch of each node. */
  ghost predicate SequencesOk(g: Graph) {
    && (forall n :: n in g.nodes ==>
          g.nodes[n].dispatchSequence <= g.schedulerSequence
          && (g.nodes[n].dispatchSequence == 0 <==> g.nodes[n].dispatchCount == 0))
    && (forall m, n :: m in g.nodes && n in g.nodes && m != n && g.nodes[m].dispatchSequence > 0 ==>
          g.nodes[m].dispatchSequence != g.nodes[n].dispatchSequence)
  }

  /** parallel bounds every maxParallel used so far. */
  ghost predicate WithinQuota(g: Graph, parallel: nat) {
    && g.quota.usedWaves <= g.quota.maxWaves
    && g.quota.usedAttempts + 1 <= g.quota.maxTotalAttempts + parallel
  }

  /** What holds even if two waves overlap. */
  ghost predicate CoreGood(g: Graph, parallel: nat) {
    && Shape(g) && DependencySafe(g) && BlocksJustified(g)
    && Accounted(g) && SequencesOk(g) && WithinQuota(g, parallel)
  }

  ghost predicate Good(g: Graph, parallel: nat) {
    CoreGood(g, parallel) && WritersDisjoint(g)
  }

  /** Steps that keep the counters keep the accounting. */
  lemma {:induction false} CountersKept(g: Graph, g': Graph)
    requires Accounted(g) && SequencesOk(g) && g'.order == g.order && g'.nodes.Keys == g.nodes.Keys
    requires g'.schedulerSequence == g.schedulerSequence
    requires g'.quota == g.quota.(usedWaves := g'.quota.usedWaves)
    requires forall n :: n in g.nodes ==>
               && g'.nodes[n].dispatchCount == g.nodes[n].dispatchCount
               && g'.nodes[n].dispatchSequence == g.nodes[n].dispatchSequence
               && g'.nodes[n].durationMs == g.nodes[n].durationMs
    ensures Accounted(g') && SequencesOk(g')
  {
    SumSame(g.order, g.nodes, g'.nodes, Dispatches);
    SumSame(g.order, g.nodes, g'.nodes, Duration);
  }

  /*------------------------------ the operations ------------------------------*/

  /** Propagation changes pending nodes only, and only by blocking them. */
  lemma {:induction false} MarkedNodes(g: Graph)
    ensures Marked(g) == g.(nodes := Marked(g).nodes) && Marked(g).nodes.Keys == g.nodes.Keys
    ensures forall n :: n in g.nodes ==>
              Marked(g).nodes[n] == g.nodes[n] || (HasStatus(g, n, Pending) && Marked(g).nodes[n] == BlockNode(g.nodes[n]))
  {
    forall n | n in g.nodes
      ensures Marked(g).nodes[n] == g.nodes[n] || (HasStatus(g, n, Pending) && Marked(g).nodes[n] == BlockNode(g.nodes[n]))
    {
      DoomedIsPending(g, n);
    }
  }

  lemma {:induction false} MarkedSafe(g: Graph)
    requires DependencySafe(g)
    ensures DependencySafe(Marked(g)) && KeepsCompleted(g, Marked(g))
  {
    MarkedNodes(g);
    hide Marked;
    SafeStep(g, Marked(g));
  }

  lemma {:induction false} MarkedCounts(g: Graph)
    requires Accounted(g) && SequencesOk(g)
    ensures Accounted(Marked(g)) && SequencesOk(Marked(g))
  {
    MarkedNodes(g);
    hide Marked, SequencesOk, Accounted;
    CountersKept(g, Marked(g));
  }

  lemma {:induction false} MarkedGood(g: Graph, parallel: nat)
    requires Good(g, parallel)
    ensures Good(Marked(g), parallel) && KeepsCompleted(g, Marked(g))
  {
    MarkedShape(g);
    MarkedSafe(g);
    MarkedCounts(g);
    MarkedBlocksJustified(g);
    MarkedWriters(g);
    hide Shape, DependencySafe, BlocksJustified, Accounted, SequencesOk, KeepsCompleted, WritersDisjoint;
  }

  lemma {:induction false} MarkedWriters(g: Graph)
    requires WritersDisjoint(g)
    ensures WritersDisjoint(Marked(g))
  {
    MarkedNodes(g);
    hide Marked, WritersDisjoint;
    WritersStep(g, Marked(g));
  }

  lemma {:induction false} MarkedBlocksJustified(g: Graph)
    requires BlocksJustified(g)
    ensures BlocksJustified(Marked(g))
  {
    var m := Marked(g);
    forall d | Unusable(g, d)
      ensures Unusable(m, d)
    {
      DoomedIsPending(g, d);
    }
    forall n | HasStatus(m, n, Blocked)
      ensures m.nodes[n].failureKind == "dependency_failed" && HasUnusableDependency(m, n)
    {
      if HasStatus(g, n, Blocked) {
        DoomedIsPending(g, n);
        var d :| d in g.nodes[n].dependsOn && Unusable(g, d);
        assert Unusable(m, d);
      } else {
        var p :| FailurePath(g, p) && p[0] == n;
        DoomedHasBlockedDependency(g, p);
      }
    }
  }

  lemma {:induction false} DoomedHasBlockedDependency(g: Graph, p: seq<NodeId>)
    requires FailurePath(g, p)
    ensures HasUnusableDependency(Marked(g), p[0])
  {
    assert p[0] in DepsOf(g) && p[1] in DepsOf(g)[p[0]];
    assert Unusable(Marked(g), p[1]) by {
      if |p| == 2 {
        DoomedIsPending(g, p[1]);
      } else {
        var q := p[1..];
        assert q[|q| - 1] == p[|p| - 1];
        assert FailurePath(g, q) && q[0] == p[1];
      }
    }
  }

  lemma {:induction false} DispatchOneCounts(g: Graph, n: NodeId, now: int)
    requires Distinct(g.order) && n in g.order && n in g.nodes && Accounted(g) && SequencesOk(g)
    ensures Accounted(DispatchOne(g, n, now)) && SequencesOk(DispatchOne(g, n, now))
  {
    DispatchOneSums(g, n, now);
    DispatchOneSequences(g, n, now);
  }

  lemma {:induction false} DispatchOneSums(g: Graph, n: NodeId, now: int)
    requires Distinct(g.order) && n in g.order && n in g.nodes && Accounted(g)
    ensures Accounted(DispatchOne(g, n, now))
  {
    hide Distinct, SumOver, Expired;
    var g' := DispatchOne(g, n, now);
    SumUpdate(g.order, g.nodes, n, g'.nodes[n], Dispatches);
    SumUpdate(g.order, g.nodes, n, g'.nodes[n], Duration);
    assert g'.nodes == g.nodes[n := g'.nodes[n]];
  }

  lemma {:induction false} DispatchOneSequences(g: Graph, n: NodeId, now: int)
    requires n in g.nodes && SequencesOk(g)
    ensures SequencesOk(DispatchOne(g, n, now))
  {
    hide Expired;
  }

  lemma {:induction false} DispatchAllCounts(g: Graph, batch: seq<NodeId>, clock: NodeId -> int)
    requires Distinct(g.order) && Accounted(g) && SequencesOk(g)
    requires forall n :: n in batch ==> n in g.nodes && n in g.order
    ensures Accounted(DispatchAll(g, batch, clock)) && SequencesOk(DispatchAll(g, batch, clock))
  {
    if batch != [] {
      var last := |batch| - 1;
      DispatchAllCounts(g, batch[..last], clock);
      hide Accounted, SequencesOk;
      DispatchOneCounts(DispatchAll(g, batch[..last], clock), batch[last], clock(batch[last]));
    }
  }

  /** What starting a wave does to one node. */
  lemma {:induction false} StartedNode(g: Graph, batch: seq<NodeId>, w: WaveWorld, n: NodeId)
    requires Distinct(batch) && n in g.nodes && forall b :: b in batch ==> b in g.nodes
    ensures n in Started(g, batch, w).nodes
    ensures Dispatched(g.nodes[n], Started(g, batch, w).nodes[n], n in batch, w.clock(n))
  {
    DispatchEffect(OpenWave(g), batch, w.clock);
  }

  ghost predicate ReadyBatch(g: Graph, batch: seq<NodeId>) {
    Distinct(batch) && PairwiseFree(g, batch) && forall n :: n in batch ==> n in g.nodes && IsReady(g, n)
  }

  lemma {:induction false} StartedStatuses(g: Graph, batch: seq<NodeId>, w: WaveWorld)
    requires ReadyBatch(g, batch)
    ensures var s := Started(g, batch, w);
            && s.nodes.Keys == g.nodes.Keys
            && (forall n :: n in g.nodes ==> s.nodes[n].dependsOn == g.nodes[n].dependsOn)
            && (forall n :: n in g.nodes && n !in batch ==> s.nodes[n] == g.nodes[n])
            && (forall n :: n in batch ==> HasStatus(s, n, Running) || HasStatus(s, n, Failed))
  {
    var s := Started(g, batch, w);
    forall n | n in g.nodes
      ensures s.nodes[n].dependsOn == g.nodes[n].dependsOn
      ensures n !in batch ==> s.nodes[n] == g.nodes[n]
      ensures n in batch ==> HasStatus(s, n, Running) || HasStatus(s, n, Failed)
    {
      StartedNode(g, batch, w, n);
    }
  }

  lemma {:induction false} StartedGood(g: Graph, batch: seq<NodeId>, w: WaveWorld, parallel: nat)
    requires CoreGood(g, parallel) && ReadyBatch(g, batch) && QuotaFailure(g).None? && |batch| <= parallel
    ensures CoreGood(Started(g, batch, w), parallel) && KeepsCompleted(g, Started(g, batch, w))
    ensures NoneRunning(g) ==> Good(Started(g, batch, w), parallel)
  {
    hide Started, Accounted, SequencesOk, Shape, BlocksJustified, WithinQuota, DependencySafe, PairwiseFree;
    hide WritersDisjoint, NoneRunning;
    var s := Started(g, batch, w);
    StartedShape(g, batch, w);
    StartedStatuses(g, batch, w);
    StartedCounts(g, batch, w);
    StartedQuota(g, batch, w, parallel);
    StartedBlocks(g, s, batch);
    if NoneRunning(g) {
      RunningWritersDisjoint(g, batch, w);
    }
    assert forall n :: HasStatus(g, n, Completed) ==> n !in batch;
    SafeStep(g, s);
  }

  lemma {:induction false} StartedQuota(g: Graph, batch: seq<NodeId>, w: WaveWorld, parallel: nat)
    requires WithinQuota(g, parallel) && QuotaFailure(g).None? && |batch| <= parallel
    requires forall n :: n in batch ==> n in g.nodes
    ensures WithinQuota(Started(g, batch, w), parallel)
  {
    DispatchQuota(OpenWave(g), batch, w.clock);
  }

  lemma {:induction false} StartedBlocks(g: Graph, s: Graph, batch: seq<NodeId>)
    requires BlocksJustified(g) && ReadyBatch(g, batch) && s.nodes.Keys == g.nodes.Keys
    requires forall n :: n in g.nodes && n !in batch ==> s.nodes[n] == g.nodes[n]
    requires forall n :: n in batch ==> HasStatus(s, n, Running) || HasStatus(s, n, Failed)
    ensures BlocksJustified(s)
  {
    forall n | HasStatus(s, n, Blocked)
      ensures s.nodes[n].failureKind == "dependency_failed" && HasUnusableDependency(s, n)
    {
      assert n !in batch && HasStatus(g, n, Blocked);
      var d :| d in g.nodes[n].dependsOn && Unusable(g, d);
      assert d !in batch;
      assert Unusable(s, d);
    }
  }

  lemma {:induction false} StartedCounts(g: Graph, batch: seq<NodeId>, w: WaveWorld)
    requires Shape(g) && Accounted(g) && SequencesOk(g) && forall n :: n in batch ==> n in g.nodes
    ensures Accounted(Started(g, batch, w)) && SequencesOk(Started(g, batch, w))
  {
    CountersKept(g, OpenWave(g));
    ShapeIsDistinct(g);
    DispatchAllCounts(OpenWave(g), batch, w.clock);
    CountersKept(DispatchAll(OpenWave(g), batch, w.clock), Started(g, batch, w));
  }

  /** Some of the running attempts have returned. */
  lemma {:induction false} SettledGood(g: Graph, done: set<NodeId>, outcome: NodeId -> Outcome, parallel: nat)
    requires Good(g, parallel) && forall n :: n in done ==> HasStatus(g, n, Running)
    ensures Good(FinishAll(g, done, outcome), parallel) && KeepsCompleted(g, FinishAll(g, done, outcome))
  {
    FinishShape(g, done, outcome);
    SettledCounts(g, done, outcome);
    SettledBlocks(g, done, outcome);
    SettledSafe(g, done, outcome);
    SettledWriters(g, done, outcome);
    hide Accounted, SequencesOk, Shape, BlocksJustified, DependencySafe, KeepsCompleted, WritersDisjoint;
  }

  lemma {:induction false} SettledWriters(g: Graph, done: set<NodeId>, outcome: NodeId -> Outcome)
    requires WritersDisjoint(g)
    ensures WritersDisjoint(FinishAll(g, done, outcome))
  {
    hide WritersDisjoint;
    WritersStep(g, FinishAll(g, done, outcome));
  }

  lemma {:induction false} SettledSafe(g: Graph, done: set<NodeId>, outcome: NodeId -> Outcome)
    requires DependencySafe(g) && forall n :: n in done ==> HasStatus(g, n, Running)
    ensures DependencySafe(FinishAll(g, done, outcome)) && KeepsCompleted(g, FinishAll(g, done, outcome))
  {
    SafeStep(g, FinishAll(g, done, outcome));
  }

  lemma {:induction false} SettledSequences(g: Graph, done: set<NodeId>, outcome: NodeId -> Outcome)
    requires SequencesOk(g)
    ensures SequencesOk(FinishAll(g, done, outcome))
  {
    var f := FinishAll(g, done, outcome);
    forall n | n in g.nodes
      ensures f.nodes[n].dispatchSequence == g.nodes[n].dispatchSequence
      ensures f.nodes[n].dispatchCount == g.nodes[n].dispatchCount
    {
    }
    hide FinishAll;
  }

  lemma {:induction false} SettledCounts(g: Graph, done: set<NodeId>, outcome: NodeId -> Outcome)
    requires Shape(g) && Accounted(g) && SequencesOk(g)
    ensures Accounted(FinishAll(g, done, outcome)) && SequencesOk(FinishAll(g, done, outcome))
  {
    SettledSequences(g, done, outcome);
    ShapeIsDistinct(g);
    SumSettled(g, g.order, done, outcome);
    SettledDispatches(g, done, outcome);
  }

  lemma {:induction false} SettledDispatches(g: Graph, done: set<NodeId>, outcome: NodeId -> Outcome)
    ensures SumOver(g.order, FinishAll(g, done, outcome).nodes, Dispatches) == SumOver(g.order, g.nodes, Dispatches)
  {
    SumSame(g.order, g.nodes, FinishAll(g, done, outcome).nodes, Dispatches);
  }

  lemma {:induction false} SettledBlocks(g: Graph, done: set<NodeId>, outcome: NodeId -> Outcome)
    requires BlocksJustified(g) && forall n :: n in done ==> HasStatus(g, n, Running)
    ensures BlocksJustified(FinishAll(g, done, outcome))
  {
    var f := FinishAll(g, done, outcome);
    forall n | HasStatus(f, n, Blocked)
      ensures f.nodes[n].failureKind == "dependency_failed" && HasUnusableDependency(f, n)
    {
      assert n !in done;
      assert HasStatus(g, n, Blocked);
      var d :| d in g.nodes[n].dependsOn && Unusable(g, d);
      assert d !in done;
      assert Unusable(f, d);
    }
  }

  lemma {:induction false} RetryKeeps(g: Graph, r: NodeId, now: int)
    requires Retry(g, r, now).Some?
    ensures var g' := Retry(g, r, now).value;
            && g'.order == g.order && g'.nodes.Keys == g.nodes.Keys
            && g'.schedulerSequence == g.schedulerSequence && g'.quota == g.quota
            && (forall n :: n in g.nodes ==>
                  && g'.nodes[n].dependsOn == g.nodes[n].dependsOn
                  && g'.nodes[n].dispatchCount == g.nodes[n].dispatchCount
                  && g'.nodes[n].dispatchSequence == g.nodes[n].dispatchSequence
                  && g'.nodes[n].durationMs == g.nodes[n].durationMs)
            && (forall n :: Engaged(g', n) ==> Engaged(g, n))
            && (forall n :: HasStatus(g', n, Running) ==>
                  HasStatus(g, n, Running) && g'.nodes[n].writeScopes == g.nodes[n].writeScopes)
            && (forall n :: HasStatus(g, n, Completed) ==> HasStatus(g', n, Completed) && g'.nodes[n] == g.nodes[n])
  {
    RetryNodes(g, r, now);
    var g' := Retry(g, r, now).value;
    assert Unusable(g, r);
    assert g'.schedulerSequence == g.schedulerSequence && g'.quota == g.quota;
    hide Retry;
    forall n | n in g.nodes
      ensures && g'.nodes[n].dependsOn == g.nodes[n].dependsOn
              && g'.nodes[n].dispatchCount == g.nodes[n].dispatchCount
              && g'.nodes[n].dispatchSequence == g.nodes[n].dispatchSequence
              && g'.nodes[n].durationMs == g.nodes[n].durationMs
      ensures Engaged(g', n) ==> Engaged(g, n)
      ensures g'.nodes[n].status == Running ==> g.nodes[n].status == Running
      ensures g'.nodes[n].writeScopes == g.nodes[n].writeScopes
      ensures g.nodes[n].status == Completed ==> g'.nodes[n] == g.nodes[n]
    {
      assert g'.nodes[n] == RetriedNode(g, r, now, n);
    }
  }

  lemma {:induction false} RetryGood(g: Graph, r: NodeId, now: int, parallel: nat)
    requires Good(g, parallel) && Retry(g, r, now).Some?
    ensures Good(Retry(g, r, now).value, parallel) && KeepsCompleted(g, Retry(g, r, now).value)
  {
    var g' := Retry(g, r, now).value;
    RetryStatuses(g, r, now);
    RetryKeeps(g, r, now);
    hide Retry;
    assert BlocksJustified(g');
    assert KeepsCompleted(g, g');
    SameDependencies(g, g');
    hide BlocksJustified, KeepsCompleted, Shape, Unusable, Unfinished, WritersDisjoint;
    RetrySafe(g, g');
    WritersStep(g, g');
    CountersKept(g, g');
  }

  lemma {:induction false} RetrySafe(g: Graph, g': Graph)
    requires DependencySafe(g) && g'.nodes.Keys == g.nodes.Keys
    requires forall n :: n in g.nodes ==> g'.nodes[n].dependsOn == g.nodes[n].dependsOn
    requires forall n :: HasStatus(g, n, Completed) ==> HasStatus(g', n, Completed)
    requires forall n :: Engaged(g', n) ==> Engaged(g, n)
    ensures DependencySafe(g')
  {
    SafeStep(g, g');
  }

  /** The best batch of a marked graph may start. */
  lemma {:induction false} BatchIsReady(g: Graph, maxParallel: int)
    requires Shape(g) && maxParallel >= 1
    ensures ReadyBatch(g, Batch(g, maxParallel)) && |Batch(g, maxParallel)| <= maxParallel
  {
    hide NodesConflict, ReadyNodes;
    ShapeIsDistinct(g);
    BatchExact(g, maxParallel);
    BatchMembers(g, maxParallel);
  }

  /** A freshly started wave has no two nodes that may write the same file. */
  lemma {:induction false} RunningWritersDisjoint(g: Graph, batch: seq<NodeId>, w: WaveWorld)
    requires NoneRunning(g) && ReadyBatch(g, batch)
    ensures WritersDisjoint(Started(g, batch, w))
  {
    hide NodesConflict, PairwiseFree, IsReady;
    var s := Started(g, batch, w);
    StartedStatuses(g, batch, w);
    forall a, b | HasStatus(s, a, Running) && HasStatus(s, b, Running) && a != b
      ensures !ShareFile(s.nodes[a], s.nodes[b])
    {
      assert !HasStatus(g, a, Running) && !HasStatus(g, b, Running);
      assert a in batch && b in batch;
      StartedNode(g, batch, w, a);
      StartedNode(g, batch, w, b);
      SelectedDoNotConflict(g, batch, a, b);
      NoConflictNoCommonFile(g, a, b);
    }
  }

  lemma {:induction false} SelectedDoNotConflict(g: Graph, batch: seq<NodeId>, a: NodeId, b: NodeId)
    requires PairwiseFree(g, batch) && a in batch && b in batch && a != b
    ensures !NodesConflict(g, a, b)
  {
    hide NodesConflict;
    ConflictSymmetric(g, a, b);
    var i :| 0 <= i < |batch| && batch[i] == a;
    var j :| 0 <= j < |batch| && batch[j] == b;
    assert i < j ==> !NodesConflict(g, batch[j], batch[i]);
    assert j < i ==> !NodesConflict(g, batch[i], batch[j]);
  }

  lemma {:induction false} NoConflictNoCommonFile(g: Graph, a: NodeId, b: NodeId)
    requires a in g.nodes && b in g.nodes && !NodesConflict(g, a, b)
    ensures !ShareFile(g.nodes[a], g.nodes[b])
  {
    Scopes.NormalizeKeepsOverlap(g.nodes[a].writeScopes, g.nodes[b].writeScopes);
    Scopes.SetsOverlapIffCommonFile(g.nodes[a].writeScopes, g.nodes[b].writeScopes);
  }

  lemma {:induction false} ConflictSymmetric(g: Graph, a: NodeId, b: NodeId)
    ensures NodesConflict(g, a, b) <==> NodesConflict(g, b, a)
  {
    if a in g.nodes && b in g.nodes {
      Scopes.OverlapsSymmetric(Scopes.Normalize(g.nodes[a].writeScopes), Scopes.Normalize(g.nodes[b].writeScopes));
    }
  }

  /*--------------------------- whole runs, every state ------------------------*/

  lemma {:induction false} KeepsCompletedTransitive(a: Graph, b: Graph, c: Graph)
    requires KeepsCompleted(a, b) && KeepsCompleted(b, c)
    ensures KeepsCompleted(a, c)
  {
    forall n | HasStatus(a, n, Completed)
      ensures n in c.nodes && c.nodes[n] == a.nodes[n]
    {
      assert HasStatus(b, n, Completed);
    }
  }

  /** A change of version or quota flag. */
  lemma {:induction false} FlagsGood(g: Graph, g': Graph, parallel: nat)
    requires Good(g, parallel) && g' == g.(version := g'.version, quotaExhausted := g'.quotaExhausted)
    ensures Good(g', parallel) && KeepsCompleted(g, g')
  {
    SameDependencies(g, g');
    SafeStep(g, g');
    WritersStep(g, g');
    forall n | HasStatus(g', n, Blocked)
      ensures g'.nodes[n].failureKind == "dependency_failed" && HasUnusableDependency(g', n)
    {
      assert HasStatus(g, n, Blocked);
      var d :| d in g.nodes[n].dependsOn && Unusable(g, d);
      assert Unusable(g', d);
    }
  }

  lemma {:induction false} RoundGood(g: Graph, maxParallel: int, w: WaveWorld, parallel: nat)
    requires Good(g, parallel) && NoneRunning(g) && 1 <= maxParallel <= parallel
    ensures var g' := Round(g, maxParallel, w).0;
            Good(g', parallel) && KeepsCompleted(g, g')
  {
    hide Good, KeepsCompleted, Marked, Wave, Batch, NoneRunning, ReadyNodes;
    if QuotaFailure(g).Some? {
      FlagsGood(g, Round(g, maxParallel, w).0, parallel);
    } else {
      var m := Marked(g);
      MarkedGood(g, parallel);
      GoodShape(m, parallel);
      BatchMembers(m, maxParallel);
      var batch := Batch(m, maxParallel);
      if batch == [] {
        MarkingTwiceChangesNothing(g);
      } else {
        BatchIsReady(m, maxParallel);
        MarkedNodes(g);
        MarkedNoneRunning(g);
        WaveGood(m, batch, w, parallel);
        KeepsCompletedTransitive(g, m, Wave(m, batch, w));
      }
    }
  }

  lemma {:induction false} GoodShape(g: Graph, parallel: nat)
    requires Good(g, parallel)
    ensures Shape(g) && CoreGood(g, parallel)
  {
  }

  lemma {:induction false} WaveGood(g: Graph, batch: seq<NodeId>, w: WaveWorld, parallel: nat)
    requires Good(g, parallel) && NoneRunning(g) && ReadyBatch(g, batch) && QuotaFailure(g).None? && |batch| <= parallel
    ensures Good(Wave(g, batch, w), parallel) && KeepsCompleted(g, Wave(g, batch, w))
  {
    var s := Started(g, batch, w);
    var live := Live(g, batch, w.clock);
    var f := FinishAll(s, live, w.outcome);
    StartedGood(g, batch, w, parallel);
    WaveSettlesRunning(g, batch, w);
    hide Good, KeepsCompleted, Started, Live;
    SettledGood(s, live, w.outcome, parallel);
    FlagsGood(f, Bump(f), parallel);
    KeepsCompletedTransitive(g, s, f);
    KeepsCompletedTransitive(g, f, Bump(f));
  }

  /** A whole run keeps the invariant and never touches a completed node. */
  lemma {:induction false} RunGood(g: Graph, k: nat, maxWaves: int, maxParallel: int, world: nat -> WaveWorld,
          parallel: nat)
    requires Good(g, parallel) && NoneRunning(g) && 1 <= maxParallel <= parallel
    ensures var g' := RunFrom(g, k, maxWaves, maxParallel, world).0;
            Good(g', parallel) && KeepsCompleted(g, g')
    decreases maxWaves - k
  {
    hide Good, KeepsCompleted, Round, Marked, NoneRunning;
    if k >= maxWaves {
      MarkedGood(g, parallel);
    } else {
      var (g', stop) := Round(g, maxParallel, world(k));
      RoundGood(g, maxParallel, world(k), parallel);
      if stop.None? {
        GoodShape(g, parallel);
        RoundEnds(g, maxParallel, world(k));
        RunGood(g', k + 1, maxWaves, maxParallel, world, parallel);
        KeepsCompletedTransitive(g, g', RunFrom(g', k + 1, maxWaves, maxParallel, world).0);
      }
    }
  }

  /** What Good says about the counters, in plain terms. */
  lemma {:induction false} DispatchAccounting(g: Graph, parallel: nat)
    requires Good(g, parallel) && parallel >= 1
    ensures g.schedulerSequence == g.quota.usedAttempts == SumOver(g.order, g.nodes, Dispatches)
    ensures g.quota.usedRuntimeMs == SumOver(g.order, g.nodes, Duration)
    ensures g.quota.usedWaves <= g.quota.maxWaves
    ensures g.quota.usedAttempts <= g.quota.maxTotalAttempts + parallel - 1
    ensures forall m, n :: m in g.nodes && n in g.nodes && m != n && g.nodes[m].dispatchCount > 0 ==>
              g.nodes[m].dispatchSequence != g.nodes[n].dispatchSequence
  {
  }
}
