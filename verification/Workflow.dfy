/** The explicit workflow scheduler: failure propagation, ready order, batches,
    dispatch, settlement, quotas and manual retry
    (agent/app/subagent/workflow.py). */
module Workflow {
  import opened Ordering
  import opened Scopes
  import opened Dag

  datatype Status = Pending | Running | Completed | Failed | Blocked

  datatype Node = Node(
    title: string, prompt: string, dependsOn: seq<NodeId>, priority: int, deadline: Option<int>,
    maxAttempts: int, retrySafe: bool, declaredScopes: seq<string>, writeScopes: seq<WriteScope>,
    evidenceRefs: seq<string>,
    status: Status, attempts: nat, result: string, error: string, failureKind: string,
    effectState: string, dispatchCount: nat, dispatchSequence: nat, readySince: Option<int>,
    durationMs: nat)

  datatype Quota = Quota(maxWaves: nat, maxTotalAttempts: nat, maxRuntimeMs: nat,
                         usedWaves: nat, usedAttempts: nat, usedRuntimeMs: nat)

  /** order is the insertion order of the nodes dictionary. */
  datatype Graph = Graph(order: seq<NodeId>, nodes: map<NodeId, Node>, schedulerSequence: nat,
                         version: nat, quota: Quota, quotaExhausted: bool)

  function DepsOf(g: Graph): Deps {
    map n | n in g.nodes :: g.nodes[n].dependsOn
  }

  /** Ids are unique, dependencies exist and form no cycle. */
  ghost predicate Shape(g: Graph) {
    && Distinct(g.order)
    && (forall n :: n in g.order <==> n in g.nodes)
    && Closed(DepsOf(g))
    && (exists rank :: Ranked(DepsOf(g), rank))
  }

  predicate HasStatus(g: Graph, n: NodeId, s: Status) {
    n in g.nodes && g.nodes[n].status == s
  }

  predicate Unusable(g: Graph, n: NodeId) {
    HasStatus(g, n, Failed) || HasStatus(g, n, Blocked)
  }

  predicate DependenciesCompleted(g: Graph, n: NodeId)
    requires n in g.nodes
  {
    forall d :: d in g.nodes[n].dependsOn ==> HasStatus(g, d, Completed)
  }

  /*--------------------------- failure propagation ----------------------------*/

  predicate HasUnusableDependency(g: Graph, n: NodeId) {
    n in g.nodes && exists d :: d in g.nodes[n].dependsOn && Unusable(g, d)
  }

  function BlockNode(node: Node): Node {
    node.(status := Blocked, failureKind := "dependency_failed", error := "依赖节点未完成")
  }

  /** A dependency path through pending nodes that ends at a failed or blocked one. */
  ghost predicate FailurePath(g: Graph, p: seq<NodeId>) {
    && |p| >= 2 && IsPath(DepsOf(g), p)
    && (forall i :: 0 <= i < |p| - 1 ==> HasStatus(g, p[i], Pending))
    && Unusable(g, p[|p| - 1])
  }

  ghost predicate Doomed(g: Graph, n: NodeId) {
    exists p :: FailurePath(g, p) && p[0] == n
  }

  /** What failure propagation must produce, whatever order it visits nodes in. */
  ghost function Marked(g: Graph): Graph {
    g.(nodes := map n | n in g.nodes :: if Doomed(g, n) then BlockNode(g.nodes[n]) else g.nodes[n])
  }

  ghost predicate Saturated(g: Graph) {
    forall n :: n in g.nodes ==> Free(g, n)
  }

  predicate Free(g: Graph, n: NodeId) {
    HasStatus(g, n, Pending) ==> !HasUnusableDependency(g, n)
  }

  /** g blocks some of the doomed nodes of g0 and changes nothing else. */
  ghost predicate PartlyMarked(g0: Graph, g: Graph) {
    && g == g0.(nodes := g.nodes) && g.nodes.Keys == g0.nodes.Keys
    && forall n :: n in g0.nodes ==>
         g.nodes[n] == g0.nodes[n] || (Doomed(g0, n) && g.nodes[n] == BlockNode(g0.nodes[n]))
  }

  lemma {:induction false} ExtendFailurePath(g: Graph, n: NodeId, p: seq<NodeId>)
    requires HasStatus(g, n, Pending) && FailurePath(g, p) && p[0] in g.nodes[n].dependsOn
    ensures FailurePath(g, [n] + p)
  {
    var q := [n] + p;
    assert forall i :: 0 < i < |q| ==> q[i] == p[i - 1];
    forall i | 0 <= i < |q| - 1
      ensures q[i + 1] in DepsOf(g)[q[i]]
    {
      assert i > 0 ==> p[i] in DepsOf(g)[p[i - 1]];
    }
  }

  lemma {:induction false} UnusableDependencyDooms(g0: Graph, g: Graph, n: NodeId)
    requires PartlyMarked(g0, g) && HasStatus(g, n, Pending) && HasUnusableDependency(g, n)
    ensures Doomed(g0, n)
  {
    var d :| d in g.nodes[n].dependsOn && Unusable(g, d);
    if Unusable(g0, d) {
      var p := [n, d];
      assert p[1] in DepsOf(g0)[p[0]];
      assert FailurePath(g0, p);
    } else {
      assert Doomed(g0, d);
      var p :| FailurePath(g0, p) && p[0] == d;
      ExtendFailurePath(g0, n, p);
      assert ([n] + p)[0] == n;
    }
  }

  lemma {:induction false} SaturationBlocksPath(g0: Graph, g: Graph, p: seq<NodeId>)
    requires PartlyMarked(g0, g) && Saturated(g) && FailurePath(g0, p)
    ensures g.nodes[p[0]] == BlockNode(g0.nodes[p[0]])
    decreases |p|
  {
    assert p[1] in DepsOf(g0)[p[0]];
    assert Unusable(g, p[1]) by {
      if |p| > 2 {
        var q := p[1..];
        assert q[|q| - 1] == p[|p| - 1];
        assert FailurePath(g0, q);
        SaturationBlocksPath(g0, g, q);
      }
    }
    assert HasStatus(g0, p[0], Pending);
    assert HasUnusableDependency(g, p[0]);
  }

  /** Any saturated partial marking is the marking: the fixpoint is unique. */
  lemma {:induction false} MarkingIsUnique(g0: Graph, g: Graph)
    requires PartlyMarked(g0, g) && Saturated(g)
    ensures g == Marked(g0)
  {
    forall n | n in g0.nodes
      ensures g.nodes[n] == Marked(g0).nodes[n]
    {
      if Doomed(g0, n) {
        var p :| FailurePath(g0, p) && p[0] == n;
        SaturationBlocksPath(g0, g, p);
      }
    }
    assert g.nodes == Marked(g0).nodes;
  }

  /*------------------------------- ready order --------------------------------*/

  predicate IsReady(g: Graph, n: NodeId) {
    HasStatus(g, n, Pending) && DependenciesCompleted(g, n)
  }

  /** The sort key of a ready node. */
  datatype Rank = Rank(dispatchCount: nat, priority: int, deadline: Option<int>, readySince: int, id: NodeId)

  predicate DeadlineLess(a: Option<int>, b: Option<int>) {
    a.Some? && (b.None? || a.value < b.value)
  }

  predicate RankLeq(a: Rank, b: Rank) {
    if a.dispatchCount != b.dispatchCount then a.dispatchCount < b.dispatchCount
    else if a.priority != b.priority then a.priority > b.priority
    else if a.deadline != b.deadline then DeadlineLess(a.deadline, b.deadline)
    else if a.readySince != b.readySince then a.readySince < b.readySince
    else StrLeq(a.id, b.id)
  }

  function RankOf(g: Graph, n: NodeId): Rank
    requires n in g.nodes
  {
    var node := g.nodes[n];
    Rank(node.dispatchCount, node.priority, node.deadline,
         if node.readySince.Some? then node.readySince.value else 0, n)
  }

  function ReadyIds(g: Graph): seq<NodeId> {
    Filter(g.order, n => IsReady(g, n))
  }

  function RanksOf(g: Graph, ids: seq<NodeId>): (ranks: seq<Rank>)
    requires forall n :: n in ids ==> n in g.nodes
    ensures |ranks| == |ids|
    ensures forall i :: 0 <= i < |ids| ==> ranks[i] == RankOf(g, ids[i])
  {
    seq(|ids|, i requires 0 <= i < |ids| => RankOf(g, ids[i]))
  }

  function ReadyNodes(g: Graph): seq<Rank> {
    Sort(RanksOf(g, ReadyIds(g)), RankLeq)
  }

  lemma {:induction false} RankLeqTotalPreorder()
    ensures TotalPreorder(RankLeq)
  {
    forall a, b
      ensures RankLeq(a, b) || RankLeq(b, a)
    {
      StrLeqTotal(a.id, b.id);
    }
    forall a, b, c | RankLeq(a, b) && RankLeq(b, c)
      ensures RankLeq(a, c)
    {
      if a.id == b.id || b.id == c.id {
        StrLeqTotal(a.id, c.id);
      }
      if StrLeq(a.id, b.id) && StrLeq(b.id, c.id) {
        StrLeqTransitive(a.id, b.id, c.id);
      }
    }
  }

  /** The ready list holds exactly the ready nodes, best rank first. */
  lemma {:induction false} ReadyNodesExact(g: Graph)
    ensures SortedBy(ReadyNodes(g), RankLeq)
    ensures forall r :: r in ReadyNodes(g) ==> IsReady(g, r.id) && r == RankOf(g, r.id)
    ensures forall n :: n in g.order && IsReady(g, n) ==> RankOf(g, n) in ReadyNodes(g)
  {
    hide RankLeq, Sort, SortedBy, RankOf;
    RankLeqTotalPreorder();
    SortSorted(RanksOf(g, ReadyIds(g)), RankLeq);
    SortMembers(RanksOf(g, ReadyIds(g)), RankLeq);
    RanksExact(g);
  }

  lemma {:induction false} RanksExact(g: Graph)
    ensures forall r :: r in RanksOf(g, ReadyIds(g)) ==> IsReady(g, r.id) && r == RankOf(g, r.id)
    ensures forall n :: n in g.order && IsReady(g, n) ==> RankOf(g, n) in RanksOf(g, ReadyIds(g))
  {
    var ids := ReadyIds(g);
    var ranks := RanksOf(g, ids);
    forall r | r in ranks
      ensures IsReady(g, r.id) && r == RankOf(g, r.id)
    {
      var i :| 0 <= i < |ranks| && ranks[i] == r;
      assert ids[i] in ids;
    }
    forall n | n in g.order && IsReady(g, n)
      ensures RankOf(g, n) in ranks
    {
      var i :| 0 <= i < |ids| && ids[i] == n;
      assert ranks[i] == RankOf(g, n);
    }
  }

  /*--------------------------------- batches ----------------------------------*/

  /** write_scope_sets_overlap on the scopes of two nodes. */
  predicate NodesConflict(g: Graph, a: NodeId, b: NodeId) {
    a in g.nodes && b in g.nodes
    && ScopeSetsOverlap(Normalize(g.nodes[a].writeScopes), Normalize(g.nodes[b].writeScopes))
  }

  predicate ConflictsWithAny(g: Graph, n: NodeId, selected: seq<NodeId>) {
    exists o :: o in selected && NodesConflict(g, n, o)
  }

  function Greedy(g: Graph, ready: seq<Rank>, selected: seq<NodeId>, maxParallel: int): seq<NodeId> {
    if ready == [] || |selected| >= maxParallel then selected
    else if ConflictsWithAny(g, ready[0].id, selected) then Greedy(g, ready[1..], selected, maxParallel)
    else Greedy(g, ready[1..], selected + [ready[0].id], maxParallel)
  }

  function Batch(g: Graph, maxParallel: int): seq<NodeId> {
    Greedy(g, ReadyNodes(g), [], maxParallel)
  }

  method NonConflictingBatch(g: Graph, ready: seq<Rank>, maxParallel: int) returns (selected: seq<NodeId>)
    ensures selected == Greedy(g, ready, [], maxParallel)
  {
    hide ConflictsWithAny;
    selected := [];
    var i := 0;
    while i < |ready| && |selected| < maxParallel
      invariant 0 <= i <= |ready|
      invariant Greedy(g, ready[i..], selected, maxParallel) == Greedy(g, ready, [], maxParallel)
    {
      assert ready[i..][1..] == ready[i + 1..];
      if !ConflictsWithAny(g, ready[i].id, selected) {
        selected := selected + [ready[i].id];
      }
      i := i + 1;
    }
  }

  ghost predicate PairwiseFree(g: Graph, ids: seq<NodeId>) {
    forall i, j :: 0 <= i < j < |ids| ==> !NodesConflict(g, ids[j], ids[i])
  }

  predicate OtherId(a: Rank, b: Rank) { a.id != b.id }

  lemma {:induction false} TailHasOtherIds(ready: seq<Rank>)
    requires ready != [] && SortedBy(ready, OtherId)
    ensures SortedBy(ready[1..], OtherId)
    ensures forall r :: r in ready[1..] ==> r in ready && r.id != ready[0].id
  {
    forall r | r in ready[1..]
      ensures r.id != ready[0].id
    {
      var k :| 0 <= k < |ready[1..]| && ready[1..][k] == r;
      assert OtherId(ready[0], ready[k + 1]);
    }
  }

  lemma {:induction false} SelectFree(g: Graph, n: NodeId, selected: seq<NodeId>)
    requires PairwiseFree(g, selected) && Distinct(selected) && n !in selected && !ConflictsWithAny(g, n, selected)
    ensures PairwiseFree(g, selected + [n]) && Distinct(selected + [n])
  {
    hide NodesConflict;
    forall i | 0 <= i < |selected|
      ensures !NodesConflict(g, n, selected[i])
    {
      assert selected[i] in selected;
    }
  }

  /** A batch extends what is selected by ready nodes without conflicts or
      repetition, and stays within the parallel limit. */
  lemma {:induction false} GreedySafe(g: Graph, ready: seq<Rank>, selected: seq<NodeId>, maxParallel: int)
    requires PairwiseFree(g, selected) && Distinct(selected) && SortedBy(ready, OtherId)
    requires forall r :: r in ready ==> r.id !in selected
    ensures var b := Greedy(g, ready, selected, maxParallel);
            && PairwiseFree(g, b) && Distinct(b) && selected <= b
            && (|b| <= maxParallel || b == selected)
            && (forall n :: n in b ==> n in selected || exists r :: r in ready && r.id == n)
    decreases |ready|
  {
    hide NodesConflict, PairwiseFree, Distinct, ConflictsWithAny, SortedBy;
    if ready != [] && |selected| < maxParallel {
      TailHasOtherIds(ready);
      if ConflictsWithAny(g, ready[0].id, selected) {
        GreedySafe(g, ready[1..], selected, maxParallel);
      } else {
        SelectFree(g, ready[0].id, selected);
        GreedySafe(g, ready[1..], selected + [ready[0].id], maxParallel);
      }
    }
  }

  lemma {:induction false} ReadyIdsDistinct(g: Graph)
    requires Distinct(g.order)
    ensures SortedBy(ReadyNodes(g), OtherId)
  {
    var ids := ReadyIds(g);
    FilterSorted(g.order, n => IsReady(g, n), (a: NodeId, b: NodeId) => a != b);
    var ranks := RanksOf(g, ids);
    assert Distinct(ranks) by {
      forall i, j | 0 <= i < j < |ranks|
        ensures ranks[i] != ranks[j]
      {
        assert ids[i] != ids[j];
        assert ranks[i].id == ids[i] && ranks[j].id == ids[j];
      }
    }
    SortDistinct(ranks, RankLeq);
    ReadyNodesExact(g);
    var ready := ReadyNodes(g);
    forall i, j | 0 <= i < j < |ready|
      ensures OtherId(ready[i], ready[j])
    {
      assert ready[i] in ready && ready[j] in ready;
      assert ready[i] != ready[j];
    }
  }

  lemma {:induction false} BestReadyIsSelected(g: Graph, ready: seq<Rank>, maxParallel: int)
    requires maxParallel >= 1 && ready != []
    ensures Greedy(g, ready, [], maxParallel) == Greedy(g, ready[1..], [ready[0].id], maxParallel)
  {
    assert [] + [ready[0].id] == [ready[0].id];
  }

  lemma {:induction false} BatchStartsWithBest(g: Graph, maxParallel: int)
    requires Distinct(g.order) && maxParallel >= 1 && ReadyNodes(g) != []
    ensures Batch(g, maxParallel) != [] && Batch(g, maxParallel)[0] == ReadyNodes(g)[0].id
    ensures |Batch(g, maxParallel)| <= maxParallel
  {
    hide NodesConflict, ReadyNodes;
    var ready := ReadyNodes(g);
    ReadyIdsDistinct(g);
    var first := [ready[0].id];
    BestReadyIsSelected(g, ready, maxParallel);
    TailHasOtherIds(ready);
    GreedySafe(g, ready[1..], first, maxParallel);
  }

  /** A batch runs ready nodes whose write scopes share no file, at most
      maxParallel of them, and always the best-ranked ready node. */
  lemma {:induction false} BatchExact(g: Graph, maxParallel: int)
    requires Distinct(g.order) && maxParallel >= 1
    ensures var b := Batch(g, maxParallel);
            && PairwiseFree(g, b) && Distinct(b) && |b| <= maxParallel
            && (forall n :: n in b ==> IsReady(g, n))
            && (b == [] <==> ReadyNodes(g) == [])
            && (b != [] ==> b[0] == ReadyNodes(g)[0].id)
  {
    hide NodesConflict, ReadyNodes;
    ReadyIdsDistinct(g);
    ReadyNodesExact(g);
    GreedySafe(g, ReadyNodes(g), [], maxParallel);
    if ReadyNodes(g) != [] {
      BatchStartsWithBest(g, maxParallel);
    }
  }

  /*---------------------------- dispatch and settle ---------------------------*/

  /** What the child agent reports for one attempt. */
  datatype Outcome = Outcome(isError: bool, content: string, failureKind: string, retryable: bool,
                             toolState: string, elapsedMs: int, finishedAt: int)

  /** The clock readings and agent results of one wave. */
  datatype WaveWorld = WaveWorld(clock: NodeId -> int, outcome: NodeId -> Outcome)

  predicate Expired(node: Node, now: int) {
    node.deadline.Some? && now >= node.deadline.value
  }

  function ExpireNode(node: Node): Node {
    node.(status := Failed, failureKind := "deadline_exceeded", error := "节点 deadline 已过期", effectState := "not_started")
  }

  function StartNode(node: Node, sequence: nat): Node {
    node.(status := Running, attempts := node.attempts + 1, dispatchCount := node.dispatchCount + 1,
          dispatchSequence := sequence, effectState := "prepared")
  }

  function DispatchOne(g: Graph, n: NodeId, now: int): Graph
    requires n in g.nodes
  {
    if Expired(g.nodes[n], now) then g.(nodes := g.nodes[n := ExpireNode(g.nodes[n])])
    else
      g.(schedulerSequence := g.schedulerSequence + 1,
         quota := g.quota.(usedAttempts := g.quota.usedAttempts + 1),
         nodes := g.nodes[n := StartNode(g.nodes[n], g.schedulerSequence + 1)])
  }

  function DispatchAll(g: Graph, batch: seq<NodeId>, clock: NodeId -> int): (r: Graph)
    requires forall n :: n in batch ==> n in g.nodes
    ensures r.nodes.Keys == g.nodes.Keys && r.order == g.order
  {
    if batch == [] then g
    else
      var last := |batch| - 1;
      DispatchOne(DispatchAll(g, batch[..last], clock), batch[last], clock(batch[last]))
  }

  function Live(g: Graph, batch: seq<NodeId>, clock: NodeId -> int): set<NodeId> {
    set n | n in batch && n in g.nodes && !Expired(g.nodes[n], clock(n))
  }

  function Elapsed(o: Outcome): nat {
    if o.elapsedMs < 1 then 1 else o.elapsedMs
  }

  predicate SafeRetry(node: Node, o: Outcome) {
    node.retrySafe && o.retryable && o.toolState in {"not_started", "completed"} && node.attempts < node.maxAttempts
  }

  function Settle(node: Node, o: Outcome): Node {
    var timed := node.(durationMs := node.durationMs + Elapsed(o));
    if !o.isError then
      timed.(status := Completed, result := o.content, error := "", failureKind := "", effectState := "committed")
    else
      timed.(status := if SafeRetry(node, o) then Pending else Failed,
             error := o.content,
             failureKind := if o.failureKind == "" then "agent_failed" else o.failureKind,
             effectState := if o.toolState == "" then "unknown" else o.toolState,
             readySince := if SafeRetry(node, o) then Some(o.finishedAt) else node.readySince)
  }

  function FinishOne(g: Graph, n: NodeId, o: Outcome): Graph
    requires n in g.nodes
  {
    g.(nodes := g.nodes[n := Settle(g.nodes[n], o)],
       quota := g.quota.(usedRuntimeMs := g.quota.usedRuntimeMs + Elapsed(o)))
  }

  function SumElapsed(order: seq<NodeId>, done: set<NodeId>, outcome: NodeId -> Outcome): nat {
    if order == [] then 0
    else (if order[0] in done then Elapsed(outcome(order[0])) else 0) + SumElapsed(order[1..], done, outcome)
  }

  /** All attempts in done have returned, in whatever order. */
  function FinishAll(g: Graph, done: set<NodeId>, outcome: NodeId -> Outcome): Graph {
    g.(nodes := map n | n in g.nodes :: if n in done then Settle(g.nodes[n], outcome(n)) else g.nodes[n],
       quota := g.quota.(usedRuntimeMs := g.quota.usedRuntimeMs + SumElapsed(g.order, done, outcome)))
  }

  lemma {:induction false} SumElapsedExtend(order: seq<NodeId>, done: set<NodeId>, n: NodeId,
          outcome: NodeId -> Outcome)
    requires Distinct(order) && n !in done
    ensures SumElapsed(order, done + {n}, outcome)
         == SumElapsed(order, done, outcome) + if n in order then Elapsed(outcome(n)) else 0
  {
    if order != [] {
      SumElapsedExtend(order[1..], done, n, outcome);
      assert order == [order[0]] + order[1..];
      assert order[0] == n ==> n !in order[1..];
    }
  }

  /** One more completion extends the settled set, whichever it is. */
  lemma {:induction false} FinishExtends(g: Graph, done: set<NodeId>, n: NodeId, outcome: NodeId -> Outcome)
    requires Distinct(g.order) && n in g.order && n in g.nodes && n !in done
    ensures FinishOne(FinishAll(g, done, outcome), n, outcome(n)) == FinishAll(g, done + {n}, outcome)
  {
    SumElapsedExtend(g.order, done, n, outcome);
    var a := FinishOne(FinishAll(g, done, outcome), n, outcome(n));
    var b := FinishAll(g, done + {n}, outcome);
    assert a.nodes == b.nodes;
  }

  lemma {:induction false} SumElapsedNone(order: seq<NodeId>, outcome: NodeId -> Outcome)
    ensures SumElapsed(order, {}, outcome) == 0
  {
    if order != [] {
      SumElapsedNone(order[1..], outcome);
    }
  }

  lemma {:induction false} FinishNothing(g: Graph, outcome: NodeId -> Outcome)
    ensures FinishAll(g, {}, outcome) == g
  {
    SumElapsedNone(g.order, outcome);
    assert FinishAll(g, {}, outcome).nodes == g.nodes;
  }

  /*------------------------------------ run -----------------------------------*/

  datatype QuotaDimension = Waves | Attempts | Runtime

  datatype Stop = QuotaExhausted(dimension: QuotaDimension) | OutOfWaves | NothingReady

  function QuotaFailure(g: Graph): Option<QuotaDimension> {
    if g.quota.usedWaves >= g.quota.maxWaves then Some(Waves)
    else if g.quota.usedAttempts >= g.quota.maxTotalAttempts then Some(Attempts)
    else if g.quota.usedRuntimeMs >= g.quota.maxRuntimeMs then Some(Runtime)
    else None
  }

  function Bump(g: Graph): Graph {
    g.(version := g.version + 1)
  }

  function OpenWave(g: Graph): Graph {
    g.(quota := g.quota.(usedWaves := g.quota.usedWaves + 1))
  }

  /** The graph at the wave_started checkpoint. */
  function Started(g: Graph, batch: seq<NodeId>, w: WaveWorld): Graph
    requires forall n :: n in batch ==> n in g.nodes
  {
    Bump(DispatchAll(OpenWave(g), batch, w.clock))
  }

  function Wave(g: Graph, batch: seq<NodeId>, w: WaveWorld): Graph
    requires forall n :: n in batch ==> n in g.nodes
  {
    Bump(FinishAll(Started(g, batch, w), Live(g, batch, w.clock), w.outcome))
  }

  lemma {:induction false} GreedyMembers(g: Graph, ready: seq<Rank>, selected: seq<NodeId>, maxParallel: int)
    requires forall r :: r in ready ==> r.id in g.nodes
    requires forall n :: n in selected ==> n in g.nodes
    ensures forall n :: n in Greedy(g, ready, selected, maxParallel) ==> n in g.nodes
    decreases |ready|
  {
    if ready != [] && |selected| < maxParallel {
      assert ready[0] in ready;
      if ConflictsWithAny(g, ready[0].id, selected) {
        GreedyMembers(g, ready[1..], selected, maxParallel);
      } else {
        GreedyMembers(g, ready[1..], selected + [ready[0].id], maxParallel);
      }
    }
  }

  lemma {:induction false} BatchMembers(g: Graph, maxParallel: int)
    ensures forall n :: n in Batch(g, maxParallel) ==> n in g.nodes
  {
    ReadyNodesExact(g);
    GreedyMembers(g, ReadyNodes(g), [], maxParallel);
  }

  /** One round of the run loop; a Stop ends it. */
  ghost function Round(g: Graph, maxParallel: int, w: WaveWorld): (Graph, Option<Stop>) {
    if QuotaFailure(g).Some? then (Bump(g.(quotaExhausted := true)), Some(QuotaExhausted(QuotaFailure(g).value)))
    else
      var m := Marked(g);
      var batch := Batch(m, maxParallel);
      BatchMembers(m, maxParallel);
      if batch == [] then (Marked(m), Some(NothingReady)) else (Wave(m, batch, w), None)
  }

  /** The run loop from wave number k on. */
  ghost function RunFrom(g: Graph, k: nat, maxWaves: int, maxParallel: int, world: nat -> WaveWorld): (Graph, Stop)
    decreases maxWaves - k
  {
    if k >= maxWaves then (Marked(g), OutOfWaves)
    else
      var (g', stop) := Round(g, maxParallel, world(k));
      if stop.Some? then (g', stop.value) else RunFrom(g', k + 1, maxWaves, maxParallel, world)
  }

  lemma {:induction false} MarkedQuota(g: Graph)
    ensures Marked(g).quota == g.quota
  {
  }

  /** A round uses one wave, or it stops the run for a reason of its own. */
  lemma {:induction false} RoundWaves(g: Graph, maxParallel: int, w: WaveWorld)
    ensures var (g', stop) := Round(g, maxParallel, w);
            && g'.quota.usedWaves == g.quota.usedWaves + (if stop.None? then 1 else 0)
            && stop != Some(OutOfWaves)
  {
    hide Batch, Marked, FinishAll, DispatchAll;
    if QuotaFailure(g).None? {
      var m := Marked(g);
      MarkedQuota(g);
      MarkedQuota(m);
      BatchMembers(m, maxParallel);
      var batch := Batch(m, maxParallel);
      DispatchQuota(OpenWave(m), batch, w.clock);
      FinishKeepsWaves(Started(m, batch, w), Live(m, batch, w.clock), w.outcome);
    }
  }

  lemma {:induction false} FinishKeepsWaves(g: Graph, done: set<NodeId>, outcome: NodeId -> Outcome)
    ensures FinishAll(g, done, outcome).quota.usedWaves == g.quota.usedWaves
  {
  }

  /*----------------------------------- retry ----------------------------------*/

  function RequeueNode(node: Node, now: int): Node {
    node.(status := Pending, attempts := 0, error := "", failureKind := "", effectState := "not_started",
          readySince := Some(now))
  }

  function ResetNode(node: Node): Node {
    if node.status == Blocked && node.failureKind == "dependency_failed"
    then node.(status := Pending, error := "", failureKind := "")
    else node
  }

  /** The nodes with the given ones reset. */
  function ResetSome(nodes: map<NodeId, Node>, done: seq<NodeId>): map<NodeId, Node> {
    map n | n in nodes :: if n in done then ResetNode(nodes[n]) else nodes[n]
  }

  lemma {:induction false} ResetNone(nodes: map<NodeId, Node>)
    ensures ResetSome(nodes, []) == nodes
  {
  }

  lemma {:induction false} ResetNext(nodes: map<NodeId, Node>, done: seq<NodeId>, n: NodeId)
    requires n in nodes && n !in done
    ensures n in ResetSome(nodes, done)
    ensures ResetSome(nodes, done)[n := ResetNode(ResetSome(nodes, done)[n])] == ResetSome(nodes, done + [n])
  {
    hide ResetNode;
  }

  lemma {:induction false} ResetAll(g: Graph, order: seq<NodeId>)
    requires forall n :: n in g.nodes ==> n in order
    ensures ResetSome(g.nodes, order) == ResetBlocks(g).nodes
  {
    hide ResetNode;
  }

  lemma {:induction false} DistinctAt(order: seq<NodeId>, i: nat)
    requires Distinct(order) && i < |order|
    ensures order[i] in order && order[i] !in order[..i]
  {
  }

  function ResetBlocks(g: Graph): Graph {
    g.(nodes := map n | n in g.nodes :: ResetNode(g.nodes[n]))
  }

  /** A failed or blocked node is queued again; anything else is refused. */
  function Retry(g: Graph, n: NodeId, now: int): Option<Graph> {
    if !Unusable(g, n) then None
    else
      var requeued := g.(nodes := g.nodes[n := RequeueNode(g.nodes[n], now)], quotaExhausted := false);
      Some(Bump(ResetBlocks(requeued)))
  }

  /*------------------------- shape through the operations ----------------------*/

  lemma {:induction false} SameDependencies(g: Graph, g': Graph)
    requires Shape(g) && g'.order == g.order && g'.nodes.Keys == g.nodes.Keys
    requires forall n :: n in g.nodes ==> g'.nodes[n].dependsOn == g.nodes[n].dependsOn
    ensures DepsOf(g') == DepsOf(g) && Shape(g')
  {
    assert DepsOf(g') == DepsOf(g);
  }

  lemma {:induction false} MarkedShape(g: Graph)
    requires Shape(g)
    ensures Shape(Marked(g))
  {
    SameDependencies(g, Marked(g));
  }

  /** What dispatching does to one node. */
  ghost predicate Dispatched(before: Node, after: Node, inBatch: bool, now: int) {
    if !inBatch then after == before
    else if Expired(before, now) then after == ExpireNode(before)
    else after == StartNode(before, after.dispatchSequence)
  }

  lemma {:induction false} DispatchEffect(g: Graph, batch: seq<NodeId>, clock: NodeId -> int)
    requires Distinct(batch) && forall n :: n in batch ==> n in g.nodes
    ensures forall n :: n in g.nodes ==>
              Dispatched(g.nodes[n], DispatchAll(g, batch, clock).nodes[n], n in batch, clock(n))
  {
    if batch != [] {
      var last := |batch| - 1;
      var b := batch[last];
      DispatchEffect(g, batch[..last], clock);
      assert batch == batch[..last] + [b];
      assert b !in batch[..last];
      var r := DispatchAll(g, batch[..last], clock);
      assert Dispatched(g.nodes[b], r.nodes[b], false, clock(b));
      forall n | n in g.nodes
        ensures Dispatched(g.nodes[n], DispatchAll(g, batch, clock).nodes[n], n in batch, clock(n))
      {
        assert Dispatched(g.nodes[n], r.nodes[n], n in batch[..last], clock(n));
        if n != b {
          assert n in batch <==> n in batch[..last];
        }
      }
    }
  }

  lemma {:induction false} DispatchQuota(g: Graph, batch: seq<NodeId>, clock: NodeId -> int)
    requires forall n :: n in batch ==> n in g.nodes
    ensures var r := DispatchAll(g, batch, clock);
            && g.quota.usedAttempts <= r.quota.usedAttempts <= g.quota.usedAttempts + |batch|
            && r.quota == g.quota.(usedAttempts := r.quota.usedAttempts)
            && r.version == g.version && r.quotaExhausted == g.quotaExhausted
  {
    if batch != [] {
      DispatchQuota(g, batch[..|batch| - 1], clock);
    }
  }

  lemma {:induction false} StartedShape(g: Graph, batch: seq<NodeId>, w: WaveWorld)
    requires Shape(g) && Distinct(batch) && forall n :: n in batch ==> n in g.nodes
    ensures Shape(Started(g, batch, w))
  {
    var o := OpenWave(g);
    DispatchEffect(o, batch, w.clock);
    forall n | n in g.nodes
      ensures Started(g, batch, w).nodes[n].dependsOn == g.nodes[n].dependsOn
    {
      assert Dispatched(o.nodes[n], DispatchAll(o, batch, w.clock).nodes[n], n in batch, w.clock(n));
    }
    SameDependencies(g, Started(g, batch, w));
  }

  lemma {:induction false} FinishShape(g: Graph, done: set<NodeId>, outcome: NodeId -> Outcome)
    requires Shape(g)
    ensures Shape(FinishAll(g, done, outcome))
  {
    SameDependencies(g, FinishAll(g, done, outcome));
  }

  lemma {:induction false} WaveShape(g: Graph, batch: seq<NodeId>, w: WaveWorld)
    requires Shape(g) && Distinct(batch) && forall n :: n in batch ==> n in g.nodes
    ensures Shape(Wave(g, batch, w))
  {
    StartedShape(g, batch, w);
    var f := FinishAll(Started(g, batch, w), Live(g, batch, w.clock), w.outcome);
    FinishShape(Started(g, batch, w), Live(g, batch, w.clock), w.outcome);
    SameDependencies(f, Bump(f));
  }

  lemma {:induction false} LiveDependsOnNodes(g: Graph, g': Graph, batch: seq<NodeId>, clock: NodeId -> int)
    requires g.nodes == g'.nodes
    ensures Live(g, batch, clock) == Live(g', batch, clock)
  {
  }

  /** One step of the dispatch loop. */
  lemma {:induction false} DispatchExtends(g: Graph, batch: seq<NodeId>, i: nat, clock: NodeId -> int)
    requires Distinct(batch) && i <= |batch| && forall n :: n in batch ==> n in g.nodes
    ensures i == 0 ==> DispatchAll(g, batch[..i], clock) == g && Live(g, batch[..i], clock) == {}
    ensures i < |batch| ==>
              var n := batch[i];
              && DispatchAll(g, batch[..i], clock).nodes[n] == g.nodes[n]
              && DispatchAll(g, batch[..i + 1], clock) == DispatchOne(DispatchAll(g, batch[..i], clock), n, clock(n))
              && Live(g, batch[..i + 1], clock)
                 == Live(g, batch[..i], clock) + if Expired(g.nodes[n], clock(n)) then {} else {n}
  {
    if i < |batch| {
      var n := batch[i];
      assert batch[..i + 1][..i] == batch[..i];
      assert batch[..i + 1] == batch[..i] + [n];
      assert n !in batch[..i];
      DispatchEffect(g, batch[..i], clock);
      assert Dispatched(g.nodes[n], DispatchAll(g, batch[..i], clock).nodes[n], false, clock(n));
    }
  }

  lemma {:induction false} LiveMembers(g: Graph, batch: seq<NodeId>, w: WaveWorld)
    requires forall n :: n in batch ==> n in g.nodes
    ensures Live(g, batch, w.clock) <= Started(g, batch, w).nodes.Keys
  {
  }

  lemma {:induction false} ShapeIsDistinct(g: Graph)
    requires Shape(g)
    ensures Distinct(g.order) && forall n :: n in g.order <==> n in g.nodes
  {
  }

  lemma {:induction false} BatchDistinct(g: Graph, maxParallel: int)
    requires Distinct(g.order)
    ensures Distinct(Batch(g, maxParallel)) && PairwiseFree(g, Batch(g, maxParallel))
  {
    ReadyIdsDistinct(g);
    GreedySafe(g, ReadyNodes(g), [], maxParallel);
  }

  lemma {:induction false} BlockingShrinksPending(g: Graph, n: NodeId)
    requires HasStatus(g, n, Pending)
    ensures PendingNodes(g.(nodes := g.nodes[n := BlockNode(g.nodes[n])])) < PendingNodes(g)
  {
    assert n in PendingNodes(g);
    assert n !in PendingNodes(g.(nodes := g.nodes[n := BlockNode(g.nodes[n])]));
  }

  function PendingNodes(g: Graph): set<NodeId> {
    set n | n in g.nodes && g.nodes[n].status == Pending
  }

  /*-------------------------------- the manager -------------------------------*/

  class WorkflowRun {
    var order: seq<NodeId>
    var nodes: map<NodeId, Node>
    var schedulerSequence: nat
    var version: nat
    var quota: Quota
    var quotaExhausted: bool

    function State(): Graph
      reads this
    {
      Graph(order, nodes, schedulerSequence, version, quota, quotaExhausted)
    }

    ghost predicate Valid()
      reads this
    {
      Shape(State())
    }

    constructor (g: Graph)
      ensures State() == g
    {
      order, nodes, schedulerSequence := g.order, g.nodes, g.schedulerSequence;
      version, quota, quotaExhausted := g.version, g.quota, g.quotaExhausted;
    }

    method MarkDependencyBlocks()
      requires Valid()
      modifies this`nodes
      ensures State() == Marked(old(State()))
    {
      ghost var g0 := State();
      var changed := true;
      while changed
        invariant PartlyMarked(g0, State()) && forall n :: n in order <==> n in nodes
        invariant !changed ==> Saturated(State())
        decreases PendingNodes(State()), changed
      {
        changed := MarkPass(g0);
      }
      MarkingIsUnique(g0, State());
    }

    /** One pass over all nodes. */
    method MarkPass(ghost g0: Graph) returns (changed: bool)
      requires PartlyMarked(g0, State()) && forall n :: n in order <==> n in nodes
      modifies this`nodes
      ensures PartlyMarked(g0, State()) && nodes.Keys == old(nodes.Keys)
      ensures !changed ==> State() == old(State()) && Saturated(State())
      ensures changed ==> PendingNodes(State()) < PendingNodes(old(State()))
    {
      hide PartlyMarked, HasUnusableDependency, PendingNodes;
      changed := false;
      for i := 0 to |order|
        invariant PartlyMarked(g0, State()) && nodes.Keys == old(nodes.Keys)
        invariant !changed ==> State() == old(State()) && forall n :: n in order[..i] ==> Free(State(), n)
        invariant changed ==> PendingNodes(State()) < PendingNodes(old(State()))
      {
        assert order[..i + 1] == order[..i] + [order[i]];
        var hit := MarkOne(g0, order[i]);
        changed := changed || hit;
      }
      assert order[..|order|] == order;
    }

    method MarkOne(ghost g0: Graph, n: NodeId) returns (hit: bool)
      requires PartlyMarked(g0, State()) && n in nodes
      modifies this`nodes
      ensures PartlyMarked(g0, State()) && nodes.Keys == old(nodes.Keys)
      ensures !hit ==> State() == old(State()) && Free(State(), n)
      ensures hit ==> PendingNodes(State()) < PendingNodes(old(State()))
    {
      hide Doomed, HasUnusableDependency, PendingNodes;
      hit := nodes[n].status == Pending && HasUnusableDependency(State(), n);
      if hit {
        UnusableDependencyDooms(g0, State(), n);
        BlockingShrinksPending(State(), n);
        nodes := nodes[n := BlockNode(nodes[n])];
      }
    }

    method RunWaves(maxWaves: int, maxParallel: int, world: nat -> WaveWorld) returns (stop: Stop, waves: nat)
      requires Valid()
      modifies this
      ensures (State(), stop) == RunFrom(old(State()), 0, maxWaves, maxParallel, world)
      ensures quota.usedWaves == old(quota.usedWaves) + waves && waves <= Max(maxWaves, 0)
      ensures stop == OutOfWaves <==> waves >= maxWaves
    {
      hide Round, Shape, Marked;
      ghost var g0 := State();
      waves := 0;
      while waves < maxWaves
        invariant Shape(State())
        invariant RunFrom(State(), waves, maxWaves, maxParallel, world) == RunFrom(g0, 0, maxWaves, maxParallel, world)
        invariant quota.usedWaves == old(quota.usedWaves) + waves && waves <= Max(maxWaves, 0)
        decreases maxWaves - waves
      {
        RoundWaves(State(), maxParallel, world(waves));
        var ended := RunRound(maxParallel, world(waves));
        if ended.Some? {
          return ended.value, waves;
        }
        waves := waves + 1;
      }
      MarkedQuota(State());
      MarkDependencyBlocks();
      stop := OutOfWaves;
    }

    method RunRound(maxParallel: int, w: WaveWorld) returns (ended: Option<Stop>)
      requires Valid()
      modifies this
      ensures (State(), ended) == Round(old(State()), maxParallel, w)
      ensures ended.None? ==> Valid()
    {
      hide Marked, Wave, Shape, ReadyNodes, Greedy;
      var failure := QuotaFailure(State());
      if failure.Some? {
        quotaExhausted := true;
        version := version + 1;
        return Some(QuotaExhausted(failure.value));
      }
      MarkedShape(State());
      MarkDependencyBlocks();
      ghost var m := State();
      var ready := ReadyNodes(State());
      var batch := NonConflictingBatch(State(), ready, maxParallel);
      if batch == [] {
        MarkDependencyBlocks();
        return Some(NothingReady);
      }
      BatchMembers(m, maxParallel);
      ShapeIsDistinct(m);
      BatchDistinct(m, maxParallel);
      WaveShape(m, batch, w);
      RunWave(batch, w);
      return None;
    }

    method RunWave(batch: seq<NodeId>, w: WaveWorld)
      requires Valid() && Distinct(batch) && forall n :: n in batch ==> n in nodes
      modifies this
      ensures State() == Wave(old(State()), batch, w)
    {
      hide FinishAll, DispatchAll, Shape, Live;
      ghost var g := State();
      quota := quota.(usedWaves := quota.usedWaves + 1);
      assert Live(State(), batch, w.clock) == Live(g, batch, w.clock) by {
        LiveDependsOnNodes(g, State(), batch, w.clock);
      }
      var executable := Dispatch(batch, w.clock);
      version := version + 1;
      StartedShape(g, batch, w);
      LiveMembers(g, batch, w);
      Gather(executable, w.outcome);
      version := version + 1;
    }

    /** Starts the batch in order; nodes past their deadline fail instead. */
    method Dispatch(batch: seq<NodeId>, clock: NodeId -> int) returns (executable: set<NodeId>)
      requires Distinct(batch) && forall n :: n in batch ==> n in nodes
      modifies this
      ensures State() == DispatchAll(old(State()), batch, clock)
      ensures executable == Live(old(State()), batch, clock)
    {
      hide DispatchAll, Live, DispatchOne;
      ghost var g := State();
      executable := {};
      DispatchExtends(g, batch, 0, clock);
      for i := 0 to |batch|
        invariant State() == DispatchAll(g, batch[..i], clock)
        invariant executable == Live(g, batch[..i], clock)
      {
        DispatchExtends(g, batch, i, clock);
        var live := DispatchNode(batch[i], clock(batch[i]));
        if live {
          executable := executable + {batch[i]};
        }
      }
      assert batch[..|batch|] == batch;
    }

    method DispatchNode(n: NodeId, now: int) returns (live: bool)
      requires n in nodes
      modifies this
      ensures State() == DispatchOne(old(State()), n, now)
      ensures live <==> !Expired(old(nodes[n]), now)
    {
      var node := nodes[n];
      if node.deadline.Some? && now >= node.deadline.value {
        node := node.(status := Failed);
        node := node.(failureKind := "deadline_exceeded");
        node := node.(error := "节点 deadline 已过期");
        node := node.(effectState := "not_started");
        nodes := nodes[n := node];
        return false;
      }
      schedulerSequence := schedulerSequence + 1;
      node := node.(status := Running);
      node := node.(attempts := node.attempts + 1);
      node := node.(dispatchCount := node.dispatchCount + 1);
      node := node.(dispatchSequence := schedulerSequence);
      node := node.(effectState := "prepared");
      nodes := nodes[n := node];
      quota := quota.(usedAttempts := quota.usedAttempts + 1);
      return true;
    }

    /** The started attempts return in an arbitrary order. */
    method Gather(executable: set<NodeId>, outcome: NodeId -> Outcome)
      requires Valid() && executable <= nodes.Keys
      modifies this
      ensures State() == FinishAll(old(State()), executable, outcome)
    {
      ghost var g := State();
      var remaining := executable;
      FinishNothing(g, outcome);
      assert executable - remaining == {};
      while remaining != {}
        invariant remaining <= executable
        invariant State() == FinishAll(g, executable - remaining, outcome)
        decreases remaining
      {
        var n :| n in remaining;
        FinishExtends(g, executable - remaining, n, outcome);
        ExecuteNode(n, outcome(n));
        assert executable - remaining + {n} == executable - (remaining - {n});
        remaining := remaining - {n};
      }
      assert executable - remaining == executable;
    }

    method ExecuteNode(n: NodeId, o: Outcome)
      requires n in nodes
      modifies this
      ensures State() == FinishOne(old(State()), n, o)
    {
      var elapsed := if o.elapsedMs < 1 then 1 else o.elapsedMs;
      var node := nodes[n];
      node := node.(durationMs := node.durationMs + elapsed);
      quota := quota.(usedRuntimeMs := quota.usedRuntimeMs + elapsed);
      if !o.isError {
        node := node.(status := Completed, result := o.content, error := "", failureKind := "", effectState := "committed");
      } else {
        node := node.(error := o.content);
        node := node.(failureKind := if o.failureKind == "" then "agent_failed" else o.failureKind);
        var safeRetry := node.retrySafe && o.retryable && o.toolState in {"not_started", "completed"}
                         && node.attempts < node.maxAttempts;
        node := node.(status := if safeRetry then Pending else Failed);
        node := node.(effectState := if o.toolState == "" then "unknown" else o.toolState);
        if safeRetry {
          node := node.(readySince := Some(o.finishedAt));
        }
      }
      nodes := nodes[n := node];
    }

    method RetryNode(n: NodeId, now: int) returns (ok: bool)
      requires Valid()
      modifies this
      ensures ok <==> Retry(old(State()), n, now).Some?
      ensures State() == if ok then Retry(old(State()), n, now).value else old(State())
    {
      if n !in nodes || (nodes[n].status != Failed && nodes[n].status != Blocked) {
        return false;
      }
      nodes := nodes[n := RequeueNode(nodes[n], now)];
      quotaExhausted := false;
      ResetDependencyBlocks();
      version := version + 1;
      return true;
    }

    method ResetOne(n: NodeId)
      requires n in nodes
      modifies this`nodes
      ensures nodes == old(nodes)[n := ResetNode(old(nodes)[n])]
    {
      if nodes[n].status == Blocked && nodes[n].failureKind == "dependency_failed" {
        nodes := nodes[n := nodes[n].(status := Pending, error := "", failureKind := "")];
      }
    }

    method ResetDependencyBlocks()
      requires Distinct(order) && forall n :: n in order <==> n in nodes
      modifies this`nodes
      ensures State() == ResetBlocks(old(State()))
    {
      hide ResetNode, Distinct, ResetSome;
      ghost var was := nodes;
      ResetNone(was);
      for i := 0 to |order|
        invariant nodes == ResetSome(was, order[..i])
      {
        DistinctAt(order, i);
        assert order[..i + 1] == order[..i] + [order[i]];
        ResetNext(was, order[..i], order[i]);
        ResetOne(order[i]);
      }
      assert order[..|order|] == order;
      ResetAll(old(State()), order);
    }
  }
}
