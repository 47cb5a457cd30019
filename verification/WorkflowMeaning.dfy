/** What a round, a wave and a retry of a workflow do, said of the fields of its nodes
    (agent/app/subagent/workflow.py). */
module WorkflowMeaning {
  import opened Ordering
  import opened Scopes
  import opened Dag
  import opened Workflow
  import opened WorkflowSafety
  import opened WorkflowInvariant

  /*----------------------------------- order ----------------------------------*/

  /** Pending, and everything the node depends on is completed. */
  ghost predicate Runnable(g: Graph, n: NodeId) {
    && n in g.nodes && g.nodes[n].status == Pending
    && forall d :: d in g.nodes[n].dependsOn ==> d in g.nodes && g.nodes[d].status == Completed
  }

  /** The instant a node became ready; none counts as zero. */
  function Since(node: Node): int {
    match node.readySince
    case Some(t) => t
    case None => 0
  }

  /** a has no deadline later than b's; having none is latest. */
  predicate NoLaterDeadline(a: Node, b: Node) {
    b.deadline.Some? ==> a.deadline.Some? && a.deadline.value <= b.deadline.value
  }

  /** Node m goes before node n: it was dispatched less often; among equals it is more
      urgent; then its deadline is earlier; then it has been ready for longer; then its id
      is smaller. */
  ghost predicate GoesBefore(g: Graph, m: NodeId, n: NodeId) {
    m in g.nodes && n in g.nodes &&
    var a, b := g.nodes[m], g.nodes[n];
    && a.dispatchCount <= b.dispatchCount
    && (a.dispatchCount == b.dispatchCount ==>
          && a.priority >= b.priority
          && (a.priority == b.priority ==>
                && NoLaterDeadline(a, b)
                && (a.deadline == b.deadline ==>
                      && Since(a) <= Since(b)
                      && (Since(a) == Since(b) ==> StrLeq(m, n)))))
  }

  lemma {:induction false} RankGoesBefore(g: Graph, m: NodeId, n: NodeId)
    requires m in g.nodes && n in g.nodes
    ensures RankLeq(RankOf(g, m), RankOf(g, n)) <==> GoesBefore(g, m, n)
  {
    hide StrLeq;
  }

  lemma {:induction false} ReadyIsRunnable(g: Graph, n: NodeId)
    ensures IsReady(g, n) <==> Runnable(g, n)
  {
  }

  /** Every node of ids goes before every node of the ready list. */
  ghost predicate AllBefore(g: Graph, ids: seq<NodeId>, ready: seq<Rank>) {
    forall o, r :: o in ids && r in ready ==> Ranked(g, o, r)
  }

  ghost predicate Ranked(g: Graph, o: NodeId, r: Rank) {
    o in g.nodes && RankLeq(RankOf(g, o), r)
  }

  ghost predicate InOrder(g: Graph, ids: seq<NodeId>) {
    forall i, j :: 0 <= i < j < |ids| ==> RankedBefore(g, ids[i], ids[j])
  }

  ghost predicate RankedBefore(g: Graph, m: NodeId, n: NodeId) {
    n in g.nodes && Ranked(g, m, RankOf(g, n))
  }

  /** Why r is not in the batch. */
  ghost predicate LeftOut(g: Graph, b: seq<NodeId>, r: Rank, maxParallel: int) {
    || (exists o :: o in b && NodesConflict(g, r.id, o) && Ranked(g, o, r))
    || (|b| >= maxParallel && forall o :: o in b ==> Ranked(g, o, r))
  }

  lemma {:induction false} GreedyInOrder(g: Graph, ready: seq<Rank>, selected: seq<NodeId>, maxParallel: int)
    requires SortedBy(ready, RankLeq) && forall r :: r in ready ==> r.id in g.nodes && r == RankOf(g, r.id)
    requires AllBefore(g, selected, ready) && InOrder(g, selected)
    ensures var b := Greedy(g, ready, selected, maxParallel);
            selected <= b && InOrder(g, b) && forall r :: r in ready ==> r.id in b || LeftOut(g, b, r, maxParallel)
    decreases |ready|
  {
    hide RankLeq, RankOf, NodesConflict, InOrder, Ranked, SortedBy;
    if ready != [] && |selected| < maxParallel {
      var r, rest := ready[0], ready[1..];
      assert ready == [r] + rest;
      TailSorted(ready, RankLeq);
      if ConflictsWithAny(g, r.id, selected) {
        GreedyInOrder(g, rest, selected, maxParallel);
        assert LeftOut(g, Greedy(g, rest, selected, maxParallel), r, maxParallel);
      } else {
        TakesNext(g, ready, selected);
        GreedyInOrder(g, rest, selected + [r.id], maxParallel);
        assert (selected + [r.id])[|selected|] == r.id;
      }
    }
  }

  lemma {:induction false} TakesNext(g: Graph, ready: seq<Rank>, selected: seq<NodeId>)
    requires ready != [] && SortedBy(ready, RankLeq) && forall r :: r in ready ==> r.id in g.nodes && r == RankOf(g, r.id)
    requires AllBefore(g, selected, ready) && InOrder(g, selected)
    ensures AllBefore(g, selected + [ready[0].id], ready[1..]) && InOrder(g, selected + [ready[0].id])
  {
    var r, ids := ready[0], selected + [ready[0].id];
    StillBefore(g, ready, selected);
    assert r in ready;
    hide RankLeq, RankOf, SortedBy, Ranked;
    forall i, j | 0 <= i < j < |ids|
      ensures RankedBefore(g, ids[i], ids[j])
    {
      assert ids[i] == selected[i] && selected[i] in selected;
      if j < |selected| {
        assert ids[j] == selected[j] && RankedBefore(g, selected[i], selected[j]);
      } else {
        assert Ranked(g, selected[i], r) && ids[j] == r.id && r == RankOf(g, r.id);
      }
    }
  }

  lemma {:induction false} StillBefore(g: Graph, ready: seq<Rank>, selected: seq<NodeId>)
    requires ready != [] && SortedBy(ready, RankLeq) && AllBefore(g, selected, ready)
    requires ready[0].id in g.nodes && ready[0] == RankOf(g, ready[0].id)
    ensures AllBefore(g, selected + [ready[0].id], ready[1..])
  {
    hide RankLeq, RankOf, SortedBy, Ranked;
    var ids, rest := selected + [ready[0].id], ready[1..];
    forall o, x | o in ids && x in rest
      ensures Ranked(g, o, x)
    {
      assert x in ready;
      if o !in selected {
        NextGoesFirst(g, ready, x);
      }
    }
  }

  lemma {:induction false} NextGoesFirst(g: Graph, ready: seq<Rank>, x: Rank)
    requires ready != [] && SortedBy(ready, RankLeq) && x in ready[1..]
    requires ready[0].id in g.nodes && ready[0] == RankOf(g, ready[0].id)
    ensures Ranked(g, ready[0].id, x)
  {
    hide RankLeq, RankOf, SortedBy;
    TailSorted(ready, RankLeq);
  }

  /** A node of the batch that goes before n may write a file of n, or the batch is full of
      nodes that go before n. */
  ghost predicate LeftForCause(g: Graph, b: seq<NodeId>, n: NodeId, maxParallel: int) {
    && n in g.nodes && (forall o :: o in b ==> o in g.nodes)
    && (|| (exists o :: o in b && GoesBefore(g, o, n) && ShareFile(g.nodes[o], g.nodes[n]))
        || (|b| == maxParallel && forall o :: o in b ==> GoesBefore(g, o, n)))
  }

  /** The batch that is run: runnable nodes in order, no two of which may write one file, and
      first of all the one that goes before every other. */
  ghost predicate Chosen(g: Graph, b: seq<NodeId>, maxParallel: int) {
    && |b| <= maxParallel && Distinct(b)
    && (forall n :: n in b ==> Runnable(g, n))
    && (forall i, j :: 0 <= i < j < |b| ==> GoesBefore(g, b[i], b[j]) && !ShareFile(g.nodes[b[i]], g.nodes[b[j]]))
    && (forall n :: Runnable(g, n) && n !in b ==> LeftForCause(g, b, n, maxParallel))
    && (forall n :: Runnable(g, n) ==> b != [] && GoesBefore(g, b[0], n))
  }

  /** A batch is a selection from the runnable nodes, in order, in which no two may write
      the same file. A runnable node is left out only if it may write a file of a node
      selected before it, or if the batch is full of nodes that go before it. */
  lemma {:induction false} BatchOrder(g: Graph, maxParallel: int)
    requires Shape(g) && maxParallel >= 1
    ensures Chosen(g, Batch(g, maxParallel), maxParallel)
  {
    ShapeIsDistinct(g);
    BatchExact(g, maxParallel);
    RunnableInBatch(g, maxParallel);
    SelectedInOrder(g, maxParallel);
    NothingElseLeftOut(g, maxParallel);
    hide *;
  }

  lemma {:induction false} RunnableInBatch(g: Graph, maxParallel: int)
    requires Shape(g) && maxParallel >= 1
    ensures var b := Batch(g, maxParallel);
            && (forall n :: n in b ==> Runnable(g, n))
            && (forall n :: Runnable(g, n) ==> b != [] && GoesBefore(g, b[0], n))
  {
    ShapeIsDistinct(g);
    BatchExact(g, maxParallel);
    hide Shape, Batch, GoesBefore, Runnable, IsReady;
    forall n
      ensures IsReady(g, n) <==> Runnable(g, n)
    {
      ReadyIsRunnable(g, n);
    }
    forall n | Runnable(g, n)
      ensures Batch(g, maxParallel) != [] && GoesBefore(g, Batch(g, maxParallel)[0], n)
    {
      RunnableIsNode(g, n);
      FirstIsBest(g, maxParallel, n);
    }
  }

  lemma {:induction false} RunnableIsNode(g: Graph, n: NodeId)
    requires Runnable(g, n)
    ensures n in g.nodes
  {
  }

  lemma {:induction false} SelectedInOrder(g: Graph, maxParallel: int)
    requires Shape(g) && maxParallel >= 1
    ensures var b := Batch(g, maxParallel);
            forall i, j :: 0 <= i < j < |b| ==>
              GoesBefore(g, b[i], b[j]) && !ShareFile(g.nodes[b[i]], g.nodes[b[j]])
  {
    ReadyNodesExact(g);
    GreedyInOrder(g, ReadyNodes(g), [], maxParallel);
    ShapeIsDistinct(g);
    BatchExact(g, maxParallel);
    BatchMembers(g, maxParallel);
    hide Shape, ReadyNodes, Greedy, RankLeq, RankOf, GoesBefore, ShareFile, NodesConflict;
    var b := Batch(g, maxParallel);
    forall i, j | 0 <= i < j < |b|
      ensures GoesBefore(g, b[i], b[j]) && !ShareFile(g.nodes[b[i]], g.nodes[b[j]])
    {
      assert b[i] in b && b[j] in b;
      RankGoesBefore(g, b[i], b[j]);
      SelectedDoNotConflict(g, b, b[i], b[j]);
      NoConflictNoCommonFile(g, b[i], b[j]);
    }
  }

  lemma {:induction false} NothingElseLeftOut(g: Graph, maxParallel: int)
    requires Shape(g) && maxParallel >= 1
    ensures forall n :: Runnable(g, n) && n !in Batch(g, maxParallel) ==> LeftForCause(g, Batch(g, maxParallel), n, maxParallel)
  {
    ReadyNodesExact(g);
    GreedyInOrder(g, ReadyNodes(g), [], maxParallel);
    ShapeIsDistinct(g);
    BatchExact(g, maxParallel);
    BatchMembers(g, maxParallel);
    hide Shape, ReadyNodes, Greedy, RankLeq, RankOf, IsReady, LeftOut, LeftForCause, Runnable;
    var b := Batch(g, maxParallel);
    forall n | Runnable(g, n) && n !in b
      ensures LeftForCause(g, b, n, maxParallel)
    {
      RunnableIsNode(g, n);
      ReadyIsRunnable(g, n);
      RankNames(g, n);
      WhyLeftOut(g, b, n, maxParallel);
    }
  }

  lemma {:induction false} RankNames(g: Graph, n: NodeId)
    requires n in g.nodes
    ensures RankOf(g, n).id == n
  {
  }

  lemma {:induction false} FirstIsBest(g: Graph, maxParallel: int, n: NodeId)
    requires Distinct(g.order) && n in g.order && IsReady(g, n) && maxParallel >= 1
    ensures Batch(g, maxParallel) != [] && Batch(g, maxParallel)[0] in g.nodes && n in g.nodes
    ensures GoesBefore(g, Batch(g, maxParallel)[0], n)
  {
    hide NodesConflict, RankLeq, GoesBefore;
    RankLeqTotalPreorder();
    ReadyNodesExact(g);
    BatchExact(g, maxParallel);
    var ready := ReadyNodes(g);
    var k :| 0 <= k < |ready| && ready[k] == RankOf(g, n);
    assert ready[0] in ready;
    assert k > 0 ==> RankLeq(ready[0], ready[k]);
    RankGoesBefore(g, ready[0].id, n);
  }

  lemma {:induction false} WhyLeftOut(g: Graph, b: seq<NodeId>, n: NodeId, maxParallel: int)
    requires n in g.nodes && LeftOut(g, b, RankOf(g, n), maxParallel) && RankOf(g, n).id == n && |b| <= maxParallel
    requires forall o :: o in b ==> o in g.nodes
    ensures LeftForCause(g, b, n, maxParallel)
  {
    hide RankLeq, RankOf, GoesBefore, NodesConflict, ShareFile;
    forall o | o in b
      ensures Ranked(g, o, RankOf(g, n)) <==> GoesBefore(g, o, n)
      ensures NodesConflict(g, n, o) ==> ShareFile(g.nodes[o], g.nodes[n])
    {
      RankGoesBefore(g, o, n);
      ConflictIsCommonFile(g, n, o);
    }
  }

  lemma {:induction false} ConflictIsCommonFile(g: Graph, a: NodeId, b: NodeId)
    requires a in g.nodes && b in g.nodes
    ensures NodesConflict(g, a, b) <==> ShareFile(g.nodes[b], g.nodes[a])
  {
    NormalizeKeepsOverlap(g.nodes[a].writeScopes, g.nodes[b].writeScopes);
    SetsOverlapIffCommonFile(g.nodes[a].writeScopes, g.nodes[b].writeScopes);
  }

  /*------------------------------ failure propagation --------------------------*/

  /** Pending nodes, each depending on the next, that end at a failed or blocked one. */
  ghost predicate Chain(g: Graph, p: seq<NodeId>) {
    && |p| >= 2
    && (forall i :: 0 <= i < |p| - 1 ==>
          p[i] in g.nodes && g.nodes[p[i]].status == Pending && p[i + 1] in g.nodes[p[i]].dependsOn)
    && p[|p| - 1] in g.nodes && g.nodes[p[|p| - 1]].status in {Failed, Blocked}
  }

  lemma {:induction false} ChainIsFailurePath(g: Graph, p: seq<NodeId>)
    ensures Chain(g, p) <==> FailurePath(g, p)
  {
    if FailurePath(g, p) {
      forall i | 0 <= i < |p| - 1
        ensures p[i] in g.nodes && g.nodes[p[i]].status == Pending && p[i + 1] in g.nodes[p[i]].dependsOn
      {
        assert HasStatus(g, p[i], Pending) && p[i + 1] in DepsOf(g)[p[i]];
      }
    }
  }

  /** Propagation blocks exactly the nodes at the head of such a chain. */
  lemma {:induction false} MarkedExact(g: Graph, n: NodeId)
    ensures Marked(g) == g.(nodes := Marked(g).nodes) && Marked(g).nodes.Keys == g.nodes.Keys
    ensures n in g.nodes ==>
              Marked(g).nodes[n]
              == if exists p :: Chain(g, p) && p[0] == n
                 then g.nodes[n].(status := Blocked, failureKind := "dependency_failed", error := "依赖节点未完成")
                 else g.nodes[n]
  {
    forall p
      ensures Chain(g, p) <==> FailurePath(g, p)
    {
      ChainIsFailurePath(g, p);
    }
    hide Chain, FailurePath;
    if p :| Chain(g, p) && p[0] == n {
      assert FailurePath(g, p) && p[0] == n;
    }
  }

  /*------------------------------------ waves ----------------------------------*/

  /** A node past its deadline fails without being started. */
  ghost predicate Missed(before: Node, after: Node) {
    after == before.(status := Failed, failureKind := "deadline_exceeded", error := "节点 deadline 已过期",
                     effectState := "not_started")
  }

  /** A node that was started under this dispatch number and whose agent reported o. */
  ghost predicate Ran(before: Node, after: Node, o: Outcome, sequence: nat) {
    && after.attempts == before.attempts + 1 && after.dispatchCount == before.dispatchCount + 1
    && after.dispatchSequence == sequence
    && after.durationMs == before.durationMs + Max(1, o.elapsedMs)
    && SameTask(before, after)
    && if o.isError then Erred(before, after, o, before.attempts + 1) else
         && after.status == Completed && after.result == o.content && after.error == "" && after.failureKind == ""
         && after.effectState == "committed" && after.readySince == before.readySince
  }

  /** An error report, for the attempt of this number. */
  ghost predicate Erred(before: Node, after: Node, o: Outcome, attempt: nat) {
    var again := before.retrySafe && o.retryable && (o.toolState == "not_started" || o.toolState == "completed")
                 && attempt < before.maxAttempts;
    && after.result == before.result && after.error == o.content
    && after.failureKind == (if o.failureKind == "" then "agent_failed" else o.failureKind)
    && after.effectState == (if o.toolState == "" then "unknown" else o.toolState)
    && after.status == (if again then Pending else Failed)
    && after.readySince == (if again then Some(o.finishedAt) else before.readySince)
  }

  /** What was asked for is the same. */
  predicate SameTask(before: Node, after: Node) {
    && after.title == before.title && after.prompt == before.prompt && after.dependsOn == before.dependsOn
    && after.priority == before.priority && after.deadline == before.deadline
    && after.maxAttempts == before.maxAttempts && after.retrySafe == before.retrySafe
    && after.declaredScopes == before.declaredScopes && after.writeScopes == before.writeScopes
    && after.evidenceRefs == before.evidenceRefs
  }

  predicate PastDeadline(node: Node, now: int) {
    node.deadline.Some? && node.deadline.value <= now
  }

  /** The nodes among the first of the batch that are started. */
  function StartedAmong(g: Graph, batch: seq<NodeId>, clock: NodeId -> int): seq<NodeId>
    requires forall n :: n in batch ==> n in g.nodes
  {
    if batch == [] then []
    else
      var last := batch[|batch| - 1];
      StartedAmong(g, batch[..|batch| - 1], clock) + if PastDeadline(g.nodes[last], clock(last)) then [] else [last]
  }

  lemma {:induction false} StartedMembers(g: Graph, batch: seq<NodeId>, clock: NodeId -> int)
    requires Distinct(batch) && forall n :: n in batch ==> n in g.nodes
    ensures forall n :: n in StartedAmong(g, batch, clock) <==> n in batch && !PastDeadline(g.nodes[n], clock(n))
    ensures Distinct(StartedAmong(g, batch, clock))
  {
    if batch != [] {
      StartedMembers(g, batch[..|batch| - 1], clock);
      assert batch == batch[..|batch| - 1] + [batch[|batch| - 1]];
    }
  }

  /** Dispatching counts every started node, and numbers them in the order of the batch. */
  lemma {:induction false} DispatchNumbers(g: Graph, batch: seq<NodeId>, clock: NodeId -> int)
    requires Distinct(batch) && forall n :: n in batch ==> n in g.nodes
    ensures var r, started := DispatchAll(g, batch, clock), StartedAmong(g, batch, clock);
            && r.schedulerSequence == g.schedulerSequence + |started|
            && r.quota.usedAttempts == g.quota.usedAttempts + |started|
            && (forall i :: 0 <= i < |started| ==>
                  && started[i] in r.nodes && started[i] in g.nodes
                  && r.nodes[started[i]].dispatchSequence == g.schedulerSequence + 1 + i)
  {
    if batch != [] {
      var front, n := batch[..|batch| - 1], batch[|batch| - 1];
      assert batch == front + [n];
      assert n !in front;
      DispatchNumbers(g, front, clock);
      DispatchEffect(g, front, clock);
      StartedMembers(g, front, clock);
      var r := DispatchAll(g, front, clock);
      assert Dispatched(g.nodes[n], r.nodes[n], false, clock(n));
      OneMoreNumber(r, n, clock(n));
      assert DispatchAll(g, batch, clock) == DispatchOne(r, n, clock(n));
      assert StartedAmong(g, batch, clock) == StartedAmong(g, front, clock) + if PastDeadline(r.nodes[n], clock(n)) then [] else [n];
      hide DispatchAll, StartedAmong, DispatchOne, PastDeadline, Distinct, Dispatched;
      var started := StartedAmong(g, front, clock);
      forall i | 0 <= i < |started|
        ensures started[i] != n
      {
        assert started[i] in started;
      }
    }
  }

  lemma {:induction false} OneMoreNumber(r: Graph, n: NodeId, now: int)
    requires n in r.nodes
    ensures var r' := DispatchOne(r, n, now);
            var more := if PastDeadline(r.nodes[n], now) then 0 else 1;
            && r'.nodes.Keys == r.nodes.Keys && (forall m :: m in r.nodes && m != n ==> r'.nodes[m] == r.nodes[m])
            && r'.schedulerSequence == r.schedulerSequence + more
            && r'.quota.usedAttempts == r.quota.usedAttempts + more
            && (more == 1 ==> r'.nodes[n].dispatchSequence == r.schedulerSequence + 1)
  {
  }

  /** One node before and after a wave. */
  ghost predicate Waved(before: Node, after: Node, inBatch: bool, now: int, o: Outcome) {
    if !inBatch then after == before
    else if PastDeadline(before, now) then Missed(before, after)
    else Ran(before, after, o, after.dispatchSequence)
  }

  lemma {:induction false} StartedRuns(before: Node, o: Outcome, sequence: nat)
    ensures Ran(before, Settle(StartNode(before, sequence), o), o, sequence)
  {
  }

  lemma {:induction false} WaveNode(g: Graph, batch: seq<NodeId>, w: WaveWorld, n: NodeId)
    requires Distinct(batch) && n in g.nodes && forall m :: m in batch ==> m in g.nodes
    ensures n in Wave(g, batch, w).nodes
    ensures Waved(g.nodes[n], Wave(g, batch, w).nodes[n], n in batch, w.clock(n), w.outcome(n))
  {
    var o := OpenWave(g);
    var before, started := g.nodes[n], DispatchAll(o, batch, w.clock).nodes[n];
    DispatchEffect(o, batch, w.clock);
    assert Dispatched(before, started, n in batch, w.clock(n));
    StartedRuns(before, w.outcome(n), started.dispatchSequence);
    hide DispatchAll, Settle, StartNode, ExpireNode, Ran, Missed, SumElapsed, Distinct;
    var s := Started(g, batch, w);
    assert s.nodes[n] == started;
    assert Wave(g, batch, w).nodes[n] == if n in Live(g, batch, w.clock) then Settle(started, w.outcome(n)) else started;
    hide Wave, Started;
    ExpiredMisses(before);
    RanUnder(before, w.outcome(n), started.dispatchSequence);
  }

  lemma {:induction false} ExpiredMisses(before: Node)
    ensures Missed(before, ExpireNode(before))
  {
  }

  lemma {:induction false} RanUnder(before: Node, o: Outcome, sequence: nat)
    ensures Settle(StartNode(before, sequence), o).dispatchSequence == sequence
  {
  }

  function TotalDuration(order: seq<NodeId>, nodes: map<NodeId, Node>): nat {
    if order == [] then 0
    else (if order[0] in nodes then nodes[order[0]].durationMs else 0) + TotalDuration(order[1..], nodes)
  }

  lemma {:induction false} TotalIsSum(order: seq<NodeId>, nodes: map<NodeId, Node>)
    ensures TotalDuration(order, nodes) == SumOver(order, nodes, Duration)
  {
    if order != [] {
      TotalIsSum(order[1..], nodes);
    }
  }

  lemma {:induction false} WaveNumbers(g: Graph, batch: seq<NodeId>, w: WaveWorld)
    requires Distinct(batch) && forall n :: n in batch ==> n in g.nodes
    ensures var g', started := Wave(g, batch, w), StartedAmong(g, batch, w.clock);
            && g'.schedulerSequence == g.schedulerSequence + |started| && g'.order == g.order
            && g'.version == g.version + 2 && g'.quotaExhausted == g.quotaExhausted
            && g'.quota == g.quota.(usedWaves := g.quota.usedWaves + 1,
                                    usedAttempts := g.quota.usedAttempts + |started|,
                                    usedRuntimeMs := g'.quota.usedRuntimeMs)
            && (forall i :: 0 <= i < |started| ==>
                  && started[i] in g'.nodes
                  && g'.nodes[started[i]].dispatchSequence == g.schedulerSequence + 1 + i)
  {
    var o := OpenWave(g);
    DispatchNumbers(o, batch, w.clock);
    DispatchQuota(o, batch, w.clock);
    SameStarted(g, o, batch, w.clock);
    hide DispatchAll, StartedAmong, SumElapsed;
  }

  lemma {:induction false} SameStarted(g: Graph, g': Graph, batch: seq<NodeId>, clock: NodeId -> int)
    requires g.nodes == g'.nodes && forall n :: n in batch ==> n in g.nodes
    ensures StartedAmong(g, batch, clock) == StartedAmong(g', batch, clock)
  {
    if batch != [] {
      SameStarted(g, g', batch[..|batch| - 1], clock);
    }
  }

  lemma {:induction false} WaveRuntime(g: Graph, batch: seq<NodeId>, w: WaveWorld)
    requires Shape(g) && Distinct(batch) && forall n :: n in batch ==> n in g.nodes
    ensures var g' := Wave(g, batch, w);
            g'.quota.usedRuntimeMs + TotalDuration(g.order, g.nodes)
            == g.quota.usedRuntimeMs + TotalDuration(g.order, g'.nodes)
  {
    var o, s := OpenWave(g), Started(g, batch, w);
    DispatchEffect(o, batch, w.clock);
    forall n | n in g.nodes
      ensures s.nodes[n].durationMs == g.nodes[n].durationMs
    {
      assert Dispatched(o.nodes[n], s.nodes[n], n in batch, w.clock(n));
    }
    DispatchQuota(o, batch, w.clock);
    SumSame(g.order, g.nodes, s.nodes, Duration);
    SumSettled(s, g.order, Live(g, batch, w.clock), w.outcome);
    TotalIsSum(g.order, g.nodes);
    TotalIsSum(g.order, Wave(g, batch, w).nodes);
    hide Shape, SumOver, TotalDuration, SumElapsed, DispatchAll;
  }

  /** A wave runs the nodes of its batch: those past their deadline fail, the others are
      started in the order of the batch and settled by what their agents report. It counts
      one wave, one attempt for every started node and the time they took. */
  lemma {:induction false} WaveExact(g: Graph, batch: seq<NodeId>, w: WaveWorld)
    requires Shape(g) && Distinct(batch) && forall n :: n in batch ==> n in g.nodes
    ensures var g', started := Wave(g, batch, w), StartedAmong(g, batch, w.clock);
            && g'.order == g.order && g'.nodes.Keys == g.nodes.Keys
            && (forall n :: n in g.nodes ==> Waved(g.nodes[n], g'.nodes[n], n in batch, w.clock(n), w.outcome(n)))
            && (forall i :: 0 <= i < |started| ==>
                  && started[i] in g'.nodes
                  && g'.nodes[started[i]].dispatchSequence == g.schedulerSequence + 1 + i)
            && g'.schedulerSequence == g.schedulerSequence + |started|
            && g'.version == g.version + 2 && g'.quotaExhausted == g.quotaExhausted
            && g'.quota == g.quota.(usedWaves := g.quota.usedWaves + 1,
                                    usedAttempts := g.quota.usedAttempts + |started|,
                                    usedRuntimeMs := g'.quota.usedRuntimeMs)
            && g'.quota.usedRuntimeMs - g.quota.usedRuntimeMs
               == TotalDuration(g.order, g'.nodes) - TotalDuration(g.order, g.nodes)
  {
    hide *;
    WaveNumbers(g, batch, w);
    WaveRuntime(g, batch, w);
    WaveShape(g, batch, w);
    SameNodes(g, Wave(g, batch, w));
    forall n | n in g.nodes
      ensures Waved(g.nodes[n], Wave(g, batch, w).nodes[n], n in batch, w.clock(n), w.outcome(n))
    {
      WaveNode(g, batch, w, n);
    }
  }

  lemma {:induction false} SameNodes(g: Graph, h: Graph)
    requires Shape(g) && Shape(h) && g.order == h.order
    ensures g.nodes.Keys == h.nodes.Keys
  {
    hide Distinct, Closed, DepsOf;
    forall n
      ensures n in g.nodes <==> n in h.nodes
    {
      assert n in g.order <==> n in h.order;
    }
  }

  /** A node that has just been started under this dispatch number. */
  ghost predicate Launched(before: Node, after: Node, sequence: nat) {
    after == before.(status := Running, attempts := before.attempts + 1, dispatchCount := before.dispatchCount + 1,
                     dispatchSequence := sequence, effectState := "prepared")
  }

  /** Right after the start of a wave: the nodes of the batch past their deadline have failed,
      the others run, and the version, the wave and the attempts are counted. */
  lemma {:induction false} StartExact(g: Graph, batch: seq<NodeId>, w: WaveWorld)
    requires Distinct(batch) && forall n :: n in batch ==> n in g.nodes
    ensures var s, started := Started(g, batch, w), StartedAmong(g, batch, w.clock);
            && s.nodes.Keys == g.nodes.Keys
            && (forall n :: n in g.nodes ==>
                  if n !in batch then s.nodes[n] == g.nodes[n]
                  else if PastDeadline(g.nodes[n], w.clock(n)) then Missed(g.nodes[n], s.nodes[n])
                  else Launched(g.nodes[n], s.nodes[n], s.nodes[n].dispatchSequence))
            && s == g.(nodes := s.nodes, version := g.version + 1, schedulerSequence := g.schedulerSequence + |started|,
                       quota := g.quota.(usedWaves := g.quota.usedWaves + 1,
                                         usedAttempts := g.quota.usedAttempts + |started|))
  {
    var o, s := OpenWave(g), Started(g, batch, w);
    DispatchNumbers(o, batch, w.clock);
    DispatchQuota(o, batch, w.clock);
    SameStarted(g, o, batch, w.clock);
    DispatchEffect(o, batch, w.clock);
    forall n | n in g.nodes
      ensures if n !in batch then s.nodes[n] == g.nodes[n]
              else if PastDeadline(g.nodes[n], w.clock(n)) then Missed(g.nodes[n], s.nodes[n])
              else Launched(g.nodes[n], s.nodes[n], s.nodes[n].dispatchSequence)
    {
      assert Dispatched(o.nodes[n], s.nodes[n], n in batch, w.clock(n));
    }
    hide DispatchAll, StartedAmong, Missed, Launched, Distinct;
  }

  /** A node whose agent has just reported o. */
  ghost predicate Ended(before: Node, after: Node, o: Outcome) {
    && SameTask(before, after) && after.attempts == before.attempts && after.dispatchCount == before.dispatchCount
    && after.dispatchSequence == before.dispatchSequence && after.durationMs == before.durationMs + Max(1, o.elapsedMs)
    && if o.isError then Erred(before, after, o, before.attempts) else
         && after.status == Completed && after.result == o.content && after.error == "" && after.failureKind == ""
         && after.effectState == "committed" && after.readySince == before.readySince
  }

  /** Reports settle their nodes, charge the time they took and change nothing else. */
  lemma {:induction false} ReturnExact(g: Graph, done: set<NodeId>, outcome: NodeId -> Outcome)
    requires Shape(g)
    ensures var g' := FinishAll(g, done, outcome);
            && g'.nodes.Keys == g.nodes.Keys
            && (forall n :: n in g.nodes ==>
                  if n in done then Ended(g.nodes[n], g'.nodes[n], outcome(n)) else g'.nodes[n] == g.nodes[n])
            && g' == g.(nodes := g'.nodes, quota := g.quota.(usedRuntimeMs := g'.quota.usedRuntimeMs))
            && g'.quota.usedRuntimeMs - g.quota.usedRuntimeMs
               == TotalDuration(g.order, g'.nodes) - TotalDuration(g.order, g.nodes)
  {
    var g' := FinishAll(g, done, outcome);
    SumSettled(g, g.order, done, outcome);
    TotalIsSum(g.order, g.nodes);
    TotalIsSum(g.order, g'.nodes);
    forall n | n in g.nodes && n in done
      ensures Ended(g.nodes[n], Settle(g.nodes[n], outcome(n)), outcome(n))
    {
      OneEnds(g.nodes[n], outcome(n));
    }
    hide Settle, Ended, SumElapsed, SumOver, TotalDuration;
  }

  lemma {:induction false} OneEnds(node: Node, o: Outcome)
    ensures Ended(node, Settle(node, o), o)
  {
  }

  /*---------------------------------- rounds -----------------------------------*/

  /** The first budget that is used up, in the order waves, attempts, runtime. */
  ghost predicate UsedUp(q: Quota, d: QuotaDimension) {
    match d
    case Waves => q.maxWaves <= q.usedWaves
    case Attempts => q.usedWaves < q.maxWaves && q.maxTotalAttempts <= q.usedAttempts
    case Runtime => q.usedWaves < q.maxWaves && q.usedAttempts < q.maxTotalAttempts && q.maxRuntimeMs <= q.usedRuntimeMs
  }

  /** Propagation changes neither what can run nor the nodes that can. */
  lemma {:induction false} MarkedKeepsRunnable(g: Graph, n: NodeId)
    ensures Runnable(Marked(g), n) <==> Runnable(g, n)
    ensures Runnable(g, n) ==> Marked(g).nodes[n] == g.nodes[n]
  {
    if Runnable(g, n) {
      ReadyIsRunnable(g, n);
      MarkedKeepsReady(g, n);
      ReadyIsRunnable(Marked(g), n);
    }
  }

  /** A round ends the run when a budget is used up, or when nothing can run, and then
      blocks what depends on failures. Otherwise it blocks them and runs a batch as a wave:
      first comes, of all the nodes that can run, the one dispatched least often, among
      those the most urgent, then the one with the earliest deadline, then the one that has
      been ready longest. */
  lemma {:induction false} RoundExact(g: Graph, maxParallel: int, w: WaveWorld)
    requires Shape(g) && maxParallel >= 1
    ensures var (g', stop) := Round(g, maxParallel, w);
            && (forall d :: stop == Some(QuotaExhausted(d)) <==> UsedUp(g.quota, d))
            && (stop.Some? && stop.value.QuotaExhausted? ==> g' == g.(quotaExhausted := true, version := g.version + 1))
            && (stop == Some(NothingReady) <==> (forall d :: !UsedUp(g.quota, d)) && (forall n :: !Runnable(g, n)))
            && (stop == Some(NothingReady) ==> g' == Marked(g))
            && (stop.None? ==> exists batch :: RunsBatch(g, batch, maxParallel, w, g'))
  {
    BudgetsFound(g);
    if QuotaFailure(g).None? {
      RoundRuns(g, maxParallel, w);
    }
    hide Shape, Runnable, Marked, Batch, Wave, UsedUp, QuotaFailure, RunsBatch;
  }

  lemma {:induction false} RoundRuns(g: Graph, maxParallel: int, w: WaveWorld)
    requires Shape(g) && maxParallel >= 1 && QuotaFailure(g).None?
    ensures var (g', stop) := Round(g, maxParallel, w);
            && (stop == Some(NothingReady) || stop == None)
            && (stop == Some(NothingReady) <==> forall n :: !Runnable(g, n))
            && (stop == Some(NothingReady) ==> g' == Marked(g))
            && (stop.None? ==> exists batch :: RunsBatch(g, batch, maxParallel, w, g'))
  {
    var m := Marked(g);
    BatchMembers(m, maxParallel);
    MarkingTwiceChangesNothing(g);
    NothingRuns(g, maxParallel);
    hide Shape, Runnable, Marked, Wave, Batch, RunsBatch, QuotaFailure;
    if Batch(m, maxParallel) != [] {
      BatchRuns(g, maxParallel, w);
    }
  }

  lemma {:induction false} NothingRuns(g: Graph, maxParallel: int)
    requires Shape(g) && maxParallel >= 1
    ensures Batch(Marked(g), maxParallel) == [] <==> forall n :: !Runnable(g, n)
  {
    var m := Marked(g);
    MarkedShape(g);
    RunnableInBatch(m, maxParallel);
    forall n
      ensures Runnable(m, n) <==> Runnable(g, n)
    {
      MarkedKeepsRunnable(g, n);
    }
    hide Shape, Runnable, Marked, GoesBefore, Batch;
    var b := Batch(m, maxParallel);
    if b != [] {
      assert b[0] in b;
    }
  }

  lemma {:induction false} BudgetsFound(g: Graph)
    ensures forall d :: QuotaFailure(g) == Some(d) <==> UsedUp(g.quota, d)
    ensures QuotaFailure(g).None? <==> forall d :: !UsedUp(g.quota, d)
  {
    assert UsedUp(g.quota, Waves) <==> QuotaFailure(g) == Some(Waves);
    assert UsedUp(g.quota, Attempts) <==> QuotaFailure(g) == Some(Attempts);
    assert UsedUp(g.quota, Runtime) <==> QuotaFailure(g) == Some(Runtime);
  }

  /** g' is g after propagation and a wave of this batch, and the batch is chosen from what
      can run in g. */
  ghost predicate RunsBatch(g: Graph, batch: seq<NodeId>, maxParallel: int, w: WaveWorld, g': Graph) {
    && batch != [] && Chosen(g, batch, maxParallel)
    && (forall n :: n in batch ==> n in Marked(g).nodes) && g' == Wave(Marked(g), batch, w)
  }

  lemma {:induction false} BatchRuns(g: Graph, maxParallel: int, w: WaveWorld)
    requires Shape(g) && maxParallel >= 1 && Batch(Marked(g), maxParallel) != []
    requires forall n :: n in Batch(Marked(g), maxParallel) ==> n in Marked(g).nodes
    ensures RunsBatch(g, Batch(Marked(g), maxParallel), maxParallel, w, Wave(Marked(g), Batch(Marked(g), maxParallel), w))
  {
    var m := Marked(g);
    MarkedShape(g);
    BatchOrder(m, maxParallel);
    forall n
      ensures SameWhenRunnable(g, m, n)
    {
      MarkedKeepsRunnable(g, n);
    }
    hide Shape, Batch, Runnable, Marked, Wave, Distinct, SameWhenRunnable, Chosen;
    ChoiceCarries(g, m, Batch(m, maxParallel), maxParallel);
  }

  ghost predicate SameWhenRunnable(g: Graph, m: Graph, n: NodeId) {
    && (Runnable(m, n) <==> Runnable(g, n))
    && (Runnable(g, n) ==> n in g.nodes && n in m.nodes && m.nodes[n] == g.nodes[n])
  }

  lemma {:induction false} ChoiceCarries(g: Graph, m: Graph, batch: seq<NodeId>, maxParallel: int)
    requires forall n :: SameWhenRunnable(g, m, n)
    requires Chosen(m, batch, maxParallel)
    ensures Chosen(g, batch, maxParallel)
  {
    hide Runnable, GoesBefore, ShareFile, LeftForCause, Distinct;
    forall n
      ensures Runnable(m, n) <==> Runnable(g, n)
      ensures Runnable(g, n) ==> n in g.nodes && n in m.nodes && m.nodes[n] == g.nodes[n]
    {
      assert SameWhenRunnable(g, m, n);
    }
    hide SameWhenRunnable;
    forall n | Runnable(g, n)
      ensures batch != [] && GoesBefore(g, batch[0], n)
    {
      SameNodesSameOrder(g, m, batch[0], n);
    }
    forall i, j | 0 <= i < j < |batch|
      ensures GoesBefore(g, batch[i], batch[j]) && !ShareFile(g.nodes[batch[i]], g.nodes[batch[j]])
    {
      assert batch[i] in batch && batch[j] in batch;
      SameNodesSameOrder(g, m, batch[i], batch[j]);
    }
    forall n | Runnable(g, n) && n !in batch
      ensures LeftForCause(g, batch, n, maxParallel)
    {
      SameCause(g, m, batch, n, maxParallel);
    }
  }

  lemma {:induction false} SameNodesSameOrder(g: Graph, m: Graph, a: NodeId, b: NodeId)
    requires a in g.nodes && b in g.nodes && a in m.nodes && b in m.nodes && m.nodes[a] == g.nodes[a] && m.nodes[b] == g.nodes[b]
    ensures GoesBefore(m, a, b) <==> GoesBefore(g, a, b)
  {
  }

  lemma {:induction false} SameCause(g: Graph, m: Graph, b: seq<NodeId>, n: NodeId, maxParallel: int)
    requires LeftForCause(m, b, n, maxParallel) && n in g.nodes && n in m.nodes && m.nodes[n] == g.nodes[n]
    requires forall o :: o in b ==> o in g.nodes && o in m.nodes && m.nodes[o] == g.nodes[o]
    ensures LeftForCause(g, b, n, maxParallel)
  {
    hide GoesBefore, ShareFile;
    forall o | o in b
      ensures GoesBefore(m, o, n) <==> GoesBefore(g, o, n)
    {
      SameNodesSameOrder(g, m, o, n);
    }
  }

  /*---------------------------------- retry ------------------------------------*/

  /** A retry is refused unless the node has failed or is blocked. It queues the node with
      no attempts made and no error, and lets every node that was blocked for a dependency
      wait again; nothing else changes. */
  lemma {:induction false} RetryExact(g: Graph, n: NodeId, now: int)
    ensures Retry(g, n, now).Some? <==> n in g.nodes && (g.nodes[n].status == Failed || g.nodes[n].status == Blocked)
    ensures Retry(g, n, now).Some? ==>
              var g' := Retry(g, n, now).value;
              && g' == g.(nodes := g'.nodes, quotaExhausted := false, version := g.version + 1)
              && g'.nodes.Keys == g.nodes.Keys
              && g'.nodes[n] == g.nodes[n].(status := Pending, attempts := 0, error := "", failureKind := "",
                                            effectState := "not_started", readySince := Some(now))
              && forall m :: m in g.nodes && m != n ==>
                   g'.nodes[m]
                   == if g.nodes[m].status == Blocked && g.nodes[m].failureKind == "dependency_failed"
                      then g.nodes[m].(status := Pending, error := "", failureKind := "")
                      else g.nodes[m]
  {
  }
}
