/** What every run of an explicit workflow keeps: the blocked set, dependency
    safety, disjoint writers, dispatch accounting, no stall, bounded bypass. */
module WorkflowSafety {
  import opened Ordering
  import opened Scopes
  import opened Dag
  import opened Workflow

  /*------------------------ failure propagation, again ------------------------*/

  lemma {:induction false} MarkedIsPartlyMarked(g: Graph)
    ensures PartlyMarked(g, Marked(g))
  {
  }

  lemma {:induction false} MarkedSaturated(g: Graph)
    ensures Saturated(Marked(g))
  {
    MarkedIsPartlyMarked(g);
    forall n | n in g.nodes
      ensures Free(Marked(g), n)
    {
      if HasStatus(Marked(g), n, Pending) && HasUnusableDependency(Marked(g), n) {
        UnusableDependencyDooms(g, Marked(g), n);
      }
    }
  }

  lemma {:induction false} SaturatedIsMarked(g: Graph)
    requires Saturated(g)
    ensures Marked(g) == g
  {
    assert PartlyMarked(g, g);
    MarkingIsUnique(g, g);
  }

  lemma {:induction false} MarkingTwiceChangesNothing(g: Graph)
    ensures Marked(Marked(g)) == Marked(g)
  {
    MarkedSaturated(g);
    SaturatedIsMarked(Marked(g));
  }

  /** Every blocked node was blocked for a failed or blocked dependency. */
  ghost predicate BlocksJustified(g: Graph) {
    forall n :: HasStatus(g, n, Blocked) ==>
      g.nodes[n].failureKind == "dependency_failed" && HasUnusableDependency(g, n)
  }

  predicate Unfinished(g: Graph, n: NodeId) {
    HasStatus(g, n, Pending) || HasStatus(g, n, Blocked)
  }

  /** A path from a node that a retry of r leaves unfinished to a node that it
      leaves failed, read off the graph before the retry. */
  ghost predicate ScratchPath(g: Graph, r: NodeId, p: seq<NodeId>) {
    && |p| >= 2 && IsPath(DepsOf(g), p)
    && (forall i :: 0 <= i < |p| - 1 ==> Unfinished(g, p[i]) || p[i] == r)
    && HasStatus(g, p[|p| - 1], Failed) && p[|p| - 1] != r
  }

  function RetriedNode(g: Graph, r: NodeId, now: int, n: NodeId): Node
    requires n in g.nodes
  {
    ResetNode(if n == r then RequeueNode(g.nodes[n], now) else g.nodes[n])
  }

  lemma {:induction false} RetryNodes(g: Graph, r: NodeId, now: int)
    requires Retry(g, r, now).Some?
    ensures r in g.nodes
    ensures var g' := Retry(g, r, now).value;
            && g'.nodes.Keys == g.nodes.Keys && g'.order == g.order
            && forall n :: n in g.nodes ==> g'.nodes[n] == RetriedNode(g, r, now, n)
  {
  }

  lemma {:induction false} RetryStatuses(g: Graph, r: NodeId, now: int)
    requires BlocksJustified(g) && Retry(g, r, now).Some?
    ensures var g' := Retry(g, r, now).value;
            && g'.nodes.Keys == g.nodes.Keys && DepsOf(g') == DepsOf(g)
            && (forall n :: HasStatus(g', n, Pending) <==> Unfinished(g, n) || n == r)
            && (forall n :: Unusable(g', n) <==> HasStatus(g, n, Failed) && n != r)
            && (forall n :: !HasStatus(g', n, Blocked))
  {
    RetryNodes(g, r, now);
    var g' := Retry(g, r, now).value;
    hide Retry;
    assert DepsOf(g') == DepsOf(g);
    forall n
      ensures HasStatus(g', n, Pending) <==> Unfinished(g, n) || n == r
      ensures Unusable(g', n) <==> HasStatus(g, n, Failed) && n != r
      ensures !HasStatus(g', n, Blocked)
    {
      if n in g.nodes {
        assert g'.nodes[n] == RetriedNode(g, r, now, n);
        assert HasStatus(g, n, Blocked) ==> g.nodes[n].failureKind == "dependency_failed";
      }
    }
  }

  /** Retry undoes the old blocks, and the next propagation blocks exactly what a
      computation from scratch would block. */
  lemma {:induction false} RetryThenMarkIsFromScratch(g: Graph, r: NodeId, now: int, n: NodeId)
    requires BlocksJustified(g) && Retry(g, r, now).Some?
    ensures HasStatus(Marked(Retry(g, r, now).value), n, Blocked)
       <==> exists p :: ScratchPath(g, r, p) && p[0] == n
  {
    var g' := Retry(g, r, now).value;
    RetryStatuses(g, r, now);
    hide Retry;
    forall p
      ensures FailurePath(g', p) <==> ScratchPath(g, r, p)
    {
    }
    assert HasStatus(Marked(g'), n, Blocked) <==> n in g'.nodes && Doomed(g', n);
    if p :| ScratchPath(g, r, p) && p[0] == n {
      assert FailurePath(g', p);
    }
  }

  /*--------------------------------- no stall ---------------------------------*/

  ghost predicate NoneRunning(g: Graph) {
    forall n :: !HasStatus(g, n, Running)
  }

  ghost predicate AllSettled(g: Graph) {
    forall n :: n in g.nodes ==> g.nodes[n].status in {Completed, Failed, Blocked}
  }

  /** Below every pending node of a saturated graph lies a ready one. */
  lemma {:induction false} PendingLeadsToReady(g: Graph, rank: map<NodeId, nat>, n: NodeId) returns (r: NodeId)
    requires Closed(DepsOf(g)) && Ranked(DepsOf(g), rank)
    requires Saturated(g) && NoneRunning(g) && HasStatus(g, n, Pending)
    ensures IsReady(g, r)
    decreases rank[n]
  {
    if DependenciesCompleted(g, n) {
      return n;
    }
    var d :| d in g.nodes[n].dependsOn && !HasStatus(g, d, Completed);
    assert n in DepsOf(g) && d in DepsOf(g)[n];
    assert d in DepsOf(g) && rank[d] < rank[n];
    assert !Unusable(g, d) by {
      assert Free(g, n);
    }
    assert !HasStatus(g, d, Running);
    assert HasStatus(g, d, Pending);
    r := PendingLeadsToReady(g, rank, d);
  }

  /** No stall: with nothing running and nothing ready, all work is over. */
  lemma {:induction false} NoStall(g: Graph)
    requires Shape(g) && Saturated(g) && NoneRunning(g) && ReadyNodes(g) == []
    ensures AllSettled(g)
  {
    ReadyNodesExact(g);
    var rank :| Ranked(DepsOf(g), rank);
    forall n | n in g.nodes
      ensures g.nodes[n].status in {Completed, Failed, Blocked}
    {
      if HasStatus(g, n, Pending) {
        var r := PendingLeadsToReady(g, rank, n);
        assert false;
      }
      assert !HasStatus(g, n, Running);
    }
  }

  lemma {:induction false} WaveSettlesRunning(g: Graph, batch: seq<NodeId>, w: WaveWorld)
    requires NoneRunning(g) && Distinct(batch) && forall n :: n in batch ==> n in g.nodes
    ensures forall n :: HasStatus(Started(g, batch, w), n, Running) <==> n in Live(g, batch, w.clock)
    ensures NoneRunning(Wave(g, batch, w))
  {
    var o := OpenWave(g);
    DispatchEffect(o, batch, w.clock);
    var s := Started(g, batch, w);
    forall n | n in g.nodes
      ensures s.nodes[n].status == Running <==> n in Live(g, batch, w.clock)
    {
      assert Dispatched(o.nodes[n], s.nodes[n], n in batch, w.clock(n));
      assert !HasStatus(g, n, Running);
    }
  }

  lemma {:induction false} MarkedNoneRunning(g: Graph)
    requires NoneRunning(g)
    ensures NoneRunning(Marked(g))
  {
    forall n
      ensures !HasStatus(Marked(g), n, Running)
    {
      assert !HasStatus(g, n, Running);
    }
  }

  lemma {:induction false} ExhaustedKeepsShape(g: Graph)
    requires Shape(g) && NoneRunning(g)
    ensures Shape(Bump(g.(quotaExhausted := true))) && NoneRunning(Bump(g.(quotaExhausted := true)))
  {
    var g' := Bump(g.(quotaExhausted := true));
    SameDependencies(g, g');
    forall n
      ensures !HasStatus(g', n, Running)
    {
      assert !HasStatus(g, n, Running);
    }
  }

  /** One round leaves nothing running; if it stops for want of ready nodes, all
      work is over. */
  lemma {:induction false} RoundEnds(g: Graph, maxParallel: int, w: WaveWorld)
    requires Shape(g) && NoneRunning(g) && maxParallel >= 1
    ensures var (g', stop) := Round(g, maxParallel, w);
            Shape(g') && NoneRunning(g') && (stop == Some(NothingReady) ==> AllSettled(g'))
  {
    hide Shape, ReadyNodes, Live, NodesConflict, Wave;
    var m := Marked(g);
    MarkedShape(g);
    MarkedNoneRunning(g);
    MarkedSaturated(g);
    ShapeIsDistinct(m);
    BatchExact(m, maxParallel);
    BatchMembers(m, maxParallel);
    var batch := Batch(m, maxParallel);
    if QuotaFailure(g).Some? {
      ExhaustedKeepsShape(g);
    } else if batch == [] {
      MarkingTwiceChangesNothing(g);
      NoStall(m);
    } else {
      WaveShape(m, batch, w);
      WaveSettlesRunning(m, batch, w);
    }
  }

  /** A run ends with nothing running: by quota, by its wave limit, or because
      every node is completed, failed or blocked. */
  lemma {:induction false} RunEnds(g: Graph, k: nat, maxWaves: int, maxParallel: int, world: nat -> WaveWorld)
    requires Shape(g) && NoneRunning(g) && maxParallel >= 1
    ensures var (g', stop) := RunFrom(g, k, maxWaves, maxParallel, world);
            Shape(g') && NoneRunning(g') && (stop == NothingReady ==> AllSettled(g'))
    decreases maxWaves - k
  {
    if k >= maxWaves {
      MarkedShape(g);
      MarkedNoneRunning(g);
    } else {
      hide Round, Shape;
      RoundEnds(g, maxParallel, world(k));
      var (g', stop) := Round(g, maxParallel, world(k));
      if stop.None? {
        RunEnds(g', k + 1, maxWaves, maxParallel, world);
      }
    }
  }

  /*------------------------------ bounded bypass ------------------------------*/

  predicate Open(g: Graph, n: NodeId) {
    HasStatus(g, n, Pending) || HasStatus(g, n, Running)
  }

  /** How many more dispatches of m can still rank before a node dispatched c times. */
  function Credit(g: Graph, m: NodeId, n: NodeId, c: nat): nat {
    if m == n || !Open(g, m) || g.nodes[m].dispatchCount > c then 0 else c + 1 - g.nodes[m].dispatchCount
  }

  function Credits(g: Graph, order: seq<NodeId>, n: NodeId, c: nat): nat {
    if order == [] then 0 else Credit(g, order[0], n, c) + Credits(g, order[1..], n, c)
  }

  lemma {:induction false} CreditsBound(g: Graph, order: seq<NodeId>, n: NodeId, c: nat)
    ensures Credits(g, order, n, c) <= |order| * (c + 1)
    ensures n in order ==> Credits(g, order, n, c) <= (|order| - 1) * (c + 1)
  {
    if order != [] {
      CreditsBound(g, order[1..], n, c);
      CreditBound(g, order[0], n, c);
      assert order == [order[0]] + order[1..];
      hide Credit;
      OneMore(|order[1..]|, c + 1);
    }
  }

  lemma {:induction false} CreditBound(g: Graph, m: NodeId, n: NodeId, c: nat)
    ensures Credit(g, m, n, c) <= c + 1 && (m == n ==> Credit(g, m, n, c) == 0)
  {
  }

  lemma {:induction false} OneMore(k: nat, c: nat)
    ensures (k + 1) * c == k * c + c && (k > 0 ==> k * c == (k - 1) * c + c)
  {
  }

  lemma {:induction false} CreditsFall(g: Graph, g': Graph, order: seq<NodeId>, n: NodeId, c: nat, b: NodeId)
    requires forall m :: m in order ==> Credit(g', m, n, c) <= Credit(g, m, n, c)
    requires b in order ==> Credit(g', b, n, c) < Credit(g, b, n, c)
    ensures Credits(g', order, n, c) <= Credits(g, order, n, c) - if b in order then 1 else 0
  {
    if order != [] {
      assert order == [order[0]] + order[1..];
      CreditsFall(g, g', order[1..], n, c, b);
    }
  }

  /** What one wave does to one node. */
  ghost predicate WaveEffect(before: Node, after: Node, inBatch: bool, expired: bool) {
    if !inBatch then after == before
    else if expired then after.status == Failed && after.dispatchCount == before.dispatchCount
    else after.status in {Completed, Failed, Pending} && after.dispatchCount == before.dispatchCount + 1
         && after.dependsOn == before.dependsOn
  }

  lemma {:induction false} WaveEffectHolds(g: Graph, batch: seq<NodeId>, w: WaveWorld, n: NodeId)
    requires Distinct(batch) && n in g.nodes && forall m :: m in batch ==> m in g.nodes
    ensures n in Wave(g, batch, w).nodes
    ensures WaveEffect(g.nodes[n], Wave(g, batch, w).nodes[n], n in batch, Expired(g.nodes[n], w.clock(n)))
  {
    var o := OpenWave(g);
    DispatchEffect(o, batch, w.clock);
    assert Dispatched(o.nodes[n], DispatchAll(o, batch, w.clock).nodes[n], n in batch, w.clock(n));
  }

  lemma {:induction false} DoomedIsPending(g: Graph, n: NodeId)
    ensures Doomed(g, n) ==> HasStatus(g, n, Pending) && exists d :: d in g.nodes[n].dependsOn && !HasStatus(g, d, Completed)
  {
    if p :| FailurePath(g, p) && p[0] == n {
      assert p[1] in DepsOf(g)[p[0]];
      assert |p| > 2 ==> HasStatus(g, p[1], Pending);
    }
  }

  lemma {:induction false} MarkedCredit(g: Graph, m: NodeId, n: NodeId, c: nat)
    ensures Credit(Marked(g), m, n, c) <= Credit(g, m, n, c)
  {
    DoomedIsPending(g, m);
  }

  /** A ready node keeps waiting unchanged through propagation. */
  lemma {:induction false} MarkedKeepsReady(g: Graph, n: NodeId)
    requires IsReady(g, n)
    ensures IsReady(Marked(g), n) && Marked(g).nodes[n] == g.nodes[n]
  {
    DoomedIsPending(g, n);
    forall d | d in g.nodes[n].dependsOn
      ensures HasStatus(Marked(g), d, Completed)
    {
      assert HasStatus(g, d, Completed);
      DoomedIsPending(g, d);
    }
  }

  lemma {:induction false} WaveKeepsReady(g: Graph, batch: seq<NodeId>, w: WaveWorld, n: NodeId)
    requires Distinct(batch) && IsReady(g, n) && n !in batch
    requires forall m :: m in batch ==> m in g.nodes && HasStatus(g, m, Pending)
    ensures IsReady(Wave(g, batch, w), n) && Wave(g, batch, w).nodes[n] == g.nodes[n]
  {
    hide Wave;
    WaveEffectHolds(g, batch, w, n);
    forall d | d in g.nodes[n].dependsOn
      ensures HasStatus(Wave(g, batch, w), d, Completed)
    {
      assert HasStatus(g, d, Completed);
      WaveEffectHolds(g, batch, w, d);
    }
  }

  lemma {:induction false} WaveCredit(g: Graph, batch: seq<NodeId>, w: WaveWorld, m: NodeId, n: NodeId, c: nat)
    requires Distinct(batch) && m in g.nodes && n !in batch && forall b :: b in batch ==> b in g.nodes && HasStatus(g, b, Pending)
    ensures Credit(Wave(g, batch, w), m, n, c) <= Credit(g, m, n, c)
    ensures m in batch && g.nodes[m].dispatchCount <= c ==> Credit(Wave(g, batch, w), m, n, c) < Credit(g, m, n, c)
  {
    hide Wave;
    WaveEffectHolds(g, batch, w, m);
  }

  /** The best-ranked ready node was dispatched no more often than any other. */
  lemma {:induction false} BestIsLeastDispatched(g: Graph, maxParallel: int, n: NodeId)
    requires Distinct(g.order) && n in g.order && IsReady(g, n) && maxParallel >= 1
    ensures Batch(g, maxParallel) != []
    ensures var b := Batch(g, maxParallel)[0]; b in g.nodes && g.nodes[b].dispatchCount <= g.nodes[n].dispatchCount
  {
    hide NodesConflict;
    ReadyNodesExact(g);
    BatchExact(g, maxParallel);
    var ready := ReadyNodes(g);
    var k :| 0 <= k < |ready| && ready[k] == RankOf(g, n);
    assert ready[0] in ready;
    assert k > 0 ==> RankLeq(ready[0], ready[k]);
  }

  /** n is ready and this round passes it over. */
  ghost predicate PassedOver(g: Graph, maxParallel: int, w: WaveWorld, n: NodeId) {
    IsReady(g, n) && n !in Batch(Marked(g), maxParallel) && Round(g, maxParallel, w).1.None?
  }

  /** Each round that passes a ready node over uses up one credit of a node
      ranked before it, and leaves the passed node as it was. */
  lemma {:induction false} BypassUsesCredit(g: Graph, maxParallel: int, w: WaveWorld, n: NodeId)
    requires Shape(g) && maxParallel >= 1 && PassedOver(g, maxParallel, w, n)
    ensures var g' := Round(g, maxParallel, w).0;
            var c := g.nodes[n].dispatchCount;
            && Shape(g') && g'.order == g.order && n in g'.nodes && g'.nodes[n] == g.nodes[n] && IsReady(g', n)
            && Credits(g', g.order, n, c) < Credits(g, g.order, n, c)
  {
    var m := Marked(g);
    var batch := Batch(m, maxParallel);
    var c := g.nodes[n].dispatchCount;
    MarkedShape(g);
    ShapeIsDistinct(m);
    MarkedKeepsReady(g, n);
    BatchExact(m, maxParallel);
    BatchMembers(m, maxParallel);
    BestIsLeastDispatched(m, maxParallel, n);
    hide Marked, Wave, Batch, NodesConflict, Shape, Credit;
    WaveShape(m, batch, w);
    WaveKeepsReady(m, batch, w, n);
    var g' := Wave(m, batch, w);
    forall x | x in g.order
      ensures Credit(g', x, n, c) <= Credit(g, x, n, c)
      ensures x == batch[0] ==> Credit(g', x, n, c) < Credit(g, x, n, c)
    {
      MarkedCredit(g, x, n, c);
      WaveCredit(m, batch, w, x, n, c);
    }
    CreditsFall(g, g', g.order, n, c, batch[0]);
  }

  /** From round k on, n is ready and passed over in each of so many rounds. */
  ghost predicate PassedOverFor(g: Graph, k: nat, maxParallel: int, world: nat -> WaveWorld, n: NodeId, rounds: nat)
    decreases rounds
  {
    rounds == 0
    || (PassedOver(g, maxParallel, world(k), n)
        && PassedOverFor(Round(g, maxParallel, world(k)).0, k + 1, maxParallel, world, n, rounds - 1))
  }

  lemma {:induction false} CreditsPayForRounds(g: Graph, k: nat, maxParallel: int, world: nat -> WaveWorld,
          n: NodeId, rounds: nat)
    requires Shape(g) && maxParallel >= 1 && n in g.nodes && PassedOverFor(g, k, maxParallel, world, n, rounds)
    ensures rounds <= Credits(g, g.order, n, g.nodes[n].dispatchCount)
    decreases rounds
  {
    hide Round, Shape, PassedOver, Credits;
    if rounds > 0 {
      BypassUsesCredit(g, maxParallel, world(k), n);
      CreditsPayForRounds(Round(g, maxParallel, world(k)).0, k + 1, maxParallel, world, n, rounds - 1);
    }
  }

  /** Bounded bypass: a ready node that was dispatched c times is passed over in
      at most (number of nodes - 1) * (c + 1) consecutive rounds of a run. */
  lemma {:induction false} BoundedBypass(g: Graph, k: nat, maxParallel: int, world: nat -> WaveWorld, n: NodeId,
          rounds: nat)
    requires Shape(g) && maxParallel >= 1 && n in g.nodes && PassedOverFor(g, k, maxParallel, world, n, rounds)
    ensures rounds <= (|g.order| - 1) * (g.nodes[n].dispatchCount + 1)
  {
    hide Round, PassedOver, PassedOverFor, Credits;
    CreditsPayForRounds(g, k, maxParallel, world, n, rounds);
    ShapeIsDistinct(g);
    CreditsBound(g, g.order, n, g.nodes[n].dispatchCount);
  }
}
