/** Workflow graphs across crashes: the graph in memory, the checkpoint in the store and
    the reports stored after it (agent/app/subagent/workflow.py, core
    AgentWorkflowStore.java), and what holds however they drift apart. */
module WorkflowDurability {
  import opened Ordering
  import opened Text
  import opened Scopes
  import opened DeclaredScopes
  import opened Dag
  import opened Workflow
  import opened WorkflowSafety
  import opened WorkflowInvariant
  import opened WorkflowSnapshot
  import opened WorkflowRecovery

  /*-------------------------------- moves in memory ----------------------------*/

  /** The atomic moves of the manager and its environment on the graph in memory. */
  datatype Move =
    | Propagate
    | StartWave(maxParallel: int, w: WaveWorld)
    | Return(done: set<NodeId>, outcome: NodeId -> Outcome)
    | Requeue(node: NodeId, now: int)
    | Checkpoint(exhausted: bool)

  /** When a move can happen; parallel bounds every maxParallel. */
  ghost predicate Enabled(g: Graph, m: Move, parallel: nat) {
    match m
    case Propagate => true
    case StartWave(maxParallel, w) =>
      && NoneRunning(g) && QuotaFailure(g).None? && 1 <= maxParallel <= parallel
      && Batch(Marked(g), maxParallel) != []
    case Return(done, outcome) => forall n :: n in done ==> HasStatus(g, n, Running)
    case Requeue(node, now) => Retry(g, node, now).Some?
    case Checkpoint(exhausted) => true
  }

  ghost function Apply(g: Graph, m: Move, parallel: nat): Graph
    requires Enabled(g, m, parallel)
  {
    match m
    case Propagate => Marked(g)
    case StartWave(maxParallel, w) =>
      BatchMembers(Marked(g), maxParallel);
      Started(Marked(g), Batch(Marked(g), maxParallel), w)
    case Return(done, outcome) => FinishAll(g, done, outcome)
    case Requeue(node, now) => Retry(g, node, now).value
    case Checkpoint(exhausted) => Bump(g.(quotaExhausted := exhausted))
  }

  /** Moves that end in a checkpoint event. */
  predicate Announced(m: Move) {
    m.StartWave? || m.Requeue? || m.Checkpoint?
  }

  lemma {:induction false} StorableStep(g: Graph, g': Graph)
    requires Storable(g) && g'.nodes.Keys == g.nodes.Keys && QuotaOk(g'.quota)
    requires forall n :: n in g.nodes ==>
               && g'.nodes[n].title == g.nodes[n].title && g'.nodes[n].prompt == g.nodes[n].prompt
               && g'.nodes[n].priority == g.nodes[n].priority && g'.nodes[n].maxAttempts == g.nodes[n].maxAttempts
               && g'.nodes[n].effectState != ""
    ensures Storable(g')
  {
  }

  lemma {:induction false} StartedStorable(g: Graph, batch: seq<NodeId>, w: WaveWorld)
    requires Storable(g) && Distinct(batch) && forall n :: n in batch ==> n in g.nodes
    ensures Storable(Started(g, batch, w))
  {
    var s := Started(g, batch, w);
    DispatchQuota(OpenWave(g), batch, w.clock);
    forall n | n in g.nodes
      ensures && s.nodes[n].title == g.nodes[n].title && s.nodes[n].prompt == g.nodes[n].prompt
              && s.nodes[n].priority == g.nodes[n].priority && s.nodes[n].maxAttempts == g.nodes[n].maxAttempts
              && s.nodes[n].effectState != ""
    {
      StartedNode(g, batch, w, n);
    }
    assert QuotaOk(s.quota);
    assert s.nodes.Keys == g.nodes.Keys;
    hide Started, FieldsOk;
    StorableStep(g, s);
  }

  lemma {:induction false} RetryStorable(g: Graph, r: NodeId, now: int)
    requires Storable(g) && Retry(g, r, now).Some?
    ensures Storable(Retry(g, r, now).value)
  {
    RetryNodes(g, r, now);
    var g' := Retry(g, r, now).value;
    assert g'.quota == g.quota;
    hide Retry;
    forall n | n in g.nodes
      ensures FieldsOk(g'.nodes[n])
    {
      assert g'.nodes[n] == RetriedNode(g, r, now, n);
    }
  }

  lemma {:induction false} MarkedStorable(g: Graph)
    requires Storable(g)
    ensures Storable(Marked(g))
  {
    MarkedNodes(g);
    hide Marked;
  }

  lemma {:induction false} SettledStorable(g: Graph, done: set<NodeId>, outcome: NodeId -> Outcome)
    requires Storable(g)
    ensures Storable(FinishAll(g, done, outcome))
  {
  }

  lemma {:induction false} FlagsStorable(g: Graph, g': Graph)
    requires Storable(g) && g'.nodes == g.nodes && g'.quota == g.quota
    ensures Storable(g')
  {
  }

  /** The part of the invariant that no report and no verdict can disturb: the shape of
      the graph and its counters. */
  ghost predicate Books(g: Graph, parallel: nat) {
    Shape(g) && Accounted(g) && SequencesOk(g) && WithinQuota(g, parallel)
  }

  lemma {:induction false} GoodIsBooks(g: Graph, parallel: nat)
    ensures Good(g, parallel) <==> Books(g, parallel) && WritersDisjoint(g) && DependencySafe(g) && BlocksJustified(g)
  {
    hide Shape, Accounted, SequencesOk, WithinQuota, WritersDisjoint, DependencySafe, BlocksJustified;
  }

  /** The same counters and dependencies give the same books. */
  lemma {:induction false} BooksKept(g: Graph, g': Graph, parallel: nat)
    requires Books(g, parallel) && g'.order == g.order && g'.nodes.Keys == g.nodes.Keys
    requires g'.schedulerSequence == g.schedulerSequence && g'.quota == g.quota
    requires forall n :: n in g.nodes ==>
               && g'.nodes[n].dependsOn == g.nodes[n].dependsOn
               && g'.nodes[n].dispatchCount == g.nodes[n].dispatchCount
               && g'.nodes[n].dispatchSequence == g.nodes[n].dispatchSequence
               && g'.nodes[n].durationMs == g.nodes[n].durationMs
    ensures Books(g', parallel)
  {
    hide Shape, Accounted, SequencesOk;
    SameDependencies(g, g');
    CountersKept(g, g');
  }

  /** Writers stay apart and completed nodes stay as they are. */
  ghost predicate Calm(g: Graph, g': Graph) {
    WritersDisjoint(g') && KeepsCompleted(g, g')
  }

  lemma {:induction false} PropagateBooks(g: Graph, parallel: nat)
    requires Books(g, parallel) && WritersDisjoint(g)
    ensures Books(Marked(g), parallel) && Calm(g, Marked(g))
  {
    hide Marked, Shape, Accounted, SequencesOk, WritersDisjoint, KeepsCompleted;
    MarkedNodes(g);
    MarkedWriters(g);
    MarkedShape(g);
    MarkedCounts(g);
    MarkedKeeps(g);
  }

  lemma {:induction false} MarkedKeeps(g: Graph)
    ensures KeepsCompleted(g, Marked(g))
  {
    MarkedNodes(g);
    hide Marked;
  }

  lemma {:induction false} ReturnBooks(g: Graph, done: set<NodeId>, outcome: NodeId -> Outcome, parallel: nat)
    requires Books(g, parallel) && WritersDisjoint(g) && forall n :: n in done ==> HasStatus(g, n, Running)
    ensures Books(FinishAll(g, done, outcome), parallel) && Calm(g, FinishAll(g, done, outcome))
  {
    hide Accounted, SequencesOk, Shape, WritersDisjoint, KeepsCompleted;
    FinishShape(g, done, outcome);
    SettledCounts(g, done, outcome);
    SettledWriters(g, done, outcome);
    FinishKeeps(g, done, outcome);
  }

  lemma {:induction false} FinishKeeps(g: Graph, done: set<NodeId>, outcome: NodeId -> Outcome)
    requires forall n :: n in done ==> HasStatus(g, n, Running)
    ensures KeepsCompleted(g, FinishAll(g, done, outcome))
  {
  }

  lemma {:induction false} RequeueBooks(g: Graph, r: NodeId, now: int, parallel: nat)
    requires Books(g, parallel) && WritersDisjoint(g) && Retry(g, r, now).Some?
    ensures Books(Retry(g, r, now).value, parallel) && Calm(g, Retry(g, r, now).value)
  {
    var g' := Retry(g, r, now).value;
    RetryKeeps(g, r, now);
    hide Retry, Books, WritersDisjoint;
    BooksKept(g, g', parallel);
    WritersStep(g, g');
  }

  lemma {:induction false} FlagsBooks(g: Graph, g': Graph, parallel: nat)
    requires Books(g, parallel) && WritersDisjoint(g)
    requires g' == g.(version := g'.version, quotaExhausted := g'.quotaExhausted)
    ensures Books(g', parallel) && Calm(g, g')
  {
    hide Books, WritersDisjoint;
    BooksKept(g, g', parallel);
    WritersStep(g, g');
  }

  lemma {:induction false} StartBooks(g: Graph, batch: seq<NodeId>, w: WaveWorld, parallel: nat)
    requires Books(g, parallel) && NoneRunning(g) && ReadyBatch(g, batch) && QuotaFailure(g).None? && |batch| <= parallel
    ensures Books(Started(g, batch, w), parallel) && Calm(g, Started(g, batch, w))
  {
    hide Started, Accounted, SequencesOk, Shape, WithinQuota, PairwiseFree, WritersDisjoint, NoneRunning;
    StartedShape(g, batch, w);
    StartedStatuses(g, batch, w);
    StartedCounts(g, batch, w);
    StartedQuota(g, batch, w, parallel);
    RunningWritersDisjoint(g, batch, w);
    assert forall n :: HasStatus(g, n, Completed) ==> n !in batch;
  }

  lemma {:induction false} StartMoveBooks(g: Graph, maxParallel: int, w: WaveWorld, parallel: nat)
    requires Books(g, parallel) && WritersDisjoint(g) && Storable(g) && NoneRunning(g) && QuotaFailure(g).None?
    requires 1 <= maxParallel <= parallel
    ensures forall n :: n in Batch(Marked(g), maxParallel) ==> n in Marked(g).nodes
    ensures var s := Started(Marked(g), Batch(Marked(g), maxParallel), w);
            Books(s, parallel) && Calm(g, s) && Storable(s)
  {
    BooksShape(g, parallel);
    hide Started, Batch, Books, Storable, Marked, Shape, KeepsCompleted, WritersDisjoint, ReadyBatch, NoneRunning;
    var m := Marked(g);
    PropagateBooks(g, parallel);
    MarkedQuota(g);
    MarkedNoneRunning(g);
    MarkedStorable(g);
    MarkedShape(g);
    BatchIsReady(m, maxParallel);
    BatchMembers(m, maxParallel);
    var batch := Batch(m, maxParallel);
    ReadyParts(m, batch);
    StartBooks(m, batch, w, parallel);
    StartedStorable(m, batch, w);
    KeepsCompletedTransitive(g, m, Started(m, batch, w));
  }

  lemma {:induction false} MarkedQuota(g: Graph)
    ensures QuotaFailure(Marked(g)) == QuotaFailure(g)
  {
    MarkedNodes(g);
    hide Marked;
  }

  lemma {:induction false} ReadyParts(g: Graph, batch: seq<NodeId>)
    requires ReadyBatch(g, batch)
    ensures Distinct(batch) && forall n :: n in batch ==> n in g.nodes
  {
  }

  lemma {:induction false} BooksShape(g: Graph, parallel: nat)
    requires Books(g, parallel)
    ensures Shape(g)
  {
  }

  /** Whatever state the graph is in, a move keeps its books, keeps the writers apart
      and leaves completed nodes alone. */
  lemma {:induction false} MoveBooks(g: Graph, m: Move, parallel: nat)
    requires Books(g, parallel) && WritersDisjoint(g) && Storable(g) && Enabled(g, m, parallel)
    ensures Books(Apply(g, m, parallel), parallel) && Storable(Apply(g, m, parallel)) && Calm(g, Apply(g, m, parallel))
  {
    hide Books, WritersDisjoint, Storable, Retry, Marked, Started, Batch, FinishAll, KeepsCompleted;
    match m
    case Propagate =>
      PropagateBooks(g, parallel);
      MarkedStorable(g);
    case StartWave(maxParallel, w) =>
      StartMoveBooks(g, maxParallel, w, parallel);
    case Return(done, outcome) =>
      ReturnBooks(g, done, outcome, parallel);
      SettledStorable(g, done, outcome);
    case Requeue(node, now) =>
      RequeueBooks(g, node, now, parallel);
      RetryStorable(g, node, now);
    case Checkpoint(exhausted) =>
      FlagsBooks(g, Apply(g, m, parallel), parallel);
      FlagsStorable(g, Apply(g, m, parallel));
  }

  lemma {:induction false} StartMoveGood(g: Graph, maxParallel: int, w: WaveWorld, parallel: nat)
    requires Good(g, parallel) && NoneRunning(g) && QuotaFailure(g).None? && 1 <= maxParallel <= parallel
    ensures forall n :: n in Batch(Marked(g), maxParallel) ==> n in Marked(g).nodes
    ensures Good(Started(Marked(g), Batch(Marked(g), maxParallel), w), parallel)
  {
    hide Started, Batch, Good, Marked, Shape, KeepsCompleted, QuotaFailure, NoneRunning;
    var m := Marked(g);
    MarkedGood(g, parallel);
    MarkedQuota(g);
    MarkedNoneRunning(g);
    GoodShape(m, parallel);
    BatchIsReady(m, maxParallel);
    BatchMembers(m, maxParallel);
    StartedGood(m, Batch(m, maxParallel), w, parallel);
  }

  /** A move in memory keeps the whole invariant. */
  lemma {:induction false} MoveGood(g: Graph, m: Move, parallel: nat)
    requires Good(g, parallel) && Enabled(g, m, parallel)
    ensures Good(Apply(g, m, parallel), parallel)
  {
    hide Good, Retry, Marked, Started, Batch, FinishAll, KeepsCompleted;
    match m
    case Propagate => MarkedGood(g, parallel);
    case StartWave(maxParallel, w) => StartMoveGood(g, maxParallel, w, parallel);
    case Return(done, outcome) => SettledGood(g, done, outcome, parallel);
    case Requeue(node, now) => RetryGood(g, node, now, parallel);
    case Checkpoint(exhausted) => FlagsGood(g, Apply(g, m, parallel), parallel);
  }

  /** A move forgets no node, no dispatch and no charge, and charges every node it
      completes. */
  ghost predicate Grows(a: Node, b: Node) {
    && a.durationMs <= b.durationMs && a.dispatchCount <= b.dispatchCount
    && (b.status == Completed && a.status != Completed ==> a.durationMs < b.durationMs)
  }

  lemma {:induction false} MoveGrows(g: Graph, m: Move, parallel: nat, n: NodeId)
    requires Shape(g) && n in g.nodes && Enabled(g, m, parallel)
    ensures n in Apply(g, m, parallel).nodes && Grows(g.nodes[n], Apply(g, m, parallel).nodes[n])
  {
    hide Batch, Shape, NoneRunning, Retry, Marked, Started;
    match m
    case Propagate => MarkedNodes(g);
    case StartWave(maxParallel, w) => StartGrows(g, maxParallel, w, n);
    case Return(done, outcome) =>
    case Requeue(node, now) => RequeueGrows(g, node, now, n);
    case Checkpoint(exhausted) =>
  }

  lemma {:induction false} StartGrows(g: Graph, maxParallel: int, w: WaveWorld, n: NodeId)
    requires Shape(g) && n in g.nodes && maxParallel >= 1
    ensures forall b :: b in Batch(Marked(g), maxParallel) ==> b in Marked(g).nodes
    ensures var s := Started(Marked(g), Batch(Marked(g), maxParallel), w); n in s.nodes && Grows(g.nodes[n], s.nodes[n])
  {
    hide Batch, Shape, Marked, Started;
    MarkedNodes(g);
    MarkedShape(g);
    BatchMembers(Marked(g), maxParallel);
    BatchIsReady(Marked(g), maxParallel);
    hide PairwiseFree, IsReady;
    StartedNode(Marked(g), Batch(Marked(g), maxParallel), w, n);
  }

  lemma {:induction false} RequeueGrows(g: Graph, node: NodeId, now: int, n: NodeId)
    requires n in g.nodes && Retry(g, node, now).Some?
    ensures var g' := Retry(g, node, now).value; n in g'.nodes && Grows(g.nodes[n], g'.nodes[n])
  {
    RetryNodes(g, node, now);
    RetryKeeps(g, node, now);
    var g' := Retry(g, node, now).value;
    hide Retry;
    assert g'.nodes[n] == RetriedNode(g, node, now, n);
  }

  /** The members, the versions and which moves start something. */
  lemma {:induction false} MoveFrame(g: Graph, m: Move, parallel: nat)
    requires Shape(g) && Enabled(g, m, parallel)
    ensures var g' := Apply(g, m, parallel);
            && g'.nodes.Keys == g.nodes.Keys
            && (if Announced(m) then g.version < g'.version else g'.version == g.version)
            && (!m.StartWave? ==> forall n :: HasStatus(g', n, Running) ==> HasStatus(g, n, Running))
  {
    hide Shape;
    match m
    case Propagate => {
      MarkedNodes(g);
      hide Marked;
    }
    case StartWave(maxParallel, w) => {
      hide Marked, Batch;
      MarkedNodes(g);
      BatchMembers(Marked(g), maxParallel);
      DispatchQuota(OpenWave(Marked(g)), Batch(Marked(g), maxParallel), w.clock);
    }
    case Return(done, outcome) =>
    case Requeue(node, now) => {
      RetryKeeps(g, node, now);
      assert Apply(g, m, parallel).version == g.version + 1;
      hide Retry;
    }
    case Checkpoint(exhausted) =>
  }

  /*---------------------------------- the store --------------------------------*/

  /** Blank optional text is stored but read back as absent. */
  function Unblank(s: string): string {
    if Strip(s) == "" then "" else s
  }

  function Known(s: string, default: string): (r: string)
    ensures default != "" ==> r != ""
  {
    if Strip(s) == "" then default else s
  }

  /** A node as its row gives it back. */
  function FiledNode(node: Node): Node {
    node.(result := Unblank(node.result), error := Unblank(node.error), failureKind := Unblank(node.failureKind),
          effectState := Known(node.effectState, "not_started"))
  }

  function Filed(g: Graph): Graph {
    g.(nodes := map n | n in g.nodes :: FiledNode(g.nodes[n]))
  }

  /** Events that carry the id of a node, and what they write into its row. They come
      from the agent that works for the node, and from any agent that was started in its
      name, which can go on in the background after the node has ended. */
  datatype Report =
    | AgentStarted
    | AgentCompleted(output: string)
    | AgentFailed(error: string, failureKind: string, state: string)
    | ToolEffect(state: string)

  function Reported(node: Node, report: Report): Node {
    match report
    case AgentStarted => node.(status := Running)
    case AgentCompleted(output) =>
      node.(status := Completed, result := Unblank(output), error := "", failureKind := "", effectState := "committed")
    case AgentFailed(error, kind, state) =>
      node.(status := Failed, error := Unblank(error), failureKind := Known(kind, "agent_failed"),
            effectState := Known(state, "unknown"))
    case ToolEffect(state) => node.(effectState := Known(state, "unknown"))
  }

  /** A stored report. A report that is lost on its way is no report. */
  datatype Note = Note(node: NodeId, report: Report)

  /** The row of n after the reports that were stored for it. */
  function ToldBy(node: Node, told: seq<Note>, n: NodeId): Node {
    if told == [] then node
    else
      var before, last := ToldBy(node, told[..|told| - 1], n), told[|told| - 1];
      if last.node == n then Reported(before, last.report) else before
  }

  /** The rows: a stored checkpoint with the reports stored since. */
  function Told(g: Graph, told: seq<Note>): Graph {
    g.(nodes := map n | n in g.nodes :: ToldBy(g.nodes[n], told, n))
  }

  /** The status of the last report for n that sets one. */
  function LastStatus(told: seq<Note>, n: NodeId): Option<Status> {
    if told == [] then None
    else
      var last := told[|told| - 1];
      if last.node == n && !last.report.ToolEffect? then
        Some(if last.report.AgentStarted? then Running else if last.report.AgentCompleted? then Completed else Failed)
      else LastStatus(told[..|told| - 1], n)
  }

  /** What reports leave alone, and the status they leave behind. */
  lemma {:induction false} ToldNode(node: Node, told: seq<Note>, n: NodeId)
    requires node.effectState != ""
    ensures var row := ToldBy(node, told, n);
            && row == node.(status := row.status, result := row.result, error := row.error,
                            failureKind := row.failureKind, effectState := row.effectState)
            && row.effectState != ""
            && row.status == (if LastStatus(told, n).Some? then LastStatus(told, n).value else node.status)
            && (LastStatus(told, n).None? ==> row == node.(effectState := row.effectState))
  {
    hide Unblank, Strip;
    if told != [] {
      ToldNode(node, told[..|told| - 1], n);
    }
  }

  /** A node nobody has reported about is as it was stored. */
  lemma {:induction false} Untold(node: Node, told: seq<Note>, n: NodeId)
    requires forall note :: note in told ==> note.node != n
    ensures ToldBy(node, told, n) == node && LastStatus(told, n) == None
  {
    hide Reported;
    if told != [] {
      assert told[|told| - 1] in told;
      Untold(node, told[..|told| - 1], n);
    }
  }

  function Sequences(g: Graph): map<NodeId, nat> {
    map n | n in g.nodes :: g.nodes[n].dispatchSequence
  }

  /** The order in which the rows of a graph are read: by dispatch, then by id. */
  predicate RowLeq(sequences: map<NodeId, nat>, a: NodeId, b: NodeId) {
    var i := if a in sequences then sequences[a] else 0;
    var j := if b in sequences then sequences[b] else 0;
    if i != j then i < j else StrLeq(a, b)
  }

  function InRowOrder(order: seq<NodeId>, sequences: map<NodeId, nat>): (sorted: seq<NodeId>)
    ensures multiset(sorted) == multiset(order)
  {
    Sort(order, (a, b) => RowLeq(sequences, a, b))
  }

  function StoreOrder(g: Graph): (order: seq<NodeId>)
    ensures multiset(order) == multiset(g.order)
  {
    InRowOrder(g.order, Sequences(g))
  }

  function Reordered(g: Graph): Graph {
    g.(order := StoreOrder(g))
  }

  /** What a restarted process makes of the rows. */
  ghost function Revived(rows: Graph, r: Restart): Option<Graph>
    requires Shape(rows)
  {
    ReorderedShape(rows);
    Restore(Snapshot(Reordered(rows), r.recovery), r.disk)
  }

  lemma {:induction false} SameMembers<T>(a: seq<T>, b: seq<T>)
    requires multiset(a) == multiset(b)
    ensures forall x :: x in a <==> x in b
  {
    forall x
      ensures x in a <==> x in b
    {
      assert x in a <==> x in multiset(a);
      assert x in b <==> x in multiset(b);
    }
  }

  lemma {:induction false} StoreOrderDistinct(g: Graph)
    requires Distinct(g.order)
    ensures Distinct(StoreOrder(g)) && forall n :: n in StoreOrder(g) <==> n in g.order
  {
    DistinctCounts(g.order);
    DistinctCounts(StoreOrder(g));
    SameMembers(g.order, StoreOrder(g));
  }

  lemma {:induction false} ReorderedShape(g: Graph)
    requires Shape(g)
    ensures Shape(Reordered(g))
  {
    StoreOrderDistinct(g);
    hide StoreOrder;
    assert DepsOf(Reordered(g)) == DepsOf(g);
  }

  lemma {:induction false} SumConcat(a: seq<NodeId>, b: seq<NodeId>, nodes: map<NodeId, Node>, measure: Node -> nat)
    ensures SumOver(a + b, nodes, measure) == SumOver(a, nodes, measure) + SumOver(b, nodes, measure)
  {
    if a == [] {
      assert a + b == b;
    } else {
      assert (a + b)[1..] == a[1..] + b;
      SumConcat(a[1..], b, nodes, measure);
    }
  }

  /** A sum over the nodes does not depend on their order. */
  lemma {:induction false} SumPermuted(a: seq<NodeId>, b: seq<NodeId>, nodes: map<NodeId, Node>, measure: Node -> nat)
    requires multiset(a) == multiset(b)
    ensures SumOver(a, nodes, measure) == SumOver(b, nodes, measure)
  {
    if a == [] {
      assert |multiset(b)| == 0;
    } else {
      var i, rest := WithoutFirst(a, b);
      SumPermuted(a[1..], rest, nodes, measure);
      SumConcat(b[..i], [b[i]] + b[i + 1..], nodes, measure);
      SumConcat(b[..i], b[i + 1..], nodes, measure);
    }
  }

  lemma {:induction false} WithoutOne(s: seq<NodeId>, i: nat)
    requires i < |s|
    ensures s == s[..i] + ([s[i]] + s[i + 1..])
    ensures multiset(s[..i] + s[i + 1..]) == multiset(s) - multiset{s[i]}
  {
    var a, b := s[..i], s[i + 1..];
    assert s == a + ([s[i]] + b);
    assert multiset(a + ([s[i]] + b)) == multiset(a) + (multiset([s[i]]) + multiset(b));
    assert multiset(a + b) == multiset(a) + multiset(b);
  }

  lemma {:induction false} WithoutFirst(a: seq<NodeId>, b: seq<NodeId>) returns (i: nat, rest: seq<NodeId>)
    requires a != [] && multiset(a) == multiset(b)
    ensures i < |b| && b[i] == a[0] && rest == b[..i] + b[i + 1..] && b == b[..i] + ([b[i]] + b[i + 1..])
    ensures multiset(a[1..]) == multiset(rest)
  {
    SameMembers(a, b);
    assert a[0] in b;
    i :| 0 <= i < |b| && b[i] == a[0];
    rest := b[..i] + b[i + 1..];
    WithoutOne(b, i);
    WithoutOne(a, 0);
    assert a[..0] + a[1..] == a[1..];
  }

  lemma {:induction false} SameBlocks(g: Graph, g': Graph)
    requires BlocksJustified(g) && g'.nodes.Keys == g.nodes.Keys
    requires forall n :: n in g.nodes ==> g'.nodes[n].dependsOn == g.nodes[n].dependsOn
    requires forall n :: HasStatus(g', n, Blocked) ==>
               HasStatus(g, n, Blocked) && g'.nodes[n].failureKind == g.nodes[n].failureKind
    requires forall n :: Unusable(g, n) ==> Unusable(g', n)
    ensures BlocksJustified(g')
  {
    forall n | HasStatus(g', n, Blocked)
      ensures g'.nodes[n].failureKind == "dependency_failed" && HasUnusableDependency(g', n)
    {
      var d :| d in g.nodes[n].dependsOn && Unusable(g, d);
      assert Unusable(g', d);
    }
  }

  lemma {:induction false} ReorderedSums(g: Graph, parallel: nat)
    requires Accounted(g) && SequencesOk(g) && WithinQuota(g, parallel)
    ensures var g' := Reordered(g); Accounted(g') && SequencesOk(g') && WithinQuota(g', parallel)
  {
    SumPermuted(StoreOrder(g), g.order, g.nodes, Dispatches);
    SumPermuted(StoreOrder(g), g.order, g.nodes, Duration);
    hide StoreOrder;
  }

  lemma {:induction false} ReorderedBooks(g: Graph, parallel: nat)
    requires Books(g, parallel)
    ensures Books(Reordered(g), parallel)
  {
    hide Shape, Accounted, SequencesOk, WithinQuota, Reordered;
    ReorderedShape(g);
    ReorderedSums(g, parallel);
  }

  lemma {:induction false} ToldFields(node: Node, told: seq<Note>, n: NodeId)
    requires FieldsOk(node)
    ensures var row := ToldBy(node, told, n);
            && FieldsOk(row) && row.dependsOn == node.dependsOn && row.dispatchCount == node.dispatchCount
            && row.dispatchSequence == node.dispatchSequence && row.durationMs == node.durationMs
  {
    hide ToldBy, LastStatus;
    ToldNode(node, told, n);
  }

  lemma {:induction false} ToldBooks(g: Graph, told: seq<Note>, parallel: nat)
    requires Books(g, parallel) && Storable(g)
    ensures Books(Told(g, told), parallel) && Storable(Told(g, told)) && Shape(Told(g, told))
  {
    hide FieldsOk, ToldBy, Books;
    forall n | n in g.nodes
      ensures FieldsOk(ToldBy(g.nodes[n], told, n))
      ensures var row := ToldBy(g.nodes[n], told, n);
              && row.dependsOn == g.nodes[n].dependsOn && row.dispatchCount == g.nodes[n].dispatchCount
              && row.dispatchSequence == g.nodes[n].dispatchSequence && row.durationMs == g.nodes[n].durationMs
    {
      ToldFields(g.nodes[n], told, n);
    }
    BooksKept(g, Told(g, told), parallel);
    BooksShape(Told(g, told), parallel);
  }

  lemma {:induction false} NotBlank(s: string)
    requires s != "" && !IsSpace(s[0])
    ensures Strip(s) != ""
  {
    StripTrims(s);
  }

  /** b differs from a in optional text only. */
  predicate FiledAs(a: Node, b: Node) {
    && b == a.(result := b.result, error := b.error, failureKind := b.failureKind, effectState := b.effectState)
    && b.effectState != "" && (a.failureKind == "dependency_failed" ==> b.failureKind == "dependency_failed")
  }

  /** Storing a graph changes blank optional text only. */
  lemma {:induction false} FiledNodeKeeps(node: Node)
    requires node.effectState != ""
    ensures FiledAs(node, FiledNode(node))
  {
    NotBlank("dependency_failed");
    hide Strip;
  }

  lemma {:induction false} FiledKeeps(g: Graph)
    requires Storable(g)
    ensures Filed(g) == g.(nodes := Filed(g).nodes) && Filed(g).nodes.Keys == g.nodes.Keys
    ensures forall n :: n in g.nodes ==> FiledAs(g.nodes[n], Filed(g).nodes[n])
  {
    hide FiledNode, FiledAs;
    forall n | n in g.nodes
      ensures FiledAs(g.nodes[n], FiledNode(g.nodes[n]))
    {
      assert FieldsOk(g.nodes[n]);
      FiledNodeKeeps(g.nodes[n]);
    }
  }

  lemma {:induction false} FiledBooks(g: Graph, parallel: nat)
    requires Books(g, parallel) && WritersDisjoint(g) && Storable(g)
    ensures Books(Filed(g), parallel) && WritersDisjoint(Filed(g)) && Storable(Filed(g))
  {
    FiledKeeps(g);
    FiledFields(g, Filed(g));
    hide Filed, Books, WritersDisjoint, Storable;
    BooksKept(g, Filed(g), parallel);
    WritersStep(g, Filed(g));
  }

  lemma {:induction false} FiledFields(g: Graph, f: Graph)
    requires Storable(g) && f == g.(nodes := f.nodes) && f.nodes.Keys == g.nodes.Keys
    requires forall n :: n in g.nodes ==> FiledAs(g.nodes[n], f.nodes[n])
    ensures Storable(f)
  {
    forall n | n in g.nodes
      ensures FieldsOk(f.nodes[n])
    {
      assert FieldsOk(g.nodes[n]) && FiledAs(g.nodes[n], f.nodes[n]);
    }
  }

  lemma {:induction false} FiledGood(g: Graph, parallel: nat)
    requires Good(g, parallel) && Storable(g)
    ensures Good(Filed(g), parallel)
  {
    GoodIsBooks(g, parallel);
    GoodIsBooks(Filed(g), parallel);
    hide Filed, Books, WritersDisjoint, DependencySafe, BlocksJustified, Good, Storable, FiledAs;
    FiledKeeps(g);
    FiledBooks(g, parallel);
    FiledStatus(g, Filed(g));
    hide HasStatus, Unusable, DependenciesCompleted;
    SafeStep(g, Filed(g));
    SameBlocks(g, Filed(g));
  }

  lemma {:induction false} FiledStatus(g: Graph, f: Graph)
    requires f.nodes.Keys == g.nodes.Keys && forall n :: n in g.nodes ==> FiledAs(g.nodes[n], f.nodes[n])
    requires BlocksJustified(g)
    ensures forall n :: HasStatus(f, n, Blocked) ==>
              HasStatus(g, n, Blocked) && f.nodes[n].failureKind == g.nodes[n].failureKind
    ensures forall n :: Unusable(g, n) ==> Unusable(f, n)
    ensures forall n :: n in g.nodes ==> f.nodes[n].dependsOn == g.nodes[n].dependsOn
    ensures forall n :: HasStatus(g, n, Completed) ==> HasStatus(f, n, Completed)
    ensures forall n :: Engaged(f, n) ==> Engaged(g, n)
  {
    forall n | n in g.nodes
      ensures FiledAs(g.nodes[n], f.nodes[n])
    {
    }
  }

  /*-------------------------------- what is recorded ---------------------------*/

  /** All a node has recorded, but for the blanks a restore strips and the scopes
      it reads again. */
  function Record(node: Node): Node {
    Retext(FiledNode(node)).(writeScopes := [])
  }

  lemma {:induction false} FiledTwice(node: Node)
    ensures FiledNode(FiledNode(node)) == FiledNode(node)
  {
    NotBlank("not_started");
    assert Strip("") == "";
    hide Strip;
  }

  lemma {:induction false} FiledRecord(node: Node)
    ensures Record(FiledNode(node)) == Record(node)
  {
    FiledTwice(node);
    hide FiledNode, Retext;
  }

  lemma {:induction false} BackRecord(node: Node, disk: Disk)
    ensures Record(Rescope(Retext(node), disk)) == Record(node)
  {
    RetextTwice(FiledNode(node));
    RetextFiled(node);
    RetextScopes(FiledNode(Retext(node)), Rescope(Retext(node), disk).writeScopes);
    FiledScopes(Retext(node), Rescope(Retext(node), disk).writeScopes);
    hide Retext, FiledNode, DeclaredWriteScopes;
  }

  lemma {:induction false} RetextFiled(node: Node)
    ensures FiledNode(Retext(node)) == Retext(FiledNode(node))
  {
    hide Strip, CleanList;
  }

  lemma {:induction false} FiledScopes(node: Node, scopes: seq<WriteScope>)
    ensures FiledNode(node.(writeScopes := scopes)) == FiledNode(node).(writeScopes := scopes)
  {
    hide Strip;
  }

  lemma {:induction false} RecordKeeps(node: Node)
    ensures Record(node).durationMs == node.durationMs && Record(node).dispatchCount == node.dispatchCount
    ensures Record(node).status == node.status && Record(node).attempts == node.attempts
  {
  }

  /** Completed when restored: by its row, or by the verdict on a running row. */
  predicate Revives(row: Node, verdict: string) {
    row.status == Completed || (row.status == Running && verdict == "completed")
  }

  /** The node such a row stands for. */
  function AsCompleted(row: Node): Node {
    if row.status == Running then row.(status := Completed, effectState := "committed") else row
  }

  lemma {:induction false} RevivedNode(row: Node, verdict: string, disk: Disk)
    requires FieldsOk(row)
    ensures var b := Recovered(Rescope(Retext(row), disk), verdict);
            && (b.status == Completed <==> Revives(row, verdict))
            && (b.status == Completed ==> Record(b) == Record(AsCompleted(row)))
            && b.durationMs == row.durationMs && b.dispatchCount == row.dispatchCount && b.attempts == row.attempts
            && b.maxAttempts == row.maxAttempts && b.status != Running
            && (b.status == Pending <==> row.status == Pending || (row.status == Running && verdict == "safe_to_retry"))
            && (b.status == Blocked <==> row.status == Blocked)
  {
    NotBlank(row.prompt);
    RetextKeeps(row);
    BackRecord(AsCompleted(row), disk);
    RetextStatus(row);
    hide Retext, Record, DeclaredWriteScopes, Strip;
  }

  lemma {:induction false} RetextStatus(node: Node)
    ensures Retext(node.(status := Completed, effectState := "committed"))
         == Retext(node).(status := Completed, effectState := "committed")
    ensures Retext(node).prompt == Strip(node.prompt)
  {
  }

  /*----------------------------------- the state -------------------------------*/

  /** The graph in memory, the last checkpoint that was stored, and the reports stored
      since. Checkpoint events reach the store in order, and those still on their way are
      lost in a crash; cut says that this has begun. */
  datatype Durable = Durable(live: Graph, filed: Graph, told: seq<Note>, cut: bool)

  /** What is in the node table. */
  function Rows(d: Durable): Graph {
    Told(d.filed, d.told)
  }

  lemma {:induction false} NoNotes(d: Durable)
    requires d.told == []
    ensures Rows(d) == d.filed
  {
    assert Rows(d).nodes == d.filed.nodes;
  }

  /** A manager lives as long as a request, so a crash is also how a request ends: the
      next one restores the graph from the rows. */
  datatype Step =
    | Act(move: Move)
    | Observe(note: Note)
    | Cut
    | Crash(restart: Restart)

  /** A checkpoint event; a stored checkpoint with a greater version stays. */
  function Store(d: Durable, g: Graph): Durable {
    if d.cut || d.filed.version > g.version then d.(live := g) else Durable(g, Filed(g), [], false)
  }

  ghost predicate Possible(d: Durable, step: Step, parallel: nat) {
    match step
    case Act(m) => Enabled(d.live, m, parallel)
    case Observe(note) => true
    case Cut => true
    case Crash(r) => Shape(Rows(d)) && Revived(Rows(d), r).Some?
  }

  ghost function Take(d: Durable, step: Step, parallel: nat): Durable
    requires Possible(d, step, parallel)
  {
    match step
    case Act(m) =>
      var g := Apply(d.live, m, parallel);
      if Announced(m) then Store(d, g) else d.(live := g)
    case Observe(note) => d.(told := d.told + [note])
    case Cut => d.(cut := true)
    case Crash(r) => d.(live := Revived(Rows(d), r).value, cut := false)
  }

  /** What reports about n cannot touch: all it has recorded but for status, result,
      error, failure kind and effect state. */
  function Frame(node: Node): Node {
    Record(node).(status := Pending, result := "", error := "", failureKind := "", effectState := "")
  }

  /** The checkpoint is behind what is in memory, and a node that is completed in memory
      has been charged since, or differs in what reports touch only. */
  predicate Behind(filed: Node, live: Node) {
    && filed.durationMs <= live.durationMs && filed.dispatchCount <= live.dispatchCount
    && (live.status == Completed ==> filed.durationMs < live.durationMs || Frame(filed) == Frame(live))
  }

  ghost predicate Inv(d: Durable, parallel: nat) {
    && Books(d.live, parallel) && WritersDisjoint(d.live) && Storable(d.live)
    && Books(d.filed, parallel) && WritersDisjoint(d.filed) && Storable(d.filed)
    && d.live.nodes.Keys == d.filed.nodes.Keys && d.filed.version <= d.live.version
    && forall n :: n in d.live.nodes ==> Behind(d.filed.nodes[n], d.live.nodes[n])
  }

  lemma {:induction false} InvParts(d: Durable, parallel: nat)
    requires Inv(d, parallel)
    ensures Books(d.live, parallel) && WritersDisjoint(d.live) && Storable(d.live) && Shape(d.live)
    ensures Books(d.filed, parallel) && WritersDisjoint(d.filed) && Storable(d.filed) && Shape(d.filed)
    ensures d.live.nodes.Keys == d.filed.nodes.Keys == Rows(d).nodes.Keys && d.filed.version <= d.live.version
  {
    BooksShape(d.live, parallel);
    BooksShape(d.filed, parallel);
    hide Books, WritersDisjoint, Storable, Behind, Shape, ToldBy;
  }

  lemma {:induction false} NodeOf(d: Durable, parallel: nat, n: NodeId)
    requires Inv(d, parallel) && n in d.live.nodes
    ensures n in d.filed.nodes && n in Rows(d).nodes && Behind(d.filed.nodes[n], d.live.nodes[n])
    ensures Rows(d).nodes[n] == ToldBy(d.filed.nodes[n], d.told, n)
    ensures FieldsOk(d.filed.nodes[n]) && FieldsOk(d.live.nodes[n])
  {
    hide Books, WritersDisjoint, Behind, ToldBy, FieldsOk;
  }

  lemma {:induction false} RowsBooks(d: Durable, parallel: nat)
    requires Inv(d, parallel)
    ensures Books(Rows(d), parallel) && Storable(Rows(d)) && Shape(Rows(d))
  {
    hide Books, WritersDisjoint, Storable, Behind;
    ToldBooks(d.filed, d.told, parallel);
  }

  /** A checkpoint just stored. */
  lemma {:induction false} StoredInv(g: Graph, parallel: nat)
    requires Books(g, parallel) && WritersDisjoint(g) && Storable(g)
    ensures Inv(Durable(g, Filed(g), [], false), parallel)
  {
    FiledBooks(g, parallel);
    FiledKeys(g);
    forall n | n in g.nodes
      ensures n in Filed(g).nodes && Behind(Filed(g).nodes[n], g.nodes[n])
    {
      hide Books, WritersDisjoint, Storable, Record, Unblank, Known;
      FiledRecord(g.nodes[n]);
    }
    hide Books, WritersDisjoint, Storable, Behind, Filed;
  }

  lemma {:induction false} FiledKeys(g: Graph)
    ensures Filed(g).nodes.Keys == g.nodes.Keys && Filed(g).version == g.version
  {
  }

  lemma {:induction false} FiledStatuses(g: Graph)
    ensures forall n :: n in g.nodes ==>
              && Filed(g).nodes[n].status == g.nodes[n].status && Filed(g).nodes[n].durationMs == g.nodes[n].durationMs
              && Filed(g).nodes[n].dispatchCount == g.nodes[n].dispatchCount
              && Filed(g).nodes[n].attempts == g.nodes[n].attempts
              && Filed(g).nodes[n].maxAttempts == g.nodes[n].maxAttempts
  {
  }

  /*--------------------------------- every step --------------------------------*/

  /** A new graph in memory beside an unchanged checkpoint. */
  lemma {:induction false} NewLive(d: Durable, d': Durable, parallel: nat)
    requires Inv(d, parallel) && d'.filed == d.filed && d.filed.version <= d'.live.version
    requires Books(d'.live, parallel) && WritersDisjoint(d'.live) && Storable(d'.live)
    requires d'.live.nodes.Keys == d.live.nodes.Keys
    requires forall n :: n in d.live.nodes ==> Behind(d.filed.nodes[n], d'.live.nodes[n])
    ensures Inv(d', parallel)
  {
    hide Books, WritersDisjoint, Storable, Behind;
  }

  lemma {:induction false} GrownBehind(filed: Node, a: Node, b: Node)
    requires Behind(filed, a) && Grows(a, b) && (a.status == Completed ==> b == a)
    ensures Behind(filed, b)
  {
    hide Frame;
  }

  lemma {:induction false} ActInv(d: Durable, m: Move, parallel: nat)
    requires Inv(d, parallel) && Enabled(d.live, m, parallel)
    ensures Inv(Take(d, Act(m), parallel), parallel)
    ensures Announced(m) && !d.cut ==>
              var g := Apply(d.live, m, parallel); Take(d, Act(m), parallel) == Durable(g, Filed(g), [], false)
    ensures KeepsCompleted(d.live, Take(d, Act(m), parallel).live)
  {
    hide Inv, Books, WritersDisjoint, Storable, Shape, Apply, Enabled, Behind, Filed, Grows;
    var g := Apply(d.live, m, parallel);
    InvParts(d, parallel);
    MoveBooks(d.live, m, parallel);
    MoveFrame(d.live, m, parallel);
    if Announced(m) && !d.cut {
      StoredInv(g, parallel);
    } else {
      forall n | n in d.live.nodes
        ensures n in d.filed.nodes && Behind(d.filed.nodes[n], g.nodes[n])
      {
        NodeOf(d, parallel, n);
        MoveGrows(d.live, m, parallel, n);
        assert d.live.nodes[n].status == Completed ==> HasStatus(d.live, n, Completed);
        GrownBehind(d.filed.nodes[n], d.live.nodes[n], g.nodes[n]);
      }
      NewLive(d, d.(live := g), parallel);
    }
  }

  /** What the rows come back as: always a graph, if every scope can be read. */
  lemma {:induction false} RevivedIs(rows: Graph, r: Restart)
    requires Shape(rows) && Storable(rows)
    ensures Revived(rows, r) == if Rereadable(rows, r.disk) then Some(Comeback(Reordered(rows), r)) else None
  {
    hide Restore, Snapshot, Comeback, StoreOrder, Shape, NodeRereadable;
    ReorderedShape(rows);
    RestoreIsComeback(Reordered(rows), r);
  }

  lemma {:induction false} ComebackKeys(rows: Graph, r: Restart)
    ensures Comeback(Reordered(rows), r).nodes.Keys == rows.nodes.Keys
    ensures Comeback(Reordered(rows), r).version == rows.version && Comeback(Reordered(rows), r).quota == rows.quota
  {
    hide Back;
  }

  lemma {:induction false} ComebackRow(rows: Graph, r: Restart, n: NodeId)
    requires n in rows.nodes
    ensures n in Comeback(Reordered(rows), r).nodes
    ensures Comeback(Reordered(rows), r).nodes[n] == Recovered(Rescope(Retext(rows.nodes[n]), r.disk), r.recovery(n))
  {
    hide Retext, Rescope, Recovered, StoreOrder;
  }

  lemma {:induction false} ComebackBooks(rows: Graph, r: Restart, parallel: nat)
    requires Books(rows, parallel) && Storable(rows)
    ensures var b := Comeback(Reordered(rows), r);
            Books(b, parallel) && WritersDisjoint(b) && Storable(b) && NoneRunning(b)
  {
    ReorderedBooks(rows, parallel);
    var g := Reordered(rows);
    assert Storable(g) && g.nodes == rows.nodes;
    hide Reordered, Storable;
    BooksComeBack(g, r, parallel);
  }

  lemma {:induction false} BooksComeBack(g: Graph, r: Restart, parallel: nat)
    requires Books(g, parallel) && Storable(g)
    ensures var b := Comeback(g, r); Books(b, parallel) && WritersDisjoint(b) && Storable(b) && NoneRunning(b)
  {
    hide Accounted, SequencesOk, Shape, Comeback, WritersDisjoint, KeepsWork, Storable;
    ComebackShape(g, r);
    ComebackCounts(g, r);
    ComebackStorable(g, r);
    ComebackFrame(g, r);
    ComebackIdle(g, r);
    IdleWriters(Comeback(g, r));
  }

  lemma {:induction false} ComebackIdle(g: Graph, r: Restart)
    requires Storable(g)
    ensures NoneRunning(Comeback(g, r))
  {
    var b := Comeback(g, r);
    forall n
      ensures !HasStatus(b, n, Running)
    {
      if n in g.nodes {
        assert FieldsOk(g.nodes[n]);
        hide Back, FieldsOk, Comeback;
        ComebackNode(g, r, n);
        RetextKeeps(g.nodes[n]);
      }
    }
  }

  /** A node as it comes back from its row. */
  lemma {:induction false} CrashedNode(d: Durable, r: Restart, parallel: nat, n: NodeId)
    requires Inv(d, parallel) && n in d.live.nodes
    ensures n in Rows(d).nodes && n in d.filed.nodes && FieldsOk(Rows(d).nodes[n])
    ensures n in Comeback(Reordered(Rows(d)), r).nodes
    ensures Comeback(Reordered(Rows(d)), r).nodes[n]
         == Recovered(Rescope(Retext(Rows(d).nodes[n]), r.disk), r.recovery(n))
    ensures Frame(Rows(d).nodes[n]) == Frame(d.filed.nodes[n])
  {
    hide Inv, Retext, Rescope, Recovered, Comeback, Reordered, ToldBy;
    NodeOf(d, parallel, n);
    RowsBooks(d, parallel);
    ComebackRow(Rows(d), r, n);
    hide Books, Shape, FieldsOk;
    ToldFrame(d.filed.nodes[n], d.told, n);
  }

  lemma {:induction false} ToldFrame(node: Node, told: seq<Note>, n: NodeId)
    requires FieldsOk(node)
    ensures Frame(ToldBy(node, told, n)) == Frame(node)
  {
    ToldNode(node, told, n);
    hide ToldBy;
    FrameSame(node, ToldBy(node, told, n));
  }

  lemma {:induction false} FrameSame(a: Node, b: Node)
    requires b == a.(status := b.status, result := b.result, error := b.error, failureKind := b.failureKind,
                     effectState := b.effectState)
    ensures Frame(b) == Frame(a)
  {
    hide Strip, CleanList;
  }

  lemma {:induction false} CrashedBehind(d: Durable, r: Restart, parallel: nat, n: NodeId)
    requires Inv(d, parallel) && n in d.live.nodes
    ensures n in d.filed.nodes && n in Comeback(Reordered(Rows(d)), r).nodes
    ensures Behind(d.filed.nodes[n], Comeback(Reordered(Rows(d)), r).nodes[n])
  {
    hide Inv, Comeback, Reordered, Rows, Recovered, Rescope, Retext, Frame;
    CrashedNode(d, r, parallel, n);
    RevivedNode(Rows(d).nodes[n], r.recovery(n), r.disk);
    RowCounts(d, parallel, n);
    hide FieldsOk, Record;
    RevivedFrame(Rows(d).nodes[n], r.recovery(n), r.disk);
  }

  lemma {:induction false} RowCounts(d: Durable, parallel: nat, n: NodeId)
    requires Inv(d, parallel) && n in d.live.nodes
    ensures n in Rows(d).nodes && n in d.filed.nodes
    ensures var a, b := d.filed.nodes[n], Rows(d).nodes[n];
            && b.durationMs == a.durationMs && b.dispatchCount == a.dispatchCount && b.attempts == a.attempts
            && b.maxAttempts == a.maxAttempts && b.dependsOn == a.dependsOn
  {
    hide Inv, ToldBy;
    NodeOf(d, parallel, n);
    ToldNode(d.filed.nodes[n], d.told, n);
  }

  lemma {:induction false} RevivedFrame(row: Node, verdict: string, disk: Disk)
    requires FieldsOk(row)
    ensures Frame(Recovered(Rescope(Retext(row), disk), verdict)) == Frame(row)
  {
    var back := Rescope(Retext(row), disk);
    BackRecord(row, disk);
    hide Retext, Rescope, FieldsOk;
    var b := Recovered(back, verdict);
    assert b == back.(status := b.status, result := b.result, error := b.error, failureKind := b.failureKind,
                      effectState := b.effectState);
    hide Recovered, Record;
    FrameSame(back, b);
  }

  lemma {:induction false} CrashInv(d: Durable, r: Restart, parallel: nat)
    requires Inv(d, parallel) && Possible(d, Crash(r), parallel)
    ensures Rereadable(Rows(d), r.disk)
    ensures Take(d, Crash(r), parallel) == d.(live := Comeback(Reordered(Rows(d)), r), cut := false)
    ensures Inv(Take(d, Crash(r), parallel), parallel) && NoneRunning(Take(d, Crash(r), parallel).live)
  {
    hide Inv, Books, Storable, WritersDisjoint, Behind, Revived, Rereadable, Shape, NoneRunning, Comeback, Told;
    RowsBooks(d, parallel);
    InvParts(d, parallel);
    RevivedIs(Rows(d), r);
    ComebackBooks(Rows(d), r, parallel);
    ComebackKeys(Rows(d), r);
    hide Reordered;
    var live := Comeback(Reordered(Rows(d)), r);
    assert Rows(d).version == d.filed.version by { RowsVersion(d); }
    forall n | n in d.live.nodes
      ensures n in d.filed.nodes && n in live.nodes && Behind(d.filed.nodes[n], live.nodes[n])
    {
      CrashedBehind(d, r, parallel, n);
    }
    NewLive(d, d.(live := live, cut := false), parallel);
  }

  lemma {:induction false} RowsVersion(d: Durable)
    ensures Rows(d) == d.filed.(nodes := Rows(d).nodes)
  {
  }

  lemma {:induction false} QuietInv(d: Durable, d': Durable, parallel: nat)
    requires Inv(d, parallel) && d'.live == d.live && d'.filed == d.filed
    ensures Inv(d', parallel)
  {
    hide Books, Storable, WritersDisjoint, Behind;
  }

  /** Every step keeps the invariant, and only a crash changes a completed node. */
  lemma {:induction false} StepInv(d: Durable, step: Step, parallel: nat)
    requires Inv(d, parallel) && Possible(d, step, parallel)
    ensures Inv(Take(d, step, parallel), parallel)
    ensures !step.Crash? ==> KeepsCompleted(d.live, Take(d, step, parallel).live)
  {
    match step
    case Act(m) => {
      hide Inv, Enabled, Apply, KeepsCompleted;
      ActInv(d, m, parallel);
    }
    case Observe(note) => {
      hide Inv;
      QuietInv(d, Take(d, step, parallel), parallel);
    }
    case Cut => {
      hide Inv;
      QuietInv(d, Take(d, step, parallel), parallel);
    }
    case Crash(r) => {
      hide Inv, Revived, Shape, Told;
      CrashInv(d, r, parallel);
    }
  }

  /*------------------------------ every reachable state ------------------------*/

  ghost predicate AllPossible(d: Durable, steps: seq<Step>, parallel: nat)
    decreases |steps|
  {
    steps == [] || (Possible(d, steps[0], parallel) && AllPossible(Take(d, steps[0], parallel), steps[1..], parallel))
  }

  ghost function TakeAll(d: Durable, steps: seq<Step>, parallel: nat): Durable
    requires AllPossible(d, steps, parallel)
    decreases |steps|
  {
    if steps == [] then d else TakeAll(Take(d, steps[0], parallel), steps[1..], parallel)
  }

  lemma {:induction false} FirstStep(d: Durable, step: Step, rest: seq<Step>, parallel: nat)
    requires Possible(d, step, parallel) && AllPossible(Take(d, step, parallel), rest, parallel)
    ensures AllPossible(d, [step] + rest, parallel)
    ensures TakeAll(d, [step] + rest, parallel) == TakeAll(Take(d, step, parallel), rest, parallel)
  {
    hide Possible, Take;
    assert ([step] + rest)[1..] == rest;
  }

  lemma {:induction false} JoinedSteps(d: Durable, one: seq<Step>, two: seq<Step>, parallel: nat)
    requires AllPossible(d, one, parallel) && AllPossible(TakeAll(d, one, parallel), two, parallel)
    ensures AllPossible(d, one + two, parallel)
    ensures TakeAll(d, one + two, parallel) == TakeAll(TakeAll(d, one, parallel), two, parallel)
    decreases |one|
  {
    hide Possible, Take;
    if one == [] {
      assert one + two == two;
    } else {
      JoinedSteps(Take(d, one[0], parallel), one[1..], two, parallel);
      assert (one + two)[1..] == one[1..] + two;
    }
  }

  predicate Crashes(steps: seq<Step>) {
    steps != [] && (steps[0].Crash? || Crashes(steps[1..]))
  }

  /** Over any steps of the manager, its agents and whatever they leave behind in the
      background, of the store and of crashes with any verdicts: memory, stored
      checkpoint and rows keep their shape and their accounting, no two running nodes
      may write one file, and without a crash completed nodes do not change. */
  lemma {:induction false} ReachableBooks(d: Durable, steps: seq<Step>, parallel: nat)
    requires Inv(d, parallel) && AllPossible(d, steps, parallel)
    ensures var d' := TakeAll(d, steps, parallel);
            && Inv(d', parallel) && Books(d'.live, parallel) && WritersDisjoint(d'.live)
            && Books(d'.filed, parallel) && Books(Rows(d'), parallel)
            && (!Crashes(steps) ==> KeepsCompleted(d.live, d'.live))
    decreases |steps|
  {
    hide Books, WritersDisjoint, Inv, Take, Possible, KeepsCompleted, Rows;
    if steps == [] {
      InvParts(d, parallel);
      RowsBooks(d, parallel);
      CompletedKept(d.live);
    } else {
      var next := Take(d, steps[0], parallel);
      StepInv(d, steps[0], parallel);
      ReachableBooks(next, steps[1..], parallel);
      if !Crashes(steps) {
        KeepsCompletedTransitive(d.live, next.live, TakeAll(next, steps[1..], parallel).live);
      }
    }
  }

  lemma {:induction false} CompletedKept(g: Graph)
    ensures KeepsCompleted(g, g)
  {
  }

  /** A created graph whose first checkpoint has been stored. */
  function Begun(created: Graph): Durable {
    Durable(Bump(created), Filed(Bump(created)), [], false)
  }
}
