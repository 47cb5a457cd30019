/** Attempt counters and effect ids of workflow nodes across crashes: when an attempt
    stays within the node's limit, and when an effect id is used twice
    (agent/app/subagent/workflow.py). */
module WorkflowAttempts {
  import opened Ordering
  import opened Text
  import opened Scopes
  import opened DeclaredScopes
  import opened Dag
  import opened Workflow
  import opened WorkflowSafety
  import opened WorkflowInvariant
  import opened WorkflowSnapshot
  import opened WorkflowRecovery
  import opened WorkflowDurability
  import opened WorkflowCrash

  /*---------------------------- what a move does to n --------------------------*/

  /** The move starts an attempt of n. */
  ghost predicate MoveStarts(g: Graph, m: Move, parallel: nat, n: NodeId)
    requires Enabled(g, m, parallel)
  {
    m.StartWave? && HasStatus(Apply(g, m, parallel), n, Running)
  }

  /** In memory attempts are counted up by a start, reset by a requeue of the node
      itself, and left alone by every other move. */
  ghost predicate Counted(g: Graph, m: Move, parallel: nat, n: NodeId)
    requires Enabled(g, m, parallel)
  {
    && n in g.nodes && n in Apply(g, m, parallel).nodes
    && var a, b := g.nodes[n], Apply(g, m, parallel).nodes[n];
       b.maxAttempts == a.maxAttempts
       && b.attempts == (if MoveStarts(g, m, parallel, n) then a.attempts + 1
                         else if m.Requeue? && m.node == n then 0 else a.attempts)
  }

  /** Which statuses n can have after the move. */
  ghost predicate Advanced(g: Graph, m: Move, parallel: nat, n: NodeId)
    requires Enabled(g, m, parallel)
  {
    && n in g.nodes && n in Apply(g, m, parallel).nodes
    && var a, b := g.nodes[n], Apply(g, m, parallel).nodes[n];
       && (MoveStarts(g, m, parallel, n) ==> a.status == Pending)
       && (b.status in {Pending, Blocked} && a.status !in {Pending, Blocked} ==>
             || (m.Requeue? && m.node == n)
             || (m.Return? && a.status == Running && a.attempts < a.maxAttempts))
  }

  lemma {:induction false} PropagateCounts(g: Graph, parallel: nat, n: NodeId)
    requires n in g.nodes
    ensures Counted(g, Propagate, parallel, n) && Advanced(g, Propagate, parallel, n)
  {
    MarkedNodes(g);
    hide Marked;
  }

  lemma {:induction false} StartCounts(g: Graph, maxParallel: int, w: WaveWorld, parallel: nat, n: NodeId)
    requires n in g.nodes && Shape(g) && Enabled(g, StartWave(maxParallel, w), parallel)
    ensures var m := StartWave(maxParallel, w); Counted(g, m, parallel, n) && Advanced(g, m, parallel, n)
  {
    hide Batch, Started, Shape, NoneRunning, IsReady;
    var marked := Marked(g);
    MarkedShape(g);
    MarkedNodes(g);
    MarkedNoneRunning(g);
    BatchMembers(marked, maxParallel);
    BatchIsReady(marked, maxParallel);
    var batch := Batch(marked, maxParallel);
    hide Marked, PairwiseFree;
    StartedNode(marked, batch, w, n);
    BatchPending(marked, batch, n);
    assert Apply(g, StartWave(maxParallel, w), parallel) == Started(marked, batch, w);
    NotYetRunning(marked, n);
  }

  lemma {:induction false} NotYetRunning(g: Graph, n: NodeId)
    requires NoneRunning(g) && n in g.nodes
    ensures g.nodes[n].status != Running
  {
    assert !HasStatus(g, n, Running);
  }

  lemma {:induction false} BatchPending(g: Graph, batch: seq<NodeId>, n: NodeId)
    requires ReadyBatch(g, batch)
    ensures n in batch ==> HasStatus(g, n, Pending)
  {
  }

  lemma {:induction false} ReturnCounts(g: Graph, done: set<NodeId>, outcome: NodeId -> Outcome, parallel: nat, n: NodeId)
    requires n in g.nodes && Enabled(g, Return(done, outcome), parallel)
    ensures var m := Return(done, outcome); Counted(g, m, parallel, n) && Advanced(g, m, parallel, n)
  {
    assert n in done ==> HasStatus(g, n, Running);
  }

  lemma {:induction false} RequeueCounts(g: Graph, node: NodeId, now: int, parallel: nat, n: NodeId)
    requires n in g.nodes && Enabled(g, Requeue(node, now), parallel)
    ensures var m := Requeue(node, now); Counted(g, m, parallel, n) && Advanced(g, m, parallel, n)
  {
    RetryNodes(g, node, now);
    hide Retry;
    assert Apply(g, Requeue(node, now), parallel).nodes[n] == RetriedNode(g, node, now, n);
  }

  lemma {:induction false} MoveCounts(g: Graph, m: Move, parallel: nat, n: NodeId)
    requires Shape(g) && n in g.nodes && Enabled(g, m, parallel)
    ensures Counted(g, m, parallel, n) && Advanced(g, m, parallel, n)
  {
    match m
    case Propagate => PropagateCounts(g, parallel, n);
    case StartWave(maxParallel, w) => StartCounts(g, maxParallel, w, parallel, n);
    case Return(done, outcome) => ReturnCounts(g, done, outcome, parallel, n);
    case Requeue(node, now) => RequeueCounts(g, node, now, parallel, n);
    case Checkpoint(exhausted) =>
  }

  /*---------------------------- what a step does to n --------------------------*/

  ghost predicate Starts(d: Durable, step: Step, parallel: nat, n: NodeId)
    requires Possible(d, step, parallel)
  {
    step.Act? && MoveStarts(d.live, step.move, parallel, n)
  }

  /** The step is a checkpoint that reaches the store. */
  predicate Stored(d: Durable, step: Step) {
    step.Act? && Announced(step.move) && !d.cut
  }

  predicate Requeues(step: Step, n: NodeId) {
    step.Act? && step.move.Requeue? && step.move.node == n
  }

  /** A crash puts the counter of n back to that of the stored checkpoint, and a
      stored checkpoint takes it over. */
  lemma {:induction false} StepCounts(d: Durable, step: Step, parallel: nat, n: NodeId)
    requires Inv(d, parallel) && Possible(d, step, parallel) && n in d.live.nodes
    ensures n in d.filed.nodes
    ensures var d' := Take(d, step, parallel);
            && n in d'.live.nodes && n in d'.filed.nodes
            && d'.live.nodes[n].attempts == (if Starts(d, step, parallel, n) then d.live.nodes[n].attempts + 1
                                             else if Requeues(step, n) then 0
                                             else if step.Crash? then d.filed.nodes[n].attempts
                                             else d.live.nodes[n].attempts)
            && d'.filed.nodes[n].attempts == (if Stored(d, step) then d'.live.nodes[n].attempts
                                              else d.filed.nodes[n].attempts)
  {
    hide Inv, Books, WritersDisjoint, Storable, Apply, Enabled, Shape, Revived, Filed, Told, Advanced, MoveStarts;
    hide KeepsCompleted;
    InvParts(d, parallel);
    match step
    case Act(m) => {
      MoveCounts(d.live, m, parallel, n);
      ActInv(d, m, parallel);
      FiledStatuses(Apply(d.live, m, parallel));
      FiledKeys(Apply(d.live, m, parallel));
    }
    case Observe(note) =>
    case Cut =>
    case Crash(r) => CrashCounts(d, r, parallel, n);
  }

  /** The counter, the limit and the status n comes back with. */
  lemma {:induction false} CrashCounts(d: Durable, r: Restart, parallel: nat, n: NodeId)
    requires Inv(d, parallel) && Possible(d, Crash(r), parallel) && n in d.live.nodes
    ensures n in d.filed.nodes && n in Rows(d).nodes && n in Take(d, Crash(r), parallel).live.nodes
    ensures Take(d, Crash(r), parallel).filed == d.filed
    ensures var filed, b := d.filed.nodes[n], Take(d, Crash(r), parallel).live.nodes[n];
            b.attempts == filed.attempts && b.maxAttempts == filed.maxAttempts && b.status == Ends(d, r, n)
    ensures Rows(d).nodes[n].attempts == d.filed.nodes[n].attempts
            && Rows(d).nodes[n].maxAttempts == d.filed.nodes[n].maxAttempts
  {
    hide Inv, Possible, Take, Recovered, Retext, Rescope, Comeback, Reordered, FieldsOk, Record, Frame, Told, Ends;
    CrashInv(d, r, parallel);
    InvParts(d, parallel);
    CrashedNode(d, r, parallel, n);
    RowCounts(d, parallel, n);
    RevivedNode(Rows(d).nodes[n], r.recovery(n), r.disk);
    EndsAs(d, r, parallel, n);
    KeysAfter(d, r, parallel);
  }

  /*------------------------------ attempts and limit ---------------------------*/

  /** The attempts made stay within the limit, and a waiting node has one left. */
  predicate AttemptOk(node: Node) {
    node.attempts <= node.maxAttempts && (node.status in {Pending, Blocked} ==> node.attempts < node.maxAttempts)
  }

  ghost predicate AttemptsOk(g: Graph) {
    forall n :: n in g.nodes ==> AttemptOk(g.nodes[n])
  }

  /** In memory and in the stored checkpoint. */
  ghost predicate WithinLimits(d: Durable) {
    AttemptsOk(d.live) && AttemptsOk(d.filed)
  }

  /** The row of n shows it running, on its last attempt, and the step is a crash whose
      verdict queues it again. The row of a node that has ended shows it running after
      a stray report of a start. */
  predicate OverdrawsAt(d: Durable, step: Step, n: NodeId) {
    && step.Crash? && HasStatus(Rows(d), n, Running) && Rows(d).nodes[n].attempts == Rows(d).nodes[n].maxAttempts
    && step.restart.recovery(n) == "safe_to_retry"
  }

  ghost predicate Overdraws(d: Durable, step: Step) {
    exists n :: OverdrawsAt(d, step, n)
  }

  lemma {:induction false} NodeAttempts(g: Graph, m: Move, parallel: nat, n: NodeId)
    requires Storable(g) && AttemptsOk(g) && Enabled(g, m, parallel)
    requires Counted(g, m, parallel, n) && Advanced(g, m, parallel, n)
    ensures AttemptOk(Apply(g, m, parallel).nodes[n])
  {
    assert FieldsOk(g.nodes[n]) && AttemptOk(g.nodes[n]);
    hide Apply, Enabled, AttemptsOk, Storable;
  }

  lemma {:induction false} MoveAttempts(g: Graph, m: Move, parallel: nat)
    requires Shape(g) && Storable(g) && AttemptsOk(g) && Enabled(g, m, parallel)
    ensures AttemptsOk(Apply(g, m, parallel))
  {
    MoveFrame(g, m, parallel);
    var g' := Apply(g, m, parallel);
    forall n | n in g.nodes
      ensures n in g'.nodes && AttemptOk(g'.nodes[n])
    {
      MoveCounts(g, m, parallel, n);
      NodeAttempts(g, m, parallel, n);
    }
    hide Apply, AttemptOk, Enabled, Shape, Storable;
  }

  lemma {:induction false} FiledAttempts(g: Graph)
    requires AttemptsOk(g)
    ensures AttemptsOk(Filed(g))
  {
    FiledStatuses(g);
    FiledKeys(g);
    hide Filed;
  }

  lemma {:induction false} CrashedAttempt(d: Durable, r: Restart, parallel: nat, n: NodeId)
    requires Inv(d, parallel) && Possible(d, Crash(r), parallel) && n in d.live.nodes && AttemptsOk(d.filed)
    ensures n in Take(d, Crash(r), parallel).live.nodes
    ensures AttemptOk(Take(d, Crash(r), parallel).live.nodes[n]) <==> !OverdrawsAt(d, Crash(r), n)
  {
    hide Inv, Possible, Take, Frame, LastStatus, ToldBy, FieldsOk;
    CrashCounts(d, r, parallel, n);
    assert AttemptOk(d.filed.nodes[n]);
    NodeOf(d, parallel, n);
    FieldsEffect(d.filed.nodes[n]);
    ToldNode(d.filed.nodes[n], d.told, n);
    NeverBlocked(d.told, n);
    hide AttemptsOk;
  }

  lemma {:induction false} CrashAttempts(d: Durable, r: Restart, parallel: nat)
    requires Inv(d, parallel) && Possible(d, Crash(r), parallel) && AttemptsOk(d.filed)
    ensures AttemptsOk(Take(d, Crash(r), parallel).live) <==> !Overdraws(d, Crash(r))
  {
    hide Inv, Possible, Take, AttemptOk, Storable, Books, WritersDisjoint, Shape, NoneRunning;
    KeysAfter(d, r, parallel);
    InvParts(d, parallel);
    var live := Take(d, Crash(r), parallel).live;
    forall n | n in d.live.nodes
      ensures n in live.nodes && (AttemptOk(live.nodes[n]) <==> !OverdrawsAt(d, Crash(r), n))
    {
      CrashedAttempt(d, r, parallel, n);
    }
    assert forall n :: OverdrawsAt(d, Crash(r), n) ==> n in Rows(d).nodes;
    hide OverdrawsAt, Rows;
    assert live.nodes.Keys == d.live.nodes.Keys;
  }

  /** A step keeps every node within its limit, in memory and in the store, if and
      only if it is not a crash that calls the last attempt of a node, running in
      its row, safe to retry. */
  lemma {:induction false} AttemptsExact(d: Durable, step: Step, parallel: nat)
    requires Inv(d, parallel) && Possible(d, step, parallel) && WithinLimits(d)
    ensures WithinLimits(Take(d, step, parallel)) <==> !Overdraws(d, step)
  {
    hide Inv, Books, WritersDisjoint, Storable, Apply, Enabled, Shape, Revived, Filed, Told, AttemptsOk, KeepsCompleted;
    InvParts(d, parallel);
    match step
    case Act(m) => {
      ActInv(d, m, parallel);
      MoveAttempts(d.live, m, parallel);
      FiledAttempts(Apply(d.live, m, parallel));
    }
    case Observe(note) =>
    case Cut =>
    case Crash(r) => {
      KeysAfter(d, r, parallel);
      CrashAttempts(d, r, parallel);
    }
  }

  ghost predicate NeverOverdraws(d: Durable, steps: seq<Step>, parallel: nat)
    requires AllPossible(d, steps, parallel)
    decreases |steps|
  {
    steps == [] || (!Overdraws(d, steps[0]) && NeverOverdraws(Take(d, steps[0], parallel), steps[1..], parallel))
  }

  /** Over any steps without such a crash no node exceeds its limit. */
  lemma {:induction false} ReachableAttempts(d: Durable, steps: seq<Step>, parallel: nat)
    requires Inv(d, parallel) && WithinLimits(d) && AllPossible(d, steps, parallel)
    requires NeverOverdraws(d, steps, parallel)
    ensures WithinLimits(TakeAll(d, steps, parallel))
    decreases |steps|
  {
    hide Inv, Take, Possible, WithinLimits, Overdraws;
    if steps != [] {
      AttemptsExact(d, steps[0], parallel);
      StepInv(d, steps[0], parallel);
      ReachableAttempts(Take(d, steps[0], parallel), steps[1..], parallel);
    }
  }

  /*--------------------------------- effect ids --------------------------------*/

  /** The attempt numbers in the effect ids that n has been dispatched under; the
      rest of the id is the same for all of them. */
  ghost function EffectIds(d: Durable, steps: seq<Step>, parallel: nat, n: NodeId): seq<nat>
    requires AllPossible(d, steps, parallel)
    decreases |steps|
  {
    if steps == [] then []
    else
      var d' := Take(d, steps[0], parallel);
      (if Starts(d, steps[0], parallel, n) && n in d'.live.nodes then [d'.live.nodes[n].attempts] else [])
      + EffectIds(d', steps[1..], parallel, n)
  }

  lemma {:induction false} FirstIds(d: Durable, step: Step, rest: seq<Step>, parallel: nat, n: NodeId)
    requires Possible(d, step, parallel) && AllPossible(Take(d, step, parallel), rest, parallel)
    ensures AllPossible(d, [step] + rest, parallel)
    ensures EffectIds(d, [step] + rest, parallel, n)
         == (if Starts(d, step, parallel, n) && n in Take(d, step, parallel).live.nodes
             then [Take(d, step, parallel).live.nodes[n].attempts] else [])
            + EffectIds(Take(d, step, parallel), rest, parallel, n)
  {
    hide Possible, Take, Starts;
    FirstStep(d, step, rest, parallel);
    assert ([step] + rest)[1..] == rest;
  }

  /** No id is in used or comes twice. */
  predicate AllFresh(ids: seq<nat>, used: set<nat>) {
    ids == [] || (ids[0] !in used && AllFresh(ids[1..], used + {ids[0]}))
  }

  /** What the counters of n know: whether n was ever started, and whether memory and
      the stored checkpoint are behind its last start, because the counter was reset
      since or because they are older than that start. */
  datatype Knowledge = Knowledge(started: bool, behind: bool, filedBehind: bool)

  function Update(k: Knowledge, starts: bool, requeues: bool, crash: bool, stored: bool): Knowledge {
    var behind := if starts then false else if requeues then k.started else if crash then k.filedBehind else k.behind;
    if starts then Knowledge(true, false, !stored)
    else Knowledge(k.started, behind, if stored then behind else k.filedBehind)
  }

  ghost function Learned(d: Durable, step: Step, parallel: nat, n: NodeId, k: Knowledge): Knowledge
    requires Possible(d, step, parallel)
  {
    Update(k, Starts(d, step, parallel, n), Requeues(step, n), step.Crash?, Stored(d, step))
  }

  /** n is started by a process that is behind its last start: n was requeued since,
      or a crash brought back a checkpoint that does not have the start. */
  ghost predicate StartsBehind(d: Durable, steps: seq<Step>, parallel: nat, n: NodeId, k: Knowledge)
    requires AllPossible(d, steps, parallel)
    decreases |steps|
  {
    && steps != []
    && ((Starts(d, steps[0], parallel, n) && k.behind)
        || StartsBehind(Take(d, steps[0], parallel), steps[1..], parallel, n, Learned(d, steps[0], parallel, n, k)))
  }

  /** The ids 1 to last are used, and the counters in memory and in the checkpoint are
      behind where they are below last. */
  ghost predicate UsedUpTo(live: nat, filed: nat, used: set<nat>, last: nat, k: Knowledge) {
    && (forall id: nat :: id in used <==> 1 <= id <= last)
    && live <= last && filed <= last
    && (k.started <==> last > 0) && (k.behind <==> live < last) && (k.filedBehind <==> filed < last)
  }

  lemma {:induction false} UsedStep(live: nat, filed: nat, live': nat, filed': nat, used: set<nat>, last: nat, k: Knowledge,
          starts: bool, requeues: bool, crash: bool, stored: bool)
    requires UsedUpTo(live, filed, used, last, k) && !(starts && (requeues || crash || k.behind))
    requires live' == if starts then live + 1 else if requeues then 0 else if crash then filed else live
    requires filed' == if stored then live' else filed
    ensures var k' := Update(k, starts, requeues, crash, stored);
            if starts then live' == last + 1 && UsedUpTo(live', filed', used + {live'}, last + 1, k')
            else UsedUpTo(live', filed', used, last, k')
  {
  }

  lemma {:induction false} StartIsAct(d: Durable, step: Step, parallel: nat, n: NodeId)
    requires Possible(d, step, parallel)
    ensures Starts(d, step, parallel, n) ==> !Requeues(step, n) && !step.Crash?
  {
    hide Possible, MoveStarts;
    if Starts(d, step, parallel, n) {
      StartIsWave(d, step, parallel, n);
    }
  }

  lemma {:induction false} StartIsWave(d: Durable, step: Step, parallel: nat, n: NodeId)
    requires Possible(d, step, parallel) && Starts(d, step, parallel, n)
    ensures step.Act? && step.move.StartWave?
  {
    hide Apply, Enabled;
  }

  lemma {:induction false} EffectIdsFrom(d: Durable, steps: seq<Step>, parallel: nat, n: NodeId, used: set<nat>, last: nat,
          k: Knowledge)
    requires Inv(d, parallel) && AllPossible(d, steps, parallel) && n in d.live.nodes && n in d.filed.nodes
    requires UsedUpTo(d.live.nodes[n].attempts, d.filed.nodes[n].attempts, used, last, k)
    ensures AllFresh(EffectIds(d, steps, parallel, n), used) <==> !StartsBehind(d, steps, parallel, n, k)
    decreases |steps|
  {
    hide Inv, Take, Possible, Starts, AllFresh, UsedUpTo, Update, Requeues, Stored;
    if steps == [] {
      NothingIsFresh(used);
    } else {
      var step := steps[0];
      var d' := Take(d, step, parallel);
      var rest := EffectIds(d', steps[1..], parallel, n);
      var k' := Learned(d, step, parallel, n, k);
      StepCounts(d, step, parallel, n);
      StepInv(d, step, parallel);
      StartIsAct(d, step, parallel, n);
      var live, filed := d.live.nodes[n].attempts, d.filed.nodes[n].attempts;
      var live', filed' := d'.live.nodes[n].attempts, d'.filed.nodes[n].attempts;
      if Starts(d, step, parallel, n) {
        FreshStep(live', rest, used);
        if k.behind {
          BehindRepeats(live, filed, used, last, k);
        } else {
          UsedStep(live, filed, live', filed', used, last, k, true, false, false, Stored(d, step));
          NextIsFresh(live, filed, used, last, k);
          EffectIdsFrom(d', steps[1..], parallel, n, used + {live'}, last + 1, k');
        }
      } else {
        assert [] + rest == rest;
        UsedStep(live, filed, live', filed', used, last, k, false, Requeues(step, n), step.Crash?, Stored(d, step));
        EffectIdsFrom(d', steps[1..], parallel, n, used, last, k');
      }
    }
  }

  lemma {:induction false} BehindRepeats(live: nat, filed: nat, used: set<nat>, last: nat, k: Knowledge)
    requires UsedUpTo(live, filed, used, last, k) && k.behind
    ensures live + 1 in used
  {
  }

  lemma {:induction false} NextIsFresh(live: nat, filed: nat, used: set<nat>, last: nat, k: Knowledge)
    requires UsedUpTo(live, filed, used, last, k) && !k.behind
    ensures live + 1 !in used
  {
  }

  const UNSTARTED := Knowledge(false, false, false)

  /** From a node that was never started: its effect ids are all different if and only
      if it is never started again after a requeue, or after a crash that brought back
      a checkpoint older than its last start or stored after a requeue. */
  lemma {:induction false} EffectIdsExact(d: Durable, steps: seq<Step>, parallel: nat, n: NodeId)
    requires Inv(d, parallel) && AllPossible(d, steps, parallel)
    requires n in d.live.nodes && n in d.filed.nodes && d.live.nodes[n].attempts == d.filed.nodes[n].attempts == 0
    ensures AllFresh(EffectIds(d, steps, parallel, n), {}) <==> !StartsBehind(d, steps, parallel, n, UNSTARTED)
  {
    hide Inv, AllPossible, EffectIds, StartsBehind, AllFresh;
    assert UsedUpTo(0, 0, {}, 0, UNSTARTED);
    EffectIdsFrom(d, steps, parallel, n, {}, 0, UNSTARTED);
  }

  lemma {:induction false} NothingIsFresh(used: set<nat>)
    ensures AllFresh([], used)
  {
  }

  lemma {:induction false} FreshStep(id: nat, rest: seq<nat>, used: set<nat>)
    ensures AllFresh([id] + rest, used) <==> id !in used && AllFresh(rest, used + {id})
  {
    assert ([id] + rest)[1..] == rest;
  }
}
