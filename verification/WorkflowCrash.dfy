/** What a crash leaves of a workflow: which nodes are still completed and with what, when
    the restored graph still makes sense, and what the quota forgets
    (agent/app/subagent/workflow.py, core AgentWorkflowStore.java). */
module WorkflowCrash {
  import opened Ordering
  import opened Text
  import opened Scopes
  import opened DeclaredScopes
  import opened Dag
  import opened Workflow
  import opened WorkflowSafety
  import opened WorkflowInvariant
  import opened WorkflowSnapshot
  import opened WorkflowRecovery
  import opened WorkflowDurability

  /*------------------------------ how a node comes back ------------------------*/

  /** The status in which n comes back: the last one that was reported since the
      checkpoint, or that of the checkpoint, and the verdict on a running row. */
  function Ends(d: Durable, r: Restart, n: NodeId): Status
    requires n in d.filed.nodes
  {
    var status := if LastStatus(d.told, n).Some? then LastStatus(d.told, n).value else d.filed.nodes[n].status;
    if status != Running then status
    else if r.recovery(n) == "completed" then Completed
    else if r.recovery(n) == "safe_to_retry" then Pending
    else Failed
  }

  lemma {:induction false} RecoveredStatus(row: Node, verdict: string, disk: Disk)
    requires FieldsOk(row)
    ensures var b := Recovered(Rescope(Retext(row), disk), verdict);
            && b.status == (if row.status != Running then row.status
                            else if verdict == "completed" then Completed
                            else if verdict == "safe_to_retry" then Pending else Failed)
            && b.dependsOn == row.dependsOn
            && (row.status != Running ==> b.failureKind == row.failureKind)
  {
    NotBlank(row.prompt);
    RetextKeeps(row);
    RetextStatus(row);
    hide Retext, DeclaredWriteScopes, Strip;
  }

  lemma {:induction false} EndsAs(d: Durable, r: Restart, parallel: nat, n: NodeId)
    requires Inv(d, parallel) && Possible(d, Crash(r), parallel) && n in d.filed.nodes
    ensures var after := Take(d, Crash(r), parallel).live;
            && n in after.nodes && after.nodes[n].status == Ends(d, r, n)
            && after.nodes[n].dependsOn == d.filed.nodes[n].dependsOn
            && (Ends(d, r, n) == Blocked ==>
                  d.filed.nodes[n].status == Blocked && after.nodes[n].failureKind == d.filed.nodes[n].failureKind)
  {
    hide Inv, Possible, Take, Comeback, Reordered, Recovered, Retext, Rescope, ToldBy, LastStatus, FieldsOk, Frame;
    CrashInv(d, r, parallel);
    InvParts(d, parallel);
    NodeOf(d, parallel, n);
    CrashedNode(d, r, parallel, n);
    RecoveredStatus(Rows(d).nodes[n], r.recovery(n), r.disk);
    assert d.filed.nodes[n].effectState != "" by { FieldsEffect(d.filed.nodes[n]); }
    ToldNode(d.filed.nodes[n], d.told, n);
    NeverBlocked(d.told, n);
  }

  /** The same, said of the row. */
  lemma {:induction false} EndsByRow(d: Durable, r: Restart, parallel: nat, n: NodeId)
    requires Inv(d, parallel) && n in d.filed.nodes
    ensures n in Rows(d).nodes
    ensures var row := Rows(d).nodes[n];
            Ends(d, r, n) == (if row.status != Running then row.status
                              else if r.recovery(n) == "completed" then Completed
                              else if r.recovery(n) == "safe_to_retry" then Pending else Failed)
  {
    hide Inv, ToldBy, LastStatus, FieldsOk, Frame, Books, WritersDisjoint, Storable, Shape;
    InvParts(d, parallel);
    NodeOf(d, parallel, n);
    FieldsEffect(d.filed.nodes[n]);
    ToldNode(d.filed.nodes[n], d.told, n);
  }

  lemma {:induction false} FieldsEffect(node: Node)
    requires FieldsOk(node)
    ensures node.effectState != ""
  {
  }

  lemma {:induction false} NeverBlocked(told: seq<Note>, n: NodeId)
    ensures LastStatus(told, n) in {None, Some(Running), Some(Completed), Some(Failed)}
  {
    if told != [] {
      NeverBlocked(told[..|told| - 1], n);
    }
  }

  /*-------------------------- when the graph still makes sense -----------------*/

  /** A report has set the status of a node that was not running in the checkpoint. */
  predicate Stray(d: Durable, n: NodeId) {
    n in d.filed.nodes && d.filed.nodes[n].status != Running && LastStatus(d.told, n).Some?
  }

  predicate DependsOn(d: Durable, n: NodeId, dep: NodeId) {
    n in d.filed.nodes && dep in d.filed.nodes[n].dependsOn && dep in d.filed.nodes
  }

  predicate NoUse(s: Status) { s == Failed || s == Blocked }

  /** Where a stray report touches a dependency, no node ends completed on top of one
      that does not. */
  ghost predicate EdgesHold(d: Durable, r: Restart) {
    forall n, dep :: DependsOn(d, n, dep) && (Stray(d, n) || Stray(d, dep)) ==>
      Ends(d, r, n) == Completed ==> Ends(d, r, dep) == Completed
  }

  /** n is blocked, and every dependency that it was blocked for has a stray report. */
  ghost predicate LosesReason(d: Durable, n: NodeId) {
    && n in d.filed.nodes && d.filed.nodes[n].status == Blocked && !Stray(d, n)
    && forall dep :: DependsOn(d, n, dep) && NoUse(d.filed.nodes[dep].status) ==> Stray(d, dep)
  }

  ghost predicate HasReason(d: Durable, r: Restart, n: NodeId) {
    exists dep :: DependsOn(d, n, dep) && NoUse(Ends(d, r, dep))
  }

  /** The stray reports since the checkpoint do no harm under these verdicts. */
  ghost predicate Harmless(d: Durable, r: Restart) {
    EdgesHold(d, r) && forall n :: LosesReason(d, n) ==> HasReason(d, r, n)
  }

  /** after has the nodes of the checkpoint in the statuses in which they end. */
  ghost predicate EndState(d: Durable, r: Restart, after: Graph) {
    && after.nodes.Keys == d.filed.nodes.Keys
    && forall n :: n in d.filed.nodes ==>
         && after.nodes[n].status == Ends(d, r, n) && after.nodes[n].dependsOn == d.filed.nodes[n].dependsOn
         && (Ends(d, r, n) == Blocked ==>
               d.filed.nodes[n].status == Blocked && after.nodes[n].failureKind == d.filed.nodes[n].failureKind)
  }

  lemma {:induction false} CrashEndState(d: Durable, r: Restart, parallel: nat)
    requires Inv(d, parallel) && Possible(d, Crash(r), parallel)
    ensures EndState(d, r, Take(d, Crash(r), parallel).live)
  {
    hide Inv, Possible, Take, Ends, Books, WritersDisjoint, Storable, Shape, NoneRunning;
    CrashInv(d, r, parallel);
    InvParts(d, parallel);
    InvParts(Take(d, Crash(r), parallel), parallel);
    forall n | n in d.filed.nodes
      ensures var after := Take(d, Crash(r), parallel).live;
              && n in after.nodes && after.nodes[n].status == Ends(d, r, n)
              && after.nodes[n].dependsOn == d.filed.nodes[n].dependsOn
              && (Ends(d, r, n) == Blocked ==>
                    d.filed.nodes[n].status == Blocked && after.nodes[n].failureKind == d.filed.nodes[n].failureKind)
    {
      EndsAs(d, r, parallel, n);
    }
    KeysAfter(d, r, parallel);
  }

  lemma {:induction false} KeysAfter(d: Durable, r: Restart, parallel: nat)
    requires Inv(d, parallel) && Possible(d, Crash(r), parallel)
    ensures Take(d, Crash(r), parallel).live.nodes.Keys == d.filed.nodes.Keys
    ensures Take(d, Crash(r), parallel).filed == d.filed
  {
    hide Inv, Possible, Take, Comeback, Reordered, Told, Books, WritersDisjoint, Storable, Shape, NoneRunning;
    CrashInv(d, r, parallel);
    InvParts(d, parallel);
    ComebackKeys(Rows(d), r);
  }

  lemma {:induction false} EndsAsBefore(d: Durable, r: Restart, n: NodeId)
    requires n in d.filed.nodes && !Stray(d, n)
    ensures d.filed.nodes[n].status != Running ==> Ends(d, r, n) == d.filed.nodes[n].status
  {
    hide LastStatus;
  }

  lemma {:induction false} SafeExact(d: Durable, r: Restart, after: Graph)
    requires Closed(DepsOf(d.filed)) && DependencySafe(d.filed) && EndState(d, r, after)
    ensures DependencySafe(after) <==> EdgesHold(d, r)
  {
    hide LastStatus;
    if DependencySafe(after) {
      forall n, dep | DependsOn(d, n, dep) && Ends(d, r, n) == Completed
        ensures Ends(d, r, dep) == Completed
      {
        assert Engaged(after, n) && DependenciesCompleted(after, n);
        assert HasStatus(after, dep, Completed);
      }
    }
    if EdgesHold(d, r) {
      forall n | n in after.nodes && Engaged(after, n)
        ensures DependenciesCompleted(after, n)
      {
        assert Ends(d, r, n) == Completed;
        forall dep | dep in after.nodes[n].dependsOn
          ensures HasStatus(after, dep, Completed)
        {
          DependencyEnds(d, r, n, dep);
        }
      }
    }
  }

  lemma {:induction false} DependencyEnds(d: Durable, r: Restart, n: NodeId, dep: NodeId)
    requires Closed(DepsOf(d.filed)) && DependencySafe(d.filed) && EdgesHold(d, r)
    requires n in d.filed.nodes && dep in d.filed.nodes[n].dependsOn && Ends(d, r, n) == Completed
    ensures dep in d.filed.nodes && Ends(d, r, dep) == Completed
  {
    hide LastStatus, Ends;
    DependencyExists(d, n, dep);
    if !Stray(d, n) && !Stray(d, dep) {
      EndsAsBefore(d, r, n);
      EndsAsBefore(d, r, dep);
      assert Engaged(d.filed, n);
      assert DependenciesCompleted(d.filed, n);
      assert HasStatus(d.filed, dep, Completed);
    }
  }

  lemma {:induction false} DependencyExists(d: Durable, n: NodeId, dep: NodeId)
    requires Closed(DepsOf(d.filed)) && n in d.filed.nodes && dep in d.filed.nodes[n].dependsOn
    ensures DependsOn(d, n, dep)
  {
    assert n in DepsOf(d.filed) && dep in DepsOf(d.filed)[n];
    assert dep in DepsOf(d.filed);
  }

  lemma {:induction false} BlocksExact(d: Durable, r: Restart, after: Graph)
    requires Closed(DepsOf(d.filed)) && BlocksJustified(d.filed) && EndState(d, r, after)
    ensures BlocksJustified(after) <==> forall n :: LosesReason(d, n) ==> HasReason(d, r, n)
  {
    hide LastStatus, Ends, LosesReason, Stray;
    if BlocksJustified(after) {
      forall n | LosesReason(d, n)
        ensures HasReason(d, r, n)
      {
        StaysBlocked(d, r, n);
        assert HasStatus(after, n, Blocked);
        var dep :| dep in after.nodes[n].dependsOn && Unusable(after, dep);
        assert DependsOn(d, n, dep) && NoUse(Ends(d, r, dep));
      }
    }
    if forall n :: LosesReason(d, n) ==> HasReason(d, r, n) {
      forall n | HasStatus(after, n, Blocked)
        ensures after.nodes[n].failureKind == "dependency_failed" && HasUnusableDependency(after, n)
      {
        assert HasStatus(d.filed, n, Blocked);
        ReasonRemains(d, r, n);
        var dep :| DependsOn(d, n, dep) && NoUse(Ends(d, r, dep));
        assert Unusable(after, dep);
      }
    }
  }

  lemma {:induction false} StaysBlocked(d: Durable, r: Restart, n: NodeId)
    requires LosesReason(d, n)
    ensures n in d.filed.nodes && Ends(d, r, n) == Blocked
  {
    hide LastStatus;
  }

  lemma {:induction false} ReasonRemains(d: Durable, r: Restart, n: NodeId)
    requires BlocksJustified(d.filed) && HasStatus(d.filed, n, Blocked) && Ends(d, r, n) == Blocked
    requires LosesReason(d, n) ==> HasReason(d, r, n)
    requires Closed(DepsOf(d.filed))
    ensures HasReason(d, r, n)
  {
    BlockedIsUntold(d, r, n);
    hide LastStatus, Ends, Stray;
    if !LosesReason(d, n) {
      var dep :| DependsOn(d, n, dep) && NoUse(d.filed.nodes[dep].status) && !Stray(d, dep);
      EndsAsBefore(d, r, dep);
    }
  }

  lemma {:induction false} BlockedIsUntold(d: Durable, r: Restart, n: NodeId)
    requires n in d.filed.nodes && Ends(d, r, n) == Blocked
    ensures !Stray(d, n)
  {
    NeverBlocked(d.told, n);
    hide LastStatus;
  }

  /** Whether a crash leaves a graph that makes sense is decided by the stray reports
      since the checkpoint: the restored graph keeps the whole invariant if and only if
      no completed node has lost a dependency to them, none was completed by them before
      its dependencies, and no blocked node has lost all its reasons. */
  lemma {:induction false} CrashGoodExact(d: Durable, r: Restart, parallel: nat)
    requires Inv(d, parallel) && Possible(d, Crash(r), parallel) && Good(d.filed, parallel)
    ensures Good(Take(d, Crash(r), parallel).live, parallel) <==> Harmless(d, r)
  {
    var d' := Take(d, Crash(r), parallel);
    CrashInv(d, r, parallel);
    InvParts(d', parallel);
    CrashEndState(d, r, parallel);
    hide Inv, Take, Possible, EndState, Storable;
    GoodIsBooks(d'.live, parallel);
    GoodIsBooks(d.filed, parallel);
    assert Closed(DepsOf(d.filed));
    hide Good, Books, WritersDisjoint, DependencySafe, BlocksJustified, Shape, NoneRunning, EdgesHold, LosesReason, HasReason;
    SafeExact(d, r, d'.live);
    BlocksExact(d, r, d'.live);
  }

  /*--------------------------- what a node has left ----------------------------*/

  /** The columns that reports write. */
  datatype Columns = Columns(result: string, error: string, failureKind: string, effectState: string)

  function Outcomes(node: Node): Columns {
    Columns(Unblank(node.result), Unblank(node.error), Unblank(node.failureKind), Known(node.effectState, "not_started"))
  }

  /** A record is its frame, its status and those columns. */
  lemma {:induction false} RecordParts(a: Node, b: Node)
    ensures Record(a) == Record(b) <==> Frame(a) == Frame(b) && a.status == b.status && Outcomes(a) == Outcomes(b)
  {
    RecordColumns(a);
    RecordColumns(b);
    hide Record, Unblank, Known;
    assert Frame(a) == Frame(b) && a.status == b.status && Outcomes(a) == Outcomes(b) ==> Record(a) == Record(b);
  }

  lemma {:induction false} RecordColumns(node: Node)
    ensures var record := Record(node);
            && record.status == node.status
            && Outcomes(node) == Columns(record.result, record.error, record.failureKind, record.effectState)
  {
    hide Strip, CleanList, Unblank, Known;
  }

  /** After the crash n is completed with what these columns say. */
  predicate ComesBackWith(d: Durable, r: Restart, n: NodeId, columns: Columns)
    requires n in d.filed.nodes && n in Rows(d).nodes
  {
    Ends(d, r, n) == Completed && Outcomes(AsCompleted(Rows(d).nodes[n])) == columns
  }

  lemma {:induction false} RevivedParts(row: Node, verdict: string, disk: Disk)
    requires FieldsOk(row)
    ensures var b := Recovered(Rescope(Retext(row), disk), verdict);
            && Frame(b) == Frame(row)
            && (b.status == Completed ==> Outcomes(b) == Outcomes(AsCompleted(row)))
  {
    RevivedFrame(row, verdict, disk);
    RevivedNode(row, verdict, disk);
    var b := Recovered(Rescope(Retext(row), disk), verdict);
    hide Recovered, Rescope, Retext, FieldsOk;
    if b.status == Completed {
      RecordParts(b, AsCompleted(row));
    }
  }

  lemma {:induction false} AfterCrash(d: Durable, r: Restart, parallel: nat, n: NodeId)
    requires Inv(d, parallel) && Possible(d, Crash(r), parallel) && n in d.live.nodes
    ensures n in d.filed.nodes && n in Rows(d).nodes && n in Take(d, Crash(r), parallel).live.nodes
    ensures var b := Take(d, Crash(r), parallel).live.nodes[n];
            && b.status == Ends(d, r, n) && Frame(b) == Frame(d.filed.nodes[n])
            && (b.status == Completed ==> Outcomes(b) == Outcomes(AsCompleted(Rows(d).nodes[n])))
  {
    hide Inv, Possible, Take, Comeback, Reordered, Recovered, Retext, Rescope, Told, FieldsOk, Frame, Outcomes, Ends;
    CrashInv(d, r, parallel);
    InvParts(d, parallel);
    CrashedNode(d, r, parallel, n);
    RevivedParts(Rows(d).nodes[n], r.recovery(n), r.disk);
    EndsAs(d, r, parallel, n);
  }

  /** What becomes of a node that is completed in memory. It is completed after the crash
      if and only if it ends so by its last report and the verdict; and it comes back with
      all it recorded if and only if, besides, the runtime it was charged has been stored
      and its row has the result it has in memory. */
  lemma {:induction false} CrashKeepsExact(d: Durable, r: Restart, parallel: nat, n: NodeId)
    requires Inv(d, parallel) && Possible(d, Crash(r), parallel) && HasStatus(d.live, n, Completed)
    ensures n in d.filed.nodes && n in Rows(d).nodes
    ensures var after := Take(d, Crash(r), parallel).live;
            && (HasStatus(after, n, Completed) <==> Ends(d, r, n) == Completed)
            && (HasStatus(after, n, Completed) && Record(after.nodes[n]) == Record(d.live.nodes[n])
                <==> d.filed.nodes[n].durationMs == d.live.nodes[n].durationMs
                     && ComesBackWith(d, r, n, Outcomes(d.live.nodes[n])))
  {
    hide Inv, Possible, Take, Record, Outcomes, Ends, AsCompleted, Told;
    AfterCrash(d, r, parallel, n);
    NodeOf(d, parallel, n);
    var b, live := Take(d, Crash(r), parallel).live.nodes[n], d.live.nodes[n];
    RecordParts(b, live);
    FrameCounts(d.filed.nodes[n], live);
    hide Frame, FieldsOk;
  }

  lemma {:induction false} FrameCounts(a: Node, b: Node)
    ensures Frame(a) == Frame(b) ==> a.durationMs == b.durationMs
  {
    hide Strip, CleanList, Unblank, Known;
  }

  /** Completed nodes stay completed with all they recorded. */
  ghost predicate StaysCompleted(g: Graph, g': Graph) {
    forall n :: HasStatus(g, n, Completed) ==> HasStatus(g', n, Completed) && Record(g'.nodes[n]) == Record(g.nodes[n])
  }

  /** The reports since the checkpoint leave n, which is completed in it, as it is. */
  predicate Repeats(d: Durable, r: Restart, n: NodeId)
    requires n in d.filed.nodes && n in Rows(d).nodes
  {
    ComesBackWith(d, r, n, Outcomes(d.filed.nodes[n]))
  }

  ghost predicate AllRepeat(d: Durable, r: Restart) {
    forall n :: HasStatus(d.filed, n, Completed) ==> n in Rows(d).nodes && Repeats(d, r, n)
  }

  /** The nodes completed in the stored checkpoint stay completed with all they recorded
      if and only if the reports since say of each what the checkpoint says. */
  lemma {:induction false} CheckpointKeptExact(d: Durable, r: Restart, parallel: nat)
    requires Inv(d, parallel) && Possible(d, Crash(r), parallel)
    ensures StaysCompleted(d.filed, Take(d, Crash(r), parallel).live) <==> AllRepeat(d, r)
  {
    hide Inv, Possible, Take, Record, Outcomes, Ends, AsCompleted, Told, Books, WritersDisjoint, Storable, Shape, Frame;
    InvParts(d, parallel);
    var after := Take(d, Crash(r), parallel).live;
    forall n | HasStatus(d.filed, n, Completed)
      ensures n in Rows(d).nodes && n in after.nodes
      ensures HasStatus(after, n, Completed) && Record(after.nodes[n]) == Record(d.filed.nodes[n]) <==> Repeats(d, r, n)
    {
      AfterCrash(d, r, parallel, n);
      RecordParts(after.nodes[n], d.filed.nodes[n]);
    }
    hide Repeats;
  }

  /** What one report says of a node completed in the checkpoint, and when it repeats it:
      a failure never, a start only with the verdict that it completed, a completion with
      the same output, a tool effect with the same state. */
  lemma {:induction false} OneReportExact(d: Durable, r: Restart, parallel: nat, n: NodeId, report: Report)
    requires Inv(d, parallel) && HasStatus(d.filed, n, Completed) && d.told == [Note(n, report)]
    ensures n in Rows(d).nodes
    ensures Repeats(d, r, n) <==>
              var was := Outcomes(d.filed.nodes[n]);
              match report
              case AgentStarted => r.recovery(n) == "completed" && was.effectState == "committed"
              case AgentCompleted(output) => was == Columns(Unblank(output), "", "", "committed")
              case AgentFailed(_, _, _) => false
              case ToolEffect(state) => was.effectState == Known(state, "unknown")
  {
    hide Inv, Reported, Outcomes, AsCompleted, ToldBy, LastStatus, Books, WritersDisjoint, Storable, Shape;
    InvParts(d, parallel);
    OneNote(d.filed.nodes[n], n, report);
    ReportRepeats(d.filed.nodes[n], report);
  }

  lemma {:induction false} OneNote(node: Node, n: NodeId, report: Report)
    ensures ToldBy(node, [Note(n, report)], n) == Reported(node, report)
    ensures LastStatus([Note(n, report)], n)
         == if report.ToolEffect? then None else Some(Reported(node, report).status)
  {
    var told := [Note(n, report)];
    assert told[..|told| - 1] == [];
    assert ToldBy(node, [], n) == node && LastStatus([], n) == None;
    hide Unblank, Known;
  }

  lemma {:induction false} ReportRepeats(node: Node, report: Report)
    requires node.status == Completed
    ensures var after, was := Outcomes(AsCompleted(Reported(node, report))), Outcomes(node);
            after == match report
                     case AgentStarted => was.(effectState := "committed")
                     case AgentCompleted(output) => Columns(Unblank(output), "", "", "committed")
                     case AgentFailed(error, kind, state) =>
                       was.(error := Unblank(error), failureKind := Known(kind, "agent_failed"), effectState := Known(state, "unknown"))
                     case ToolEffect(state) => was.(effectState := Known(state, "unknown"))
    ensures Reported(node, report).status == if report.AgentStarted? then Running
                                             else if report.AgentFailed? then Failed else Completed
  {
    NotBlank("committed");
    NotBlank("agent_failed");
    UnblankTwice();
    hide Strip;
  }

  lemma {:induction false} UnblankTwice()
    ensures Unblank("") == ""
    ensures forall s :: Unblank(Unblank(s)) == Unblank(s)
    ensures forall s :: Known(Known(s, "unknown"), "not_started") == Known(s, "unknown")
  {
    NotBlank("unknown");
    assert Strip("") == "";
    hide Strip;
  }

  /** Every report since the checkpoint is about a node that was running in it. */
  predicate OnlyRunning(d: Durable) {
    forall note :: note in d.told ==> HasStatus(d.filed, note.node, Running) || note.node !in d.filed.nodes
  }

  /** Such reports do no harm, whatever they say and whatever the verdicts. */
  lemma {:induction false} RunningReportsAreHarmless(d: Durable, r: Restart, parallel: nat)
    requires Inv(d, parallel) && Good(d.filed, parallel) && OnlyRunning(d)
    ensures Harmless(d, r) && AllRepeat(d, r)
  {
    GoodIsBooks(d.filed, parallel);
    hide Inv, ToldBy, LastStatus, Books, WritersDisjoint, Storable, Shape, Outcomes, Ends, Good, DependencySafe;
    forall n | n in d.filed.nodes && d.filed.nodes[n].status != Running
      ensures LastStatus(d.told, n) == None && ToldBy(d.filed.nodes[n], d.told, n) == d.filed.nodes[n]
    {
      Untold(d.filed.nodes[n], d.told, n);
    }
    assert forall n :: !Stray(d, n);
    InvParts(d, parallel);
    forall n | HasStatus(d.filed, n, Completed)
      ensures n in Rows(d).nodes && Repeats(d, r, n)
    {
      EndsAsBefore(d, r, n);
      assert Rows(d).nodes[n] == d.filed.nodes[n];
    }
    ShapeIsClosed(d.filed);
    forall n
      ensures !LosesReason(d, n)
    {
      KeepsReason(d, n);
    }
    NoStrayNoHarm(d, r, parallel);
  }

  lemma {:induction false} ShapeIsClosed(g: Graph)
    requires Shape(g)
    ensures Closed(DepsOf(g))
  {
  }

  lemma {:induction false} KeepsReason(d: Durable, n: NodeId)
    requires Closed(DepsOf(d.filed)) && BlocksJustified(d.filed) && forall k :: !Stray(d, k)
    ensures !LosesReason(d, n)
  {
    hide Stray;
    if HasStatus(d.filed, n, Blocked) {
      var dep :| dep in d.filed.nodes[n].dependsOn && Unusable(d.filed, dep);
      assert DependsOn(d, n, dep);
    }
  }

  lemma {:induction false} NoStrayNoHarm(d: Durable, r: Restart, parallel: nat)
    requires forall n :: !Stray(d, n)
    ensures EdgesHold(d, r)
  {
    hide Stray, Ends;
  }

  /*--------------------------- runs that keep everything -----------------------*/

  /** Memory and stored checkpoint satisfy the whole invariant, and memory has kept what
      is completed in the checkpoint. */
  ghost predicate Sane(d: Durable, parallel: nat) {
    Inv(d, parallel) && Good(d.live, parallel) && Good(d.filed, parallel) && StaysCompleted(d.filed, d.live)
  }

  lemma {:induction false} FilingKeeps(g: Graph)
    ensures StaysCompleted(g, Filed(g)) && StaysCompleted(Filed(g), g)
  {
    hide FiledNode, Record;
    forall n | n in g.nodes
      ensures Record(FiledNode(g.nodes[n])) == Record(g.nodes[n]) && FiledNode(g.nodes[n]).status == g.nodes[n].status
    {
      FiledRecord(g.nodes[n]);
      RecordKeeps(g.nodes[n]);
      RecordKeeps(FiledNode(g.nodes[n]));
    }
  }

  lemma {:induction false} StaysTransitive(a: Graph, b: Graph, c: Graph)
    requires StaysCompleted(a, b) && StaysCompleted(b, c)
    ensures StaysCompleted(a, c)
  {
    hide Record;
  }

  lemma {:induction false} CompletedStays(g: Graph, g': Graph)
    requires KeepsCompleted(g, g')
    ensures StaysCompleted(g, g')
  {
    hide Record;
  }

  lemma {:induction false} SameCompleted(g: Graph)
    ensures StaysCompleted(g, g)
  {
  }

  /** A step in memory or in the store keeps everything. */
  lemma {:induction false} SaneStep(d: Durable, step: Step, parallel: nat)
    requires Sane(d, parallel) && Possible(d, step, parallel) && !step.Crash?
    ensures Sane(Take(d, step, parallel), parallel)
    ensures StaysCompleted(d.filed, Take(d, step, parallel).filed)
  {
    hide Inv, Good, Enabled, Apply, Filed, StaysCompleted, KeepsCompleted;
    StepInv(d, step, parallel);
    SameCompleted(d.filed);
    if step.Act? {
      SaneAct(d, step.move, parallel);
    }
  }

  lemma {:induction false} SaneAct(d: Durable, m: Move, parallel: nat)
    requires Sane(d, parallel) && Enabled(d.live, m, parallel)
    ensures var d' := Take(d, Act(m), parallel);
            && Good(d'.live, parallel) && Good(d'.filed, parallel)
            && StaysCompleted(d'.filed, d'.live) && StaysCompleted(d.filed, d'.filed)
  {
    hide Inv, Good, Enabled, Apply, Filed, StaysCompleted, KeepsCompleted, Storable, Books, WritersDisjoint, Shape;
    var g := Apply(d.live, m, parallel);
    InvParts(d, parallel);
    ActInv(d, m, parallel);
    MoveGood(d.live, m, parallel);
    InvParts(Take(d, Act(m), parallel), parallel);
    FiledGood(g, parallel);
    FilingKeeps(g);
    SameCompleted(d.filed);
    CompletedStays(d.live, g);
    StaysTransitive(d.filed, d.live, g);
    StaysTransitive(d.filed, g, Filed(g));
  }

  /** A crash keeps everything if and only if the reports since the checkpoint are
      harmless and repeat it. */
  lemma {:induction false} SaneCrashExact(d: Durable, r: Restart, parallel: nat)
    requires Sane(d, parallel) && Possible(d, Crash(r), parallel)
    ensures Sane(Take(d, Crash(r), parallel), parallel) <==> Harmless(d, r) && AllRepeat(d, r)
    ensures Take(d, Crash(r), parallel).filed == d.filed
  {
    hide Inv, Good, Possible, Take, StaysCompleted, Harmless, AllRepeat, Rereadable, NoneRunning;
    CrashInv(d, r, parallel);
    KeysAfter(d, r, parallel);
    CrashGoodExact(d, r, parallel);
    CheckpointKeptExact(d, r, parallel);
  }

  ghost predicate Tame(d: Durable, step: Step) {
    step.Crash? ==> Harmless(d, step.restart) && AllRepeat(d, step.restart)
  }

  /** Every crash of the run meets reports that are harmless and repeat the checkpoint. */
  ghost predicate AllTame(d: Durable, steps: seq<Step>, parallel: nat)
    requires AllPossible(d, steps, parallel)
    decreases |steps|
  {
    steps == [] || (Tame(d, steps[0]) && AllTame(Take(d, steps[0], parallel), steps[1..], parallel))
  }

  ghost predicate SaneThroughout(d: Durable, steps: seq<Step>, parallel: nat)
    requires AllPossible(d, steps, parallel)
    decreases |steps|
  {
    Sane(d, parallel) && (steps == [] || SaneThroughout(Take(d, steps[0], parallel), steps[1..], parallel))
  }

  /** A run keeps dependency safety, justified blocks, disjoint writers, exact accounting
      and the work of its stored checkpoints throughout if and only if no crash meets a
      report that does harm or contradicts the checkpoint; and then a node completed in
      a stored checkpoint stays completed with all it recorded, in memory and in the
      store, to the end. */
  lemma {:induction false} ReachableGood(d: Durable, steps: seq<Step>, parallel: nat)
    requires Sane(d, parallel) && AllPossible(d, steps, parallel)
    ensures SaneThroughout(d, steps, parallel) <==> AllTame(d, steps, parallel)
    ensures AllTame(d, steps, parallel) ==>
              var d' := TakeAll(d, steps, parallel);
              Sane(d', parallel) && StaysCompleted(d.filed, d'.filed) && StaysCompleted(d.filed, d'.live)
    decreases |steps|
  {
    hide Take, Possible, Sane, Tame, StaysCompleted;
    if steps == [] {
      SaneParts(d, parallel);
      SameCompleted(d.filed);
    } else {
      var next := Take(d, steps[0], parallel);
      TameStep(d, steps[0], parallel);
      if Tame(d, steps[0]) {
        ReachableGood(next, steps[1..], parallel);
        if AllTame(next, steps[1..], parallel) {
          var last := TakeAll(next, steps[1..], parallel);
          StaysTransitive(d.filed, next.filed, last.filed);
          StaysTransitive(d.filed, next.filed, last.live);
        }
      }
    }
  }

  lemma {:induction false} SaneParts(d: Durable, parallel: nat)
    requires Sane(d, parallel)
    ensures Inv(d, parallel) && StaysCompleted(d.filed, d.live)
  {
  }

  lemma {:induction false} TameStep(d: Durable, step: Step, parallel: nat)
    requires Sane(d, parallel) && Possible(d, step, parallel)
    ensures Sane(Take(d, step, parallel), parallel) <==> Tame(d, step)
    ensures StaysCompleted(d.filed, Take(d, step, parallel).filed)
  {
    hide Take, Possible, Sane, StaysCompleted, Harmless, AllRepeat;
    if step.Crash? {
      SaneCrashExact(d, step.restart, parallel);
      SameCompleted(d.filed);
    } else {
      SaneStep(d, step, parallel);
    }
  }

  /** A run without crashes keeps everything. */
  lemma {:induction false} UncrashedIsTame(d: Durable, steps: seq<Step>, parallel: nat)
    requires AllPossible(d, steps, parallel) && !Crashes(steps)
    ensures AllTame(d, steps, parallel)
    decreases |steps|
  {
    hide Take, Possible, Harmless, AllRepeat;
    if steps != [] {
      UncrashedIsTame(Take(d, steps[0], parallel), steps[1..], parallel);
    }
  }

  /** A created graph whose first checkpoint has been stored starts such runs. */
  lemma {:induction false} CreatedSane(raws: seq<RawNode>, quota: RawQuota, createdAt: int, disk: Disk, parallel: nat)
    requires Create(raws, quota, createdAt, disk).Some? && parallel >= 1
    ensures Sane(Begun(Create(raws, quota, createdAt, disk).value), parallel)
  {
    hide Create, Good, Storable, Inv, Filed, Books, WritersDisjoint, KeepsCompleted, StaysCompleted;
    CreatedGood(raws, quota, createdAt, disk, parallel);
    var g := Create(raws, quota, createdAt, disk).value;
    FlagsGood(g, Bump(g), parallel);
    FlagsStorable(g, Bump(g));
    GoodIsBooks(Bump(g), parallel);
    StoredInv(Bump(g), parallel);
    FiledGood(Bump(g), parallel);
    FilingKeeps(Bump(g));
  }

  lemma {:induction false} DistinctSameMembers(a: seq<NodeId>, b: seq<NodeId>)
    requires Distinct(a) && Distinct(b) && forall x :: x in a <==> x in b
    ensures multiset(a) == multiset(b)
  {
    DistinctCounts(a);
    DistinctCounts(b);
    forall x
      ensures multiset(a)[x] == multiset(b)[x]
    {
      assert x in multiset(a) <==> x in a;
      assert x in multiset(b) <==> x in b;
    }
  }

  /** What the nodes of b have counted beyond those of a. */
  function Beyond(order: seq<NodeId>, a: map<NodeId, Node>, b: map<NodeId, Node>, measure: Node -> nat): nat {
    if order == [] then 0
    else
      var n := order[0];
      (if n in a && n in b && measure(a[n]) <= measure(b[n]) then measure(b[n]) - measure(a[n]) else 0)
      + Beyond(order[1..], a, b, measure)
  }

  lemma {:induction false} SumBeyond(order: seq<NodeId>, a: map<NodeId, Node>, b: map<NodeId, Node>, measure: Node -> nat)
    requires a.Keys == b.Keys && forall n :: n in a ==> measure(a[n]) <= measure(b[n])
    ensures SumOver(order, b, measure) == SumOver(order, a, measure) + Beyond(order, a, b, measure)
  {
    if order != [] {
      SumBeyond(order[1..], a, b, measure);
    }
  }

  lemma {:induction false} LiveBeyondFiled(d: Durable, parallel: nat)
    requires Inv(d, parallel)
    ensures d.live.quota.usedRuntimeMs
         == d.filed.quota.usedRuntimeMs + Beyond(d.live.order, d.filed.nodes, d.live.nodes, Duration)
    ensures d.live.quota.usedAttempts
         == d.filed.quota.usedAttempts + Beyond(d.live.order, d.filed.nodes, d.live.nodes, Dispatches)
  {
    hide Storable, SumOver, Beyond, Frame, WritersDisjoint, SequencesOk, Told;
    assert Accounted(d.live) && Accounted(d.filed);
    InvParts(d, parallel);
    SameOrder(d.live, d.filed);
    hide Shape;
    SumPermuted(d.live.order, d.filed.order, d.filed.nodes, Duration);
    SumPermuted(d.live.order, d.filed.order, d.filed.nodes, Dispatches);
    SumBeyond(d.live.order, d.filed.nodes, d.live.nodes, Duration);
    SumBeyond(d.live.order, d.filed.nodes, d.live.nodes, Dispatches);
  }

  lemma {:induction false} SameOrder(a: Graph, b: Graph)
    requires Shape(a) && Shape(b) && a.nodes.Keys == b.nodes.Keys
    ensures multiset(a.order) == multiset(b.order)
  {
    DistinctSameMembers(a.order, b.order);
  }

  /** A crash puts the quota back to the stored checkpoint: what is lost is exactly
      the runtime the nodes were charged and the attempts they made since. */
  lemma {:induction false} CrashForgets(d: Durable, r: Restart, parallel: nat)
    requires Inv(d, parallel) && Possible(d, Crash(r), parallel)
    ensures var after := Take(d, Crash(r), parallel).live;
            && after.quota == d.filed.quota
            && d.live.quota.usedRuntimeMs
               == after.quota.usedRuntimeMs + Beyond(d.live.order, d.filed.nodes, d.live.nodes, Duration)
            && d.live.quota.usedAttempts
               == after.quota.usedAttempts + Beyond(d.live.order, d.filed.nodes, d.live.nodes, Dispatches)
  {
    hide Inv, Possible, Take, Comeback, Reordered, NoneRunning, Rereadable, Books, Storable, WritersDisjoint, Shape;
    CrashInv(d, r, parallel);
    RowsVersion(d);
    hide Rows;
    ComebackKeys(Rows(d), r);
    LiveBeyondFiled(d, parallel);
  }

  /*--------------------- a graph as it comes back from the store ----------------*/

  lemma {:induction false} RowOrderTotal(sequences: map<NodeId, nat>)
    ensures TotalPreorder((a, b) => RowLeq(sequences, a, b))
  {
    forall a, b
      ensures RowLeq(sequences, a, b) || RowLeq(sequences, b, a)
    {
      StrLeqTotal(a, b);
    }
    forall a, b, c | RowLeq(sequences, a, b) && RowLeq(sequences, b, c)
      ensures RowLeq(sequences, a, c)
    {
      if StrLeq(a, b) && StrLeq(b, c) {
        StrLeqTransitive(a, b, c);
      }
    }
  }

  lemma {:induction false} RowsInOrder(order: seq<NodeId>, sequences: map<NodeId, nat>)
    ensures var ids := InRowOrder(order, sequences);
            forall i, j :: 0 <= i < j < |ids| ==> RowLeq(sequences, ids[i], ids[j])
  {
    hide StrLeq, RowLeq;
    RowOrderTotal(sequences);
    SortSorted(order, (a, b) => RowLeq(sequences, a, b));
    hide Sort;
  }

  /** Rows are read by dispatch number, and by id where that is the same. */
  lemma {:induction false} StoreOrderSorted(g: Graph)
    requires Shape(g)
    ensures var ids := Reordered(g).order;
            && multiset(ids) == multiset(g.order)
            && forall i, j :: 0 <= i < j < |ids| ==>
                 && ids[i] in g.nodes && ids[j] in g.nodes
                 && g.nodes[ids[i]].dispatchSequence <= g.nodes[ids[j]].dispatchSequence
                 && (g.nodes[ids[i]].dispatchSequence == g.nodes[ids[j]].dispatchSequence ==> StrLeq(ids[i], ids[j]))
  {
    RowsInOrder(g.order, Sequences(g));
    var ids := StoreOrder(g);
    SameMembers(ids, g.order);
    hide Sort, StrLeq, InRowOrder;
    forall i | 0 <= i < |ids|
      ensures ids[i] in g.nodes
    {
      assert ids[i] in ids;
    }
  }

  /** No optional text of the node is blank without being empty, and its effect state is
      not blank. */
  predicate PlainTexts(node: Node) {
    && (Strip(node.result) == "" ==> node.result == "") && (Strip(node.error) == "" ==> node.error == "")
    && (Strip(node.failureKind) == "" ==> node.failureKind == "")
    && Strip(node.effectState) != ""
  }

  lemma {:induction false} PlainIsFixed(node: Node)
    ensures PlainTexts(node) <==> FiledNode(node) == node
  {
    NotBlank("not_started");
    hide Strip;
  }

  /** With nothing running, the store gives a graph back with the same nodes, in row
      order, if and only if no text has a blank end, no optional text is blank, and
      every declaration reads as it did. */
  lemma {:induction false} StoreIdentityExact(g: Graph, r: Restart)
    requires Shape(g) && Storable(g) && NoneRunning(g)
    ensures Shape(Filed(g))
    ensures Revived(Filed(g), r) == Some(Reordered(g))
       <==> TextStable(g) && ScopesStable(g, r.disk) && forall n :: n in g.nodes ==> PlainTexts(g.nodes[n])
  {
    hide Restore, Snapshot, Shape, Storable, Comeback, StoreOrder, FiledNode, PlainTexts, TextStable, ScopesStable, NoneRunning;
    FiledShape(g);
    hide Revived;
    if forall n :: n in g.nodes ==> PlainTexts(g.nodes[n]) {
      PlainIsFiled(g);
      StoreIdentityPlain(g, r);
    } else {
      var n :| n in g.nodes && !PlainTexts(g.nodes[n]);
      FiledKeeps(g);
      FiledFields(g, Filed(g));
      RevivedIs(Filed(g), r);
      BlankTextIsLost(g, r, n);
    }
  }

  lemma {:induction false} PlainIsFiled(g: Graph)
    requires forall n :: n in g.nodes ==> PlainTexts(g.nodes[n])
    ensures Filed(g) == g
  {
    forall n | n in g.nodes
      ensures FiledNode(g.nodes[n]) == g.nodes[n]
    {
      PlainIsFixed(g.nodes[n]);
    }
    hide FiledNode, PlainTexts;
    assert Filed(g).nodes == g.nodes;
  }

  lemma {:induction false} ReorderedKeeps(g: Graph)
    requires NoneRunning(g) && Storable(g)
    ensures NoneRunning(Reordered(g)) && Storable(Reordered(g))
    ensures TextStable(Reordered(g)) == TextStable(g)
    ensures forall disk :: ScopesStable(Reordered(g), disk) == ScopesStable(g, disk)
  {
    hide StoreOrder, StableText, StableScopes, FieldsOk;
    forall n
      ensures !HasStatus(Reordered(g), n, Running)
    {
      assert !HasStatus(g, n, Running);
    }
  }

  lemma {:induction false} FiledShape(g: Graph)
    requires Shape(g)
    ensures Shape(Filed(g))
  {
    SameDependencies(g, Filed(g));
  }

  lemma {:induction false} StoreIdentityPlain(g: Graph, r: Restart)
    requires Shape(g) && Storable(g) && NoneRunning(g)
    ensures Revived(g, r) == Some(Reordered(g)) <==> TextStable(g) && ScopesStable(g, r.disk)
  {
    hide Restore, Snapshot, Shape, Storable, NoneRunning, Reordered, TextStable, ScopesStable;
    ReorderedShape(g);
    ReorderedKeeps(g);
    RestoreIdentityExact(Reordered(g), r);
  }

  lemma {:induction false} BlankTextIsLost(g: Graph, r: Restart, n: NodeId)
    requires Storable(g) && NoneRunning(g) && n in g.nodes && !PlainTexts(g.nodes[n])
    ensures n in Comeback(Reordered(Filed(g)), r).nodes && Comeback(Reordered(Filed(g)), r).nodes[n] != g.nodes[n]
  {
    FiledKeeps(g);
    FiledFields(g, Filed(g));
    PlainIsFixed(g.nodes[n]);
    assert !HasStatus(g, n, Running);
    var h := Reordered(Filed(g));
    assert n in h.nodes && h.nodes[n] == FiledNode(g.nodes[n]) && FieldsOk(h.nodes[n]);
    ComebackNode(h, r, n);
    RetextKeeps(h.nodes[n]);
    hide Comeback, Retext, StoreOrder, DeclaredWriteScopes, Unblank, Known, PlainTexts, Strip;
  }
}
