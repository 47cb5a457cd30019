/** What the store holds of a workflow after each step, and which graph a crash brings back,
    said of the fields of its nodes (agent/app/subagent/workflow.py, core
    AgentWorkflowStore.java). */
module StoreMeaning {
  import opened Ordering
  import opened Text
  import opened Scopes
  import opened DeclaredScopes
  import opened Dag
  import opened Workflow
  import opened WorkflowSafety
  import opened WorkflowInvariant
  import opened WorkflowSnapshot
  import opened WorkflowRecovery
  import opened WorkflowDurability
  import opened WorkflowCrash
  import opened SnapshotMeaning

  /** A text column: blank text reads back as this. */
  ghost predicate Column(written: string, read: string, blank: string) {
    read == if OnlyBlanks(written) then blank else written
  }

  lemma {:induction false} ColumnExact(s: string, default: string)
    ensures Column(s, Unblank(s), "") && Column(s, Known(s, default), default)
  {
    StripBlank(s);
    hide Strip, OnlyBlanks;
  }

  /*---------------------------------- reports ----------------------------------*/

  /** What one report writes into the row of its node. */
  ghost predicate Writes(before: Node, after: Node, report: Report) {
    match report
    case AgentStarted => after == before.(status := Running)
    case AgentCompleted(output) =>
      && after == before.(status := Completed, result := after.result, error := "", failureKind := "",
                          effectState := "committed")
      && Column(output, after.result, "")
    case AgentFailed(error, kind, state) =>
      && after == before.(status := Failed, error := after.error, failureKind := after.failureKind,
                          effectState := after.effectState)
      && Column(error, after.error, "") && Column(kind, after.failureKind, "agent_failed")
      && Column(state, after.effectState, "unknown")
    case ToolEffect(state) =>
      after == before.(effectState := after.effectState) && Column(state, after.effectState, "unknown")
  }

  lemma {:induction false} ReportExact(node: Node, report: Report)
    ensures Writes(node, Reported(node, report), report)
  {
    match report
    case AgentStarted =>
    case AgentCompleted(output) => ColumnExact(output, "");
    case AgentFailed(error, kind, state) => {
      ColumnExact(error, "");
      ColumnExact(kind, "agent_failed");
      ColumnExact(state, "unknown");
    }
    case ToolEffect(state) => ColumnExact(state, "unknown");
  }

  /** A stored report changes the row of its node as it says, and no other row; the graph in
      memory and the checkpoint do not notice. */
  lemma {:induction false} ObserveExact(d: Durable, note: Note, parallel: nat)
    ensures var d' := Take(d, Observe(note), parallel);
            && d'.live == d.live && d'.filed == d.filed && d'.cut == d.cut
            && Rows(d') == Rows(d).(nodes := Rows(d').nodes) && Rows(d').nodes.Keys == Rows(d).nodes.Keys
            && forall n :: n in Rows(d).nodes ==>
                 if n == note.node then Writes(Rows(d).nodes[n], Rows(d').nodes[n], note.report)
                 else Rows(d').nodes[n] == Rows(d).nodes[n]
  {
    var d' := Take(d, Observe(note), parallel);
    hide Writes, Reported;
    assert d'.told == d.told + [note];
    forall n | n in d.filed.nodes
      ensures if n == note.node then Writes(Rows(d).nodes[n], Rows(d').nodes[n], note.report)
              else Rows(d').nodes[n] == Rows(d).nodes[n]
    {
      OneReportMore(d.filed.nodes[n], d.told, note, n);
      ReportExact(Rows(d).nodes[n], note.report);
    }
  }

  lemma {:induction false} OneReportMore(node: Node, told: seq<Note>, note: Note, n: NodeId)
    ensures ToldBy(node, told + [note], n)
         == if note.node == n then Reported(ToldBy(node, told, n), note.report) else ToldBy(node, told, n)
  {
    assert (told + [note])[..|told|] == told;
  }

  /*-------------------------------- checkpoints --------------------------------*/

  /** A node and its row right after a checkpoint. */
  ghost predicate FiledFrom(node: Node, row: Node) {
    && row == node.(result := row.result, error := row.error, failureKind := row.failureKind, effectState := row.effectState)
    && Column(node.result, row.result, "") && Column(node.error, row.error, "")
    && Column(node.failureKind, row.failureKind, "") && Column(node.effectState, row.effectState, "not_started")
  }

  lemma {:induction false} FiledExact(node: Node)
    ensures FiledFrom(node, FiledNode(node))
  {
    ColumnExact(node.result, "");
    ColumnExact(node.error, "");
    ColumnExact(node.failureKind, "");
    ColumnExact(node.effectState, "not_started");
    hide Strip, OnlyBlanks, Unblank, Known;
  }

  /** A move that ends in a checkpoint replaces the rows by the graph, and with them all that
      reports had written; but nothing is stored after the cut, nor over a newer version. */
  lemma {:induction false} CheckpointExact(d: Durable, m: Move, parallel: nat)
    requires Enabled(d.live, m, parallel)
    ensures var d', g := Take(d, Act(m), parallel), Apply(d.live, m, parallel);
            && d'.live == g && d'.cut == d.cut
            && (m.Propagate? || m.Return? || d.cut || g.version < d.filed.version ==> d'.filed == d.filed && d'.told == d.told)
            && (!m.Propagate? && !m.Return? && !d.cut && d.filed.version <= g.version ==>
                  && Rows(d') == g.(nodes := Rows(d').nodes) && Rows(d').nodes.Keys == g.nodes.Keys
                  && forall n :: n in g.nodes ==> FiledFrom(g.nodes[n], Rows(d').nodes[n]))
  {
    var d', g := Take(d, Act(m), parallel), Apply(d.live, m, parallel);
    hide Enabled, Apply, FiledNode, FiledFrom;
    forall n | n in g.nodes
      ensures FiledFrom(g.nodes[n], FiledNode(g.nodes[n]))
    {
      FiledExact(g.nodes[n]);
    }
    if !m.Propagate? && !m.Return? && !d.cut && d.filed.version <= g.version {
      NoNotes(d');
    }
  }

  /*----------------------------------- crashes ---------------------------------*/

  /** How a row comes back: its texts stripped, its declared scopes read again, and if it was
      running, settled by the verdict. */
  ghost predicate ComesBackAs(row: Node, verdict: string, disk: Disk, node: Node) {
    && node.title == Strip(row.title) && node.prompt == Strip(row.prompt)
    && Cleans(row.evidenceRefs, node.evidenceRefs) && Cleans(row.declaredScopes, node.declaredScopes)
    && DeclaredWriteScopes(disk, node.declaredScopes) == Some(node.writeScopes)
    && node.dependsOn == row.dependsOn && node.priority == row.priority && node.deadline == row.deadline
    && node.maxAttempts == row.maxAttempts && node.retrySafe == row.retrySafe
    && node.attempts == row.attempts && node.result == row.result && node.dispatchCount == row.dispatchCount
    && node.dispatchSequence == row.dispatchSequence && node.readySince == row.readySince
    && node.durationMs == row.durationMs
    && SettledBy(row, verdict, node)
  }

  ghost predicate SettledBy(row: Node, verdict: string, node: Node) {
    if row.status != Running then
      && node.status == row.status && node.error == row.error && node.failureKind == row.failureKind
      && node.effectState == row.effectState
    else if verdict == "completed" then
      && node.status == Completed && node.error == row.error && node.failureKind == row.failureKind
      && node.effectState == "committed"
    else if verdict == "safe_to_retry" then
      && node.status == Pending && node.error == "" && node.failureKind == "" && node.effectState == "not_started"
    else
      && node.status == Failed && node.effectState == "unknown"
      && node.failureKind == "workflow_recovery_requires_verification"
      && node.error == "节点在上次进程退出时仍在运行，已有副作用状态无法确认；请核验后显式重新排队"
  }

  lemma {:induction false} SettledExact(row: Node, verdict: string)
    requires row.prompt != ""
    ensures SettledBy(row, verdict, Recovered(row, verdict))
  {
  }

  lemma {:induction false} RereadParts(row: Node, disk: Disk)
    requires NodeRereadable(row, disk)
    ensures var b := Rescope(Retext(row), disk);
            && b == row.(title := Strip(row.title), prompt := Strip(row.prompt), evidenceRefs := CleanList(row.evidenceRefs),
                         declaredScopes := CleanList(row.declaredScopes), writeScopes := b.writeScopes)
            && DeclaredWriteScopes(disk, b.declaredScopes) == Some(b.writeScopes)
  {
    hide Strip, CleanList, DeclaredWriteScopes;
  }

  lemma {:induction false} RowBack(row: Node, verdict: string, disk: Disk)
    requires FieldsOk(row) && NodeRereadable(row, disk)
    ensures ComesBackAs(row, verdict, disk, Recovered(Rescope(Retext(row), disk), verdict))
  {
    NotBlank(row.prompt);
    CleanListExact(row.evidenceRefs);
    CleanListExact(row.declaredScopes);
    RereadParts(row, disk);
    var b := Rescope(Retext(row), disk);
    hide Strip, CleanList, Cleans, DeclaredWriteScopes, Rescope, Retext;
    SettledExact(b, verdict);
    RecoveredKeeps(b, verdict);
    hide Recovered;
  }

  /** A crash brings back the graph of the rows: its quota and its counters are those of the
      last checkpoint, its nodes come row by row in the order of their dispatch. */
  lemma {:induction false} CrashExact(d: Durable, r: Restart, parallel: nat)
    requires Inv(d, parallel) && Possible(d, Crash(r), parallel)
    ensures var after := Take(d, Crash(r), parallel).live;
            && after == d.filed.(order := after.order, nodes := after.nodes)
            && after.nodes.Keys == Rows(d).nodes.Keys
            && forall n :: n in after.nodes ==> ComesBackAs(Rows(d).nodes[n], r.recovery(n), r.disk, after.nodes[n])
  {
    CrashInv(d, r, parallel);
    InvParts(d, parallel);
    RowsVersion(d);
    hide Inv, Possible, Take, ComesBackAs, Recovered, Rescope, Retext, FieldsOk, NodeRereadable, Shape, Books, Storable;
    hide WritersDisjoint, NoneRunning, Reordered, Told, Rows;
    BackFrame(Rows(d), r);
    forall n | n in Rows(d).nodes
      ensures n in Comeback(Reordered(Rows(d)), r).nodes
      ensures ComesBackAs(Rows(d).nodes[n], r.recovery(n), r.disk, Comeback(Reordered(Rows(d)), r).nodes[n])
    {
      CrashedNode(d, r, parallel, n);
      RowBack(Rows(d).nodes[n], r.recovery(n), r.disk);
    }
  }

  lemma {:induction false} BackFrame(rows: Graph, r: Restart)
    ensures var back := Comeback(Reordered(rows), r);
            back == rows.(order := back.order, nodes := back.nodes) && back.nodes.Keys == rows.nodes.Keys
  {
    hide Back, StoreOrder;
  }
}
