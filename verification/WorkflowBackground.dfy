/** A background session of a workflow node that reports after the node, and a node that
    depends on it, have completed: the run from creation to the crash that takes the
    dependency away (agent/app/subagent/runtime.py, continuable.py and workflow.py). */
module WorkflowBackground {
  import opened Ordering
  import opened Text
  import opened Scopes
  import opened DeclaredScopes
  import opened Dag
  import opened Workflow
  import opened WorkflowSafety
  import opened WorkflowInvariant
  import opened WorkflowSnapshot
  import opened WorkflowRecovery
  import opened WorkflowDurability
  import opened WorkflowCrash
  import opened WorkflowWitness

  /*------------------------------ one node at a time ---------------------------*/

  /** Nothing can be blocked while nothing has failed. */
  lemma {:induction false} NothingDoomed(g: Graph)
    requires forall n :: !Unusable(g, n)
    ensures Marked(g) == g
  {
    forall n | n in g.nodes
      ensures !Doomed(g, n)
    {
      forall p | FailurePath(g, p)
        ensures Unusable(g, p[|p| - 1])
      {
      }
    }
    assert Marked(g).nodes == g.nodes;
  }

  /** n is the only node that can start. */
  ghost predicate Sole(g: Graph, n: NodeId) {
    && Distinct(g.order) && n in g.order && n in g.nodes && g.nodes[n].deadline == None
    && QuotaFailure(g).None? && NoneRunning(g) && (forall k :: !Unusable(g, k)) && forall k :: IsReady(g, k) <==> k == n
  }

  lemma {:induction false} SoleBatch(g: Graph, n: NodeId)
    requires Sole(g, n)
    ensures Marked(g) == g && Batch(g, 1) == [n]
  {
    NothingDoomed(g);
    hide Marked, Unusable, QuotaFailure, NoneRunning;
    ReadyNodesExact(g);
    BatchExact(g, 1);
    assert RankOf(g, n) in ReadyNodes(g);
    hide Batch, ReadyNodes, IsReady;
    assert Batch(g, 1)[0] in Batch(g, 1);
  }

  /** s is g with n started. */
  ghost predicate StartedOnly(g: Graph, s: Graph, n: NodeId) {
    && s.order == g.order && s.nodes.Keys == g.nodes.Keys && n in g.nodes
    && s.nodes == g.nodes[n := s.nodes[n]] && s.nodes[n] == StartNode(g.nodes[n], s.nodes[n].dispatchSequence)
    && s.quota == g.quota.(usedWaves := g.quota.usedWaves + 1, usedAttempts := g.quota.usedAttempts + 1)
  }

  lemma {:induction false} SoleStarted(g: Graph, n: NodeId)
    requires n in g.nodes && g.nodes[n].deadline == None
    ensures StartedOnly(g, Started(g, [n], Work()), n)
  {
    assert [n][..0] == [];
    assert DispatchAll(OpenWave(g), [], Work().clock) == OpenWave(g);
  }

  lemma {:induction false} SoleStart(g: Graph, n: NodeId)
    requires Sole(g, n)
    ensures Enabled(g, START.move, 1) && StartedOnly(g, Apply(g, START.move, 1), n)
  {
    SoleBatch(g, n);
    SoleStarted(g, n);
    hide Marked, Batch, Started, IsReady, Unusable, QuotaFailure, NoneRunning, StartedOnly;
  }

  /** f is s with n finished. */
  ghost predicate FinishedOnly(s: Graph, f: Graph, n: NodeId) {
    && f.order == s.order && f.nodes.Keys == s.nodes.Keys && n in s.nodes
    && f.nodes == s.nodes[n := Settle(s.nodes[n], Work().outcome(n))]
    && f.quota == s.quota.(usedRuntimeMs := s.quota.usedRuntimeMs + 1)
  }

  lemma {:induction false} SoleFinished(s: Graph, n: NodeId)
    requires s.order == ["a", "b"] && n in s.order && n in s.nodes
    ensures FinishedOnly(s, FinishAll(s, {n}, Work().outcome), n)
  {
    hide Settle;
    assert s.order[1..] == ["b"] && ["b"][1..] == [];
    assert SumElapsed([], {n}, Work().outcome) == 0;
    assert SumElapsed(["b"], {n}, Work().outcome) == if n == "b" then 1 else 0;
    assert SumElapsed(s.order, {n}, Work().outcome) == 1;
    var f := FinishAll(s, {n}, Work().outcome);
    assert f.nodes == s.nodes[n := Settle(s.nodes[n], Work().outcome(n))];
  }

  /*----------------------------- b depends on a --------------------------------*/

  function ChainInputs(): seq<RawNode> {
    [PlainInput("a"), PlainInput("b").(dependsOn := ["a"])]
  }

  lemma {:induction false} DependencyList()
    ensures CleanList(["a"]) == ["a"] && Unique(["a"]) == ["a"]
  {
    CleanListFixpoint(["a"]);
    assert ["a"][..0] == [];
  }

  lemma {:induction false} DependentParsed(disk: Disk)
    ensures ParseNode(PlainInput("b").(dependsOn := ["a"]), disk) == Some(PlainNode().(dependsOn := ["a"]))
  {
    NothingDeclared(disk);
    LetterId();
    DependencyList();
    LetterIsTrimmed("b");
    LetterIsTrimmed("t");
    LetterIsTrimmed("p");
    hide Strip, DeclaredWriteScopes, ValidNodeId, Unique;
    assert TakeFirst(CutEntries([]), 50) == [];
    hide CleanList, TakeFirst, CutEntries;
  }

  lemma {:induction false} ChainParsed(disk: Disk)
    ensures ParseNodes(ChainInputs(), disk)
         == Some((["a", "b"], map["a" := PlainNode(), "b" := PlainNode().(dependsOn := ["a"])]))
  {
    hide ParseNode, DeclaredWriteScopes, Strip, CleanList, ValidNodeId;
    NothingDeclared(disk);
    LetterId();
    InputParsed("a", [], disk);
    DependentParsed(disk);
    LetterIsTrimmed("a");
    LetterIsTrimmed("b");
    assert ParseNodes([], disk) == Some(([], map[]));
    hide ParseNodes;
    var b := PlainInput("b").(dependsOn := ["a"]);
    OneMoreParsed([], PlainInput("a"), disk, [], map[], PlainNode());
    assert PlainInput("a").id == "a" && b.id == "b";
    assert [] + [PlainInput("a")] == [PlainInput("a")] && [] + ["a"] == ["a"] && ["a"] + ["b"] == ["a", "b"];
    assert map[]["a" := PlainNode()] == map["a" := PlainNode()];
    OneMoreParsed([PlainInput("a")], b, disk, ["a"], map["a" := PlainNode()], PlainNode().(dependsOn := ["a"]));
    assert [PlainInput("a")] + [b] == ChainInputs();
  }

  lemma {:induction false} ChainAcceptable(deps: Deps)
    requires deps == map["a" := [], "b" := ["a"]]
    ensures Acceptable(deps)
  {
    assert Ranked(deps, map["a" := 0, "b" := 1]);
  }

  /** The chain with these statuses, after so many waves. */
  ghost predicate Chain(g: Graph, a: Status, b: Status, waves: nat) {
    && g.order == ["a", "b"] && g.nodes.Keys == {"a", "b"}
    && g.nodes["a"].dependsOn == [] && g.nodes["b"].dependsOn == ["a"]
    && g.nodes["a"].status == a && g.nodes["b"].status == b
    && (forall n :: n in g.nodes ==> g.nodes[n].deadline == None && g.nodes[n].declaredScopes == [])
    && g.quota.usedWaves <= waves && g.quota.usedAttempts <= waves && g.quota.usedRuntimeMs <= waves
    && g.quota.maxWaves > 2 && g.quota.maxTotalAttempts > 2 && g.quota.maxRuntimeMs > 2
  }

  function ChainNodes(): map<NodeId, Node> {
    map["a" := PlainNode().(readySince := Some(0)), "b" := PlainNode().(dependsOn := ["a"], readySince := Some(0))]
  }

  function ChainGraph(): Graph {
    Graph(["a", "b"], ChainNodes(), 0, 0, Quota(256, 1024, 604800000, 0, 0, 0), false)
  }

  lemma {:induction false} CreateIs(raws: seq<RawNode>, disk: Disk, order: seq<NodeId>, parsed: map<NodeId, Node>, g: Graph)
    requires 1 <= |raws| <= 64 && ParseNodes(raws, disk) == Some((order, parsed))
    requires g.order == order && g.schedulerSequence == g.version == 0 && !g.quotaExhausted
    requires ParseQuota(NO_LIMITS) == Some(g.quota) && Acceptable(DepsOf(g))
    requires g.nodes == map n | n in parsed :: parsed[n].(readySince := Some(0))
    ensures Create(raws, NO_LIMITS, 0, disk) == Some(g)
  {
    hide ParseNodes, ParseQuota, Acceptable;
    assert g == Graph(order, map n | n in parsed :: parsed[n].(readySince := Some(0)), 0, 0, g.quota, false);
  }

  lemma {:induction false} ChainIs()
    ensures Chain(ChainGraph(), Pending, Pending, 0) && ParseQuota(NO_LIMITS) == Some(ChainGraph().quota)
    ensures DepsOf(ChainGraph()) == map["a" := [], "b" := ["a"]]
  {
  }

  function ChainParts(): map<NodeId, Node> {
    map["a" := PlainNode(), "b" := PlainNode().(dependsOn := ["a"])]
  }

  lemma {:induction false} ChainPartsAre()
    ensures ChainParts() == map["a" := PlainNode(), "b" := PlainNode().(dependsOn := ["a"])] && |ChainInputs()| == 2
    ensures ChainGraph().nodes == map n | n in ChainParts() :: ChainParts()[n].(readySince := Some(0))
    ensures ChainGraph().order == ["a", "b"] && ChainGraph().schedulerSequence == ChainGraph().version == 0
    ensures !ChainGraph().quotaExhausted
  {
  }

  lemma {:induction false} ChainMade(disk: Disk)
    ensures Create(ChainInputs(), NO_LIMITS, 0, disk) == Some(ChainGraph())
  {
    hide *;
    ChainParsed(disk);
    ChainPartsAre();
    ChainIs();
    ChainAcceptable(DepsOf(ChainGraph()));
    CreateIs(ChainInputs(), disk, ["a", "b"], ChainParts(), ChainGraph());
  }

  lemma {:induction false} ChainIsSole(g: Graph, waves: nat)
    requires waves <= 1
    ensures Chain(g, Pending, Pending, waves) ==> Sole(g, "a")
    ensures Chain(g, Completed, Pending, waves) ==> Sole(g, "b")
  {
    if Chain(g, Pending, Pending, waves) {
      assert IsReady(g, "a");
      assert "a" in g.nodes["b"].dependsOn && !HasStatus(g, "a", Completed);
    }
    if Chain(g, Completed, Pending, waves) {
      assert IsReady(g, "b");
    }
  }

  lemma {:induction false} ChainMoves(g: Graph, s: Graph, waves: nat)
    ensures Chain(g, Pending, Pending, waves) && StartedOnly(g, s, "a") ==> Chain(s, Running, Pending, waves + 1)
    ensures Chain(g, Completed, Pending, waves) && StartedOnly(g, s, "b") ==> Chain(s, Completed, Running, waves + 1)
  {
  }

  lemma {:induction false} ChainReturns(g: Graph, s: Graph, waves: nat)
    ensures Chain(g, Running, Pending, waves) && FinishedOnly(g, s, "a") && g.quota.usedRuntimeMs < waves ==>
              Chain(s, Completed, Pending, waves)
    ensures Chain(g, Completed, Running, waves) && FinishedOnly(g, s, "b") && g.quota.usedRuntimeMs < waves ==>
              Chain(s, Completed, Completed, waves)
  {
  }

  /** One wave of the chain with the node n, up to its last checkpoint. */
  function WaveSteps(n: NodeId): seq<Step> {
    [START, Act(Return({n}, Work().outcome)), Act(Checkpoint(false))]
  }

  lemma {:induction false} WaveStepsAre(n: NodeId)
    ensures WaveSteps(n) == [START] + ([Act(Return({n}, Work().outcome))] + ([Act(Checkpoint(false))] + []))
  {
  }

  /** Before and after the wave that runs n. */
  ghost predicate BeforeWave(g: Graph, n: NodeId, waves: nat) {
    (n == "a" && Chain(g, Pending, Pending, waves)) || (n == "b" && Chain(g, Completed, Pending, waves))
  }

  ghost predicate InWave(g: Graph, n: NodeId, waves: nat) {
    && g.quota.usedRuntimeMs < waves
    && ((n == "a" && Chain(g, Running, Pending, waves)) || (n == "b" && Chain(g, Completed, Running, waves)))
  }

  ghost predicate AfterWave(g: Graph, n: NodeId, waves: nat) {
    (n == "a" && Chain(g, Completed, Pending, waves)) || (n == "b" && Chain(g, Completed, Completed, waves))
  }

  lemma {:induction false} WaveStarts(g: Graph, n: NodeId, waves: nat)
    requires BeforeWave(g, n, waves) && waves <= 1
    ensures Enabled(g, START.move, 1) && InWave(Apply(g, START.move, 1), n, waves + 1)
  {
    ChainIsSole(g, waves);
    SoleStart(g, n);
    var s := Apply(g, START.move, 1);
    ChainMoves(g, s, waves);
    assert g.quota.usedRuntimeMs <= waves;
    assert s.quota.usedRuntimeMs == g.quota.usedRuntimeMs;
  }

  lemma {:induction false} WaveReturns(s: Graph, n: NodeId, waves: nat)
    requires InWave(s, n, waves)
    ensures forall k :: k in {n} ==> HasStatus(s, k, Running)
    ensures AfterWave(FinishAll(s, {n}, Work().outcome), n, waves)
  {
    SoleFinished(s, n);
    ChainReturns(s, FinishAll(s, {n}, Work().outcome), waves);
  }

  lemma {:induction false} StartTakes(d: Durable, n: NodeId, waves: nat)
    requires Inv(d, 1) && !d.cut && BeforeWave(d.live, n, waves) && waves <= 1
    ensures Possible(d, START, 1)
    ensures var d' := Take(d, START, 1); Inv(d', 1) && InWave(d'.live, n, waves + 1) && !d'.cut
  {
    WaveStarts(d.live, n, waves);
    hide Inv, Enabled, Apply, Filed, InWave, BeforeWave, KeepsCompleted;
    ActInv(d, START.move, 1);
  }

  lemma {:induction false} ReturnTakes(d: Durable, n: NodeId, waves: nat)
    requires Inv(d, 1) && !d.cut && InWave(d.live, n, waves)
    ensures Possible(d, Act(Return({n}, Work().outcome)), 1)
    ensures var d' := Take(d, Act(Return({n}, Work().outcome)), 1); Inv(d', 1) && AfterWave(d'.live, n, waves) && !d'.cut
  {
    hide *;
    WaveReturns(d.live, n, waves);
    ReturnIs(d, {n}, Work().outcome, 1);
  }

  lemma {:induction false} SameChain(g: Graph, g': Graph, n: NodeId, waves: nat)
    requires AfterWave(g, n, waves) && g'.nodes == g.nodes && g'.order == g.order && g'.quota == g.quota
    ensures AfterWave(g', n, waves)
  {
  }

  lemma {:induction false} CheckpointTakes(d: Durable, n: NodeId, waves: nat)
    requires Inv(d, 1) && !d.cut && AfterWave(d.live, n, waves)
    ensures Possible(d, Act(Checkpoint(false)), 1)
    ensures var d' := Take(d, Act(Checkpoint(false)), 1);
            Inv(d', 1) && AfterWave(d'.live, n, waves) && d' == Durable(d'.live, Filed(d'.live), [], false)
  {
    hide Inv, Filed, AfterWave, KeepsCompleted;
    ActInv(d, Checkpoint(false), 1);
    SameChain(d.live, Apply(d.live, Checkpoint(false), 1), n, waves);
  }

  lemma {:induction false} WaveRun(d: Durable, n: NodeId, waves: nat) returns (last: Durable)
    requires Inv(d, 1) && !d.cut && BeforeWave(d.live, n, waves) && waves <= 1
    ensures AllPossible(d, WaveSteps(n), 1) && last == TakeAll(d, WaveSteps(n), 1)
    ensures Inv(last, 1) && AfterWave(last.live, n, waves + 1) && last == Durable(last.live, Filed(last.live), [], false)
  {
    hide *;
    StartTakes(d, n, waves);
    var d1 := Take(d, START, 1);
    ReturnTakes(d1, n, waves + 1);
    var d2 := Take(d1, Act(Return({n}, Work().outcome)), 1);
    CheckpointTakes(d2, n, waves + 1);
    last := Take(d2, Act(Checkpoint(false)), 1);
    NoMoreSteps(last);
    FirstStep(d2, Act(Checkpoint(false)), [], 1);
    FirstStep(d1, Act(Return({n}, Work().outcome)), [Act(Checkpoint(false))] + [], 1);
    FirstStep(d, START, [Act(Return({n}, Work().outcome))] + ([Act(Checkpoint(false))] + []), 1);
    WaveStepsAre(n);
  }

  /*----------------------------- the late report -------------------------------*/

  /** Both waves, their checkpoints stored, and then a report in the name of a. */
  function LateReport(report: Report): seq<Step> {
    WaveSteps("a") + (WaveSteps("b") + ([Observe(Note("a", report))] + []))
  }

  ghost predicate LateState(d: Durable, report: Report) {
    Chain(d.live, Completed, Completed, 2) && d.filed == Filed(d.live) && d.told == [Note("a", report)] && !d.cut
  }

  lemma {:induction false} WavesMeet(g: Graph)
    ensures Chain(g, Pending, Pending, 0) ==> BeforeWave(g, "a", 0) && BeforeWave(Bump(g), "a", 0)
    ensures AfterWave(g, "a", 1) ==> BeforeWave(g, "b", 1)
    ensures AfterWave(g, "b", 2) ==> Chain(g, Completed, Completed, 2)
  {
  }

  lemma {:induction false} BegunIs(made: Graph)
    ensures Begun(made).live == Bump(made) && !Begun(made).cut
  {
  }

  lemma {:induction false} LateReportIs(report: Report)
    ensures LateReport(report) == WaveSteps("a") + (WaveSteps("b") + ([Observe(Note("a", report))] + []))
  {
  }

  lemma {:induction false} LateStateIs(d: Durable, report: Report)
    requires Chain(d.live, Completed, Completed, 2) && d == Durable(d.live, Filed(d.live), [], false)
    ensures LateState(d.(told := d.told + [Note("a", report)]), report)
  {
    assert [] + [Note("a", report)] == [Note("a", report)];
    hide Chain, Filed;
  }

  lemma {:induction false} LateRun(made: Graph, report: Report) returns (d: Durable)
    requires Inv(Begun(made), 1) && Chain(made, Pending, Pending, 0)
    ensures AllPossible(Begun(made), LateReport(report), 1) && d == TakeAll(Begun(made), LateReport(report), 1)
    ensures Inv(d, 1) && LateState(d, report)
  {
    hide *;
    BegunIs(made);
    WavesMeet(made);
    var d1 := WaveRun(Begun(made), "a", 0);
    WavesMeet(d1.live);
    var d2 := WaveRun(d1, "b", 1);
    WavesMeet(d2.live);
    LateStateIs(d2, report);
    Noted(d2, Note("a", report), 1);
    d := Take(d2, Observe(Note("a", report)), 1);
    NoMoreSteps(d);
    FirstStep(d2, Observe(Note("a", report)), [], 1);
    JoinedSteps(d1, WaveSteps("b"), [Observe(Note("a", report))] + [], 1);
    JoinedSteps(Begun(made), WaveSteps("a"), WaveSteps("b") + ([Observe(Note("a", report))] + []), 1);
    LateReportIs(report);
  }

  lemma {:induction false} LateFiled(d: Durable, report: Report)
    requires LateState(d, report)
    ensures d.filed.nodes.Keys == {"a", "b"} && DependsOn(d, "b", "a") && d.filed.nodes["b"].dependsOn == ["a"]
    ensures HasStatus(d.live, "a", Completed) && HasStatus(d.live, "b", Completed) && !d.cut
    ensures d.filed.nodes["a"].status == d.filed.nodes["b"].status == Completed
    ensures LastStatus(d.told, "b") == None
    ensures !report.ToolEffect? ==> LastStatus(d.told, "a") == Some(Reported(d.filed.nodes["a"], report).status)
    ensures forall n :: n in d.filed.nodes ==> d.filed.nodes[n].declaredScopes == []
  {
    hide Unblank, Known;
    OneNote(d.filed.nodes["a"], "a", report);
    Untold(d.filed.nodes["b"], d.told, "b");
  }

  lemma {:induction false} LateReadable(d: Durable, report: Report, disk: Disk)
    requires Inv(d, 1) && LateState(d, report)
    ensures Rereadable(Rows(d), disk)
  {
    NothingDeclared(disk);
    LateFiled(d, report);
    hide DeclaredWriteScopes, Inv, LateState, Filed, Frame, LastStatus, ToldBy, FieldsOk, Books, WritersDisjoint, Storable, Shape;
    InvParts(d, 1);
    forall n | n in Rows(d).nodes
      ensures Rows(d).nodes[n].declaredScopes == []
    {
      NodeOf(d, 1, n);
      FieldsEffect(d.filed.nodes[n]);
      ToldNode(d.filed.nodes[n], d.told, n);
    }
  }

  lemma {:induction false} LateEnds(d: Durable, r: Restart, report: Report)
    requires LateState(d, report) && (report.AgentFailed? || (report.AgentStarted? && r.recovery("a") != "completed"))
    ensures "a" in d.filed.nodes && "b" in d.filed.nodes && Stray(d, "a")
    ensures Ends(d, r, "a") != Completed && Ends(d, r, "b") == Completed
    ensures !Harmless(d, r)
  {
    LateFiled(d, report);
    hide LateState, LastStatus, LosesReason, HasReason;
  }

  lemma {:induction false} OnTopOfNothing(g: Graph, parallel: nat)
    requires "b" in g.nodes && g.nodes["b"].dependsOn == ["a"] && HasStatus(g, "b", Completed) && !HasStatus(g, "a", Completed)
    ensures !Good(g, parallel)
  {
    hide Shape, BlocksJustified, Accounted, SequencesOk, WithinQuota, WritersDisjoint;
    assert Engaged(g, "b");
    assert "a" in g.nodes["b"].dependsOn;
    assert !DependenciesCompleted(g, "b");
  }

  lemma {:induction false} CrashPossible(d: Durable, r: Restart)
    requires Shape(Rows(d)) && Revived(Rows(d), r).Some?
    ensures Possible(d, Crash(r), 1)
  {
    hide Revived, Shape, Rows;
  }

  lemma {:induction false} LatePossible(d: Durable, r: Restart, report: Report)
    requires Inv(d, 1) && LateState(d, report)
    ensures Possible(d, Crash(r), 1)
  {
    hide *;
    LateReadable(d, report, r.disk);
    RowsBooks(d, 1);
    RevivedIs(Rows(d), r);
    CrashPossible(d, r);
  }

  lemma {:induction false} LateAfter(after: Graph)
    requires "a" in after.nodes && "b" in after.nodes
    requires after.nodes["a"].status != Completed && after.nodes["b"].status == Completed
    ensures !HasStatus(after, "a", Completed) && HasStatus(after, "b", Completed)
  {
  }

  lemma {:induction false} LateCrash(d: Durable, r: Restart, report: Report)
    requires Inv(d, 1) && LateState(d, report)
    requires report.AgentFailed? || (report.AgentStarted? && r.recovery("a") != "completed")
    ensures Possible(d, Crash(r), 1) && !Harmless(d, r)
    ensures var after := Take(d, Crash(r), 1).live;
            && "b" in after.nodes && after.nodes["b"].dependsOn == ["a"]
            && !HasStatus(after, "a", Completed) && HasStatus(after, "b", Completed) && !Good(after, 1)
  {
    hide *;
    LatePossible(d, r, report);
    LateFiled(d, report);
    LateEnds(d, r, report);
    EndsAs(d, r, 1, "a");
    EndsAs(d, r, 1, "b");
    LateAfter(Take(d, Crash(r), 1).live);
    OnTopOfNothing(Take(d, Crash(r), 1).live, 1);
  }

  lemma {:induction false} FiledBoth(d: Durable)
    requires d.filed.nodes.Keys == {"a", "b"} && d.filed.nodes["a"].status == d.filed.nodes["b"].status == Completed
    ensures HasStatus(d.filed, "a", Completed) && HasStatus(d.filed, "b", Completed)
  {
  }

  /** a is completed, b on top of it, and the checkpoint is stored. A background session
      that a left behind then starts an agent in the name of a: its failure, or its start
      without the verdict that it completed, brings a back unfinished under b. No
      checkpoint that was stored is lost. */
  lemma {:induction false} LateReportBreaks(r: Restart, report: Report) returns (made: Graph, d: Durable)
    requires report.AgentFailed? || (report.AgentStarted? && r.recovery("a") != "completed")
    ensures Create(ChainInputs(), NO_LIMITS, 0, r.disk) == Some(made)
    ensures AllPossible(Begun(made), LateReport(report), 1) && d == TakeAll(Begun(made), LateReport(report), 1)
    ensures HasStatus(d.live, "a", Completed) && HasStatus(d.live, "b", Completed) && !d.cut
    ensures HasStatus(d.filed, "a", Completed) && HasStatus(d.filed, "b", Completed)
    ensures Possible(d, Crash(r), 1)
    ensures var after := Take(d, Crash(r), 1).live;
            && "b" in after.nodes && after.nodes["b"].dependsOn == ["a"]
            && !HasStatus(after, "a", Completed) && HasStatus(after, "b", Completed) && !Good(after, 1)
    ensures !Harmless(d, r)
  {
    hide *;
    made := ChainGraph();
    ChainMade(r.disk);
    ChainIs();
    CreatedSane(ChainInputs(), NO_LIMITS, 0, r.disk, 1);
    SaneParts(Begun(made), 1);
    d := LateRun(made, report);
    LateCrash(d, r, report);
    LateFiled(d, report);
    FiledBoth(d);
  }
}
