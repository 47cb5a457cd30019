/** Concrete runs whose graph does not come back from its own checkpoint, that lose
    the runtime of a completed node or the node's completion in a crash, exceed an
    attempt limit, or use an effect id twice. */
module WorkflowWitness {
  import opened Ordering
  import opened Text
  import opened Scopes
  import opened DeclaredScopes
  import opened Dag
  import opened Workflow
  import opened WorkflowSafety
  import opened WorkflowInvariant
  import opened WorkflowSnapshot
  import opened WorkflowRecovery
  import opened WorkflowDurability
  import opened WorkflowCrash
  import opened WorkflowAttempts

  function Input(scopes: seq<string>, references: seq<string>): (raws: seq<RawNode>)
    ensures |raws| == 1
  {
    [RawNode("a", "t", "p", [], 0, None, "", 0, scopes, references)]
  }

  const NO_LIMITS := RawQuota(0, 0, 0)

  lemma {:induction false} LetterIsTrimmed(s: string)
    requires |s| == 1 && !IsSpace(s[0])
    ensures Strip(s) == s
  {
    StripTrims(s);
  }

  lemma {:induction false} InputIsParsed(scopes: seq<string>, references: seq<string>, disk: Disk)
    requires DeclaredWriteScopes(disk, CleanList(scopes)).Some?
    ensures var node := ParseNode(Input(scopes, references)[0], disk);
            && node.Some? && node.value.dependsOn == []
            && ParseNodes(Input(scopes, references), disk) == Some((["a"], map["a" := node.value]))
  {
    hide DeclaredWriteScopes, CutEntries, TakeFirst;
    var raws := Input(scopes, references);
    LetterIsTrimmed("a");
    LetterIsTrimmed("t");
    LetterIsTrimmed("p");
    hide Strip;
    assert ParseNode(raws[0], disk).Some? && ParseNode(raws[0], disk).value.dependsOn == [];
    hide ParseNode, CleanList;
    assert raws[..|raws| - 1] == [] && raws[|raws| - 1] == raws[0];
    assert ParseNodes([], disk) == Some(([], map[]));
    assert raws[0].id == "a" && Strip(raws[0].id) == "a";
    assert "a" !in ParseNodes([], disk).value.1;
    assert ParseNodes(raws, disk).Some?;
    assert ParseNodes(raws, disk).value.0 == ["a"];
    assert ParseNodes(raws, disk).value.1 == map["a" := ParseNode(raws[0], disk).value];
  }

  /** A graph with one node and no dependency is accepted. */
  lemma {:induction false} InputIsCreated(scopes: seq<string>, references: seq<string>, disk: Disk)
    requires DeclaredWriteScopes(disk, CleanList(scopes)).Some?
    ensures var g := Create(Input(scopes, references), NO_LIMITS, 0, disk);
            && g.Some? && g.value.order == ["a"] && g.value.nodes.Keys == {"a"}
            && g.value.nodes["a"] == ParseNode(Input(scopes, references)[0], disk).value.(readySince := Some(0))
            && g.value.nodes["a"].dependsOn == [] && g.value.quota == ParseQuota(NO_LIMITS).value
  {
    hide DeclaredWriteScopes, ParseNodes, ParseNode, Acceptable, Input, Strip, CleanList;
    InputIsParsed(scopes, references, disk);
    OneNodeAcceptable(map["a" := []]);
    var (order, parsed) := ParseNodes(Input(scopes, references), disk).value;
    var g := Graph(order, map n | n in parsed :: parsed[n].(readySince := Some(0)), 0, 0, ParseQuota(NO_LIMITS).value, false);
    assert DepsOf(g) == map["a" := []];
  }

  lemma {:induction false} OneNodeAcceptable(deps: Deps)
    requires deps == map["a" := []]
    ensures Acceptable(deps)
  {
    assert Ranked(deps, map["a" := 0]);
  }

  /*----------------------------- a cut at a blank ------------------------------*/

  /** 1001 characters of evidence, the 1000th of them a blank. */
  function LongReference(): string {
    Xs(999) + " x"
  }

  lemma {:induction false} LongReferenceIsCut()
    ensures !NoCutAtBlank(Input([], [LongReference()])[0])
  {
    var e := LongReference();
    StripTrims(e);
    assert [e][1..] == [];
    assert CleanList([e]) == [e];
    assert TakeFirst([e], 50) == [e];
    hide CleanList, TakeFirst, Strip;
    assert e in TakeFirst(CleanList(Input([], [e])[0].evidenceRefs), 50);
    assert !CleanCut(e, 1000);
  }

  /** A freshly created graph that does not come back from its checkpoint, on
      an unchanged disk and with whatever verdicts. */
  lemma {:induction false} CutReferenceChangesRestore(r: Restart) returns (g: Graph)
    ensures Create(Input([], [LongReference()]), NO_LIMITS, 0, r.disk) == Some(g)
    ensures g.order == ["a"] && g.nodes.Keys == {"a"}
    ensures Restore(Snapshot(g, r.recovery), r.disk) != Some(g)
  {
    hide LongReference, NoCutAtBlank;
    var raws := Input([], [LongReference()]);
    InputIsCreated([], [LongReference()], r.disk);
    LongReferenceIsCut();
    assert raws[0] in raws;
    hide Input, Create;
    g := Create(raws, NO_LIMITS, 0, r.disk).value;
    CreatedGraphComesBack(raws, NO_LIMITS, 0, r.disk, g, r);
  }

  /*------------------------- a node that did its work --------------------------*/

  /** The workspace /w with the same text in every file. */
  function Filled(text: string): Disk {
    Disk("/w", p => "/w/" + p, p => text)
  }

  lemma {:induction false} DeclaredFile(text: string)
    ensures CleanList(["f"]) == ["f"]
    ensures DeclaredWriteScopes(Filled(text), ["f"]) == Some([WriteScope("/w/f", false, text)])
    ensures DeclaredWriteScopes(Filled(text).(root := "/v"), ["f"]) == None
  {
    LetterIsTrimmed("f");
    assert ["f"][1..] == [] && ["f"][..0] == [];
    hide Strip;
    assert "/v"[1] != "/w/f"[1];
    assert Contains("/w", "/w/f") && !Contains("/v", "/w/f");
    assert Filled(text).resolve("f") == "/w/f";
    assert !IsTree("f") && !HasPattern("f");
    var s := WriteScope("/w/f", false, text);
    assert ReadScope(Filled(text), "f") == Some(s);
    assert ReadScopes(Filled(text), []) == Some([]);
    assert ReadScope(Filled(text).(root := "/v"), "f") == None;
    hide ReadScope;
    assert ["f"][..|["f"]| - 1] == [];
    assert ReadScopes(Filled(text), ["f"]) == Some([] + [s]);
    hide ReadScopes;
    DedupFixpoint([s]);
    CompactFixpoint([s]);
    SortFixpoint([s], ScopeLeq);
  }

  function Work(): WaveWorld {
    WaveWorld(n => 0, n => Outcome(false, "done", "", false, "completed", 1, 0))
  }

  ghost predicate OneNode(g: Graph) {
    g.order == ["a"] && g.nodes.Keys == {"a"} && g.nodes["a"].dependsOn == []
  }

  /** The only node waits for its only attempt. */
  ghost predicate Waiting(g: Graph) {
    && OneNode(g) && QuotaFailure(g).None?
    && var a := g.nodes["a"];
       a.status == Pending && a.deadline == None && a.attempts == 0 && a.maxAttempts == 1 && !a.retrySafe
  }

  lemma {:induction false} OneNodeBatch(g: Graph)
    requires OneNode(g) && HasStatus(g, "a", Pending)
    ensures Marked(g) == g && Batch(g, 1) == ["a"] && "a" in g.nodes
  {
    assert !Doomed(g, "a") by {
      forall p | FailurePath(g, p)
        ensures p[1] in DepsOf(g)[p[0]]
      {
      }
    }
    assert Marked(g).nodes == g.nodes;
    hide Marked;
    ReadyNodesExact(g);
    BatchExact(g, 1);
    assert IsReady(g, "a") && "a" in g.order;
    assert RankOf(g, "a") in ReadyNodes(g);
    hide Batch, ReadyNodes;
    assert Batch(g, 1)[0] in Batch(g, 1);
  }

  /** What a graph is once its only node has been started. */
  ghost predicate AtWork(g: Graph, s: Graph) {
    && OneNode(g) && OneNode(s) && s.nodes["a"] == StartNode(g.nodes["a"], s.nodes["a"].dispatchSequence)
    && s.quota == g.quota.(usedWaves := g.quota.usedWaves + 1, usedAttempts := g.quota.usedAttempts + 1)
  }

  lemma {:induction false} OneNodeStarts(g: Graph)
    requires Waiting(g)
    ensures "a" in g.nodes && AtWork(g, Started(g, ["a"], Work()))
  {
    StartedNode(g, ["a"], Work(), "a");
    DispatchEffect(OpenWave(g), ["a"], Work().clock);
    assert ["a"][..0] == [];
    assert DispatchAll(OpenWave(g), [], Work().clock) == OpenWave(g);
  }

  const START := Act(StartWave(1, Work()))

  lemma {:induction false} WaitingStarts(g: Graph)
    requires Waiting(g)
    ensures Enabled(g, START.move, 1) && AtWork(g, Apply(g, START.move, 1)) && MoveStarts(g, START.move, 1, "a")
  {
    OneNodeBatch(g);
    OneNodeStarts(g);
    assert NoneRunning(g);
    hide Marked, Batch, Started, QuotaFailure;
  }

  /** The checkpoint of the start is stored unless the store is cut off. */
  lemma {:induction false} StepStarts(d: Durable)
    requires Inv(d, 1) && Waiting(d.live)
    ensures Possible(d, START, 1) && Starts(d, START, 1, "a") && Inv(Take(d, START, 1), 1)
    ensures var d' := Take(d, START, 1);
            && AtWork(d.live, d'.live)
            && d' == if d.cut then d.(live := d'.live) else Durable(d'.live, Filed(d'.live), [], false)
  {
    WaitingStarts(d.live);
    hide Inv, Enabled, Apply, MoveStarts, Filed, AtWork, Waiting, KeepsCompleted;
    ActInv(d, START.move, 1);
  }

  /** The node whose attempt returns. */
  const ONLY: set<NodeId> := {"a"}

  /** The only node of s has returned in f. */
  ghost predicate Returned(s: Graph, f: Graph, o: Outcome) {
    && OneNode(s) && OneNode(f) && f.nodes["a"] == Settle(s.nodes["a"], o)
    && f.quota == s.quota.(usedRuntimeMs := s.quota.usedRuntimeMs + Elapsed(o))
  }

  lemma {:induction false} OneNodeReturns(s: Graph, outcome: NodeId -> Outcome, done: set<NodeId>)
    requires OneNode(s) && HasStatus(s, "a", Running) && done == ONLY
    ensures Returned(s, FinishAll(s, done, outcome), outcome("a"))
    ensures forall n :: n in done ==> HasStatus(s, n, Running)
  {
    assert Settle(s.nodes["a"], outcome("a")).dependsOn == [];
    hide Settle, Elapsed;
    assert s.order[1..] == [];
    assert SumElapsed([], done, outcome) == 0;
    assert SumElapsed(s.order, done, outcome) == Elapsed(outcome("a"));
  }

  lemma {:induction false} ReturnIs(d: Durable, done: set<NodeId>, outcome: NodeId -> Outcome, parallel: nat)
    requires Inv(d, parallel) && forall n :: n in done ==> HasStatus(d.live, n, Running)
    ensures var step := Act(Return(done, outcome));
            && Possible(d, step, parallel) && Inv(Take(d, step, parallel), parallel)
            && Take(d, step, parallel) == d.(live := FinishAll(d.live, done, outcome))
            && forall n :: !Starts(d, step, parallel, n)
  {
    hide Inv, FinishAll, HasStatus, KeepsCompleted;
    ActInv(d, Return(done, outcome), parallel);
  }

  lemma {:induction false} StepReturns(d: Durable, outcome: NodeId -> Outcome)
    requires Inv(d, 1) && OneNode(d.live) && HasStatus(d.live, "a", Running)
    ensures var step := Act(Return(ONLY, outcome));
            && Possible(d, step, 1) && !Starts(d, step, 1, "a") && Inv(Take(d, step, 1), 1)
            && Returned(d.live, Take(d, step, 1).live, outcome("a"))
            && Take(d, step, 1) == d.(live := Take(d, step, 1).live)
  {
    OneNodeReturns(d.live, outcome, ONLY);
    hide Inv, Possible, Take, Starts, Returned, FinishAll, HasStatus, OneNode;
    ReturnIs(d, ONLY, outcome, 1);
  }

  /*------------------------- a node that wrote its file ------------------------*/

  function WriterNode(): Node {
    Node("t", "p", [], 0, None, 1, false, ["f"], [WriteScope("/w/f", false, "old")], [], Pending, 0, "", "", "",
         "not_started", 0, 0, Some(0), 0)
  }

  lemma {:induction false} InputParsed(id: string, scopes: seq<string>, disk: Disk)
    requires |id| == 1 && !IsSpace(id[0]) && ValidNodeId(id) && DeclaredWriteScopes(disk, CleanList(scopes)).Some?
    ensures ParseNode(RawNode(id, "t", "p", [], 0, None, "", 0, scopes, []), disk)
         == Some(Node("t", "p", [], 0, None, 1, false, CleanList(scopes),
                      DeclaredWriteScopes(disk, CleanList(scopes)).value, [], Pending, 0, "", "", "", "not_started",
                      0, 0, None, 0))
  {
    LetterIsTrimmed(id);
    LetterIsTrimmed("t");
    LetterIsTrimmed("p");
    hide Strip, DeclaredWriteScopes, ValidNodeId;
    assert CleanList([]) == [];
    assert TakeFirst(CutEntries([]), 50) == [];
    hide CleanList, TakeFirst, CutEntries;
  }

  lemma {:induction false} FreshQuota(g: Graph)
    requires g.quota == ParseQuota(NO_LIMITS).value
    ensures QuotaFailure(g).None? && QuotaFailure(Bump(g)).None?
    ensures g.quota.usedWaves == g.quota.usedAttempts == g.quota.usedRuntimeMs == 0
    ensures g.quota.maxWaves > 1 && g.quota.maxTotalAttempts > 1 && g.quota.maxRuntimeMs > 1
  {
  }

  lemma {:induction false} WriterMade() returns (made: Graph)
    ensures Create(Input(["f"], []), NO_LIMITS, 0, Filled("old")) == Some(made)
    ensures OneNode(made) && made.nodes["a"] == WriterNode() && made.quota == ParseQuota(NO_LIMITS).value
    ensures Inv(Begun(made), 1)
  {
    hide *;
    DeclaredFile("old");
    LetterId();
    InputParsed("a", ["f"], Filled("old"));
    InputIsCreated(["f"], [], Filled("old"));
    made := Create(Input(["f"], []), NO_LIMITS, 0, Filled("old")).value;
    CreatedSane(Input(["f"], []), NO_LIMITS, 0, Filled("old"), 1);
    SaneParts(Begun(made), 1);
    WriterStamped(made);
  }

  lemma {:induction false} LetterId()
    ensures ValidNodeId("a") && ValidNodeId("b") && !IsSpace("a"[0]) && !IsSpace("b"[0]) && |"a"| == |"b"| == 1
    ensures Input(["f"], []) == [RawNode("a", "t", "p", [], 0, None, "", 0, ["f"], [])]
  {
  }

  lemma {:induction false} WriterStamped(g: Graph)
    requires g.order == ["a"] && g.nodes.Keys == {"a"}
    requires g.nodes["a"] == Node("t", "p", [], 0, None, 1, false, ["f"], [WriteScope("/w/f", false, "old")], [], Pending,
                                  0, "", "", "", "not_started", 0, 0, None, 0).(readySince := Some(0))
    ensures OneNode(g) && g.nodes["a"] == WriterNode()
  {
  }

  /** What of a node decides how it comes back. */
  ghost predicate Writer(node: Node) {
    && node.title == "t" && node.prompt == "p" && node.evidenceRefs == []
    && node.declaredScopes == ["f"] && node.writeScopes == [WriteScope("/w/f", false, "old")]
    && node.result in {"", "done"} && node.error == "" && node.failureKind == ""
    && node.effectState in {"not_started", "prepared", "committed"}
  }

  /** The writer's text is stable, and its scopes read the same only while the
      file holds what it held at first. */
  lemma {:induction false} WriterStability(g: Graph)
    requires OneNode(g) && Writer(g.nodes["a"])
    ensures TextStable(g)
    ensures ScopesStable(g, Filled("old")) && !ScopesStable(g, Filled("new"))
    ensures Rereadable(g, Filled("old")) && Rereadable(g, Filled("new")) && !Rereadable(g, Filled("old").(root := "/v"))
  {
    DeclaredFile("old");
    DeclaredFile("new");
    CleanListFixpoint(["f"]);
    hide CleanList, DeclaredWriteScopes, Filled;
    assert "a" in g.nodes;
    assert "old" != "new";
  }

  lemma {:induction false} WriterIsPlain(node: Node)
    requires Writer(node)
    ensures PlainTexts(node)
  {
    NotBlank("done");
    NotBlank("not_started");
    NotBlank("prepared");
    NotBlank("committed");
    assert Strip("") == "";
    hide Strip;
  }

  lemma {:induction false} OnlyOrder(g: Graph)
    requires g.order == ["a"]
    ensures Reordered(g) == g
  {
    var order := StoreOrder(g);
    hide StoreOrder;
    SameMembers(order, ["a"]);
    assert |multiset(order)| == |order|;
    assert order[0] in order;
    assert order == ["a"];
  }

  /** How the writer's graph comes back when nothing is running. */
  lemma {:induction false} WriterComesBack(g: Graph, recovery: NodeId -> string)
    requires OneNode(g) && Writer(g.nodes["a"]) && g.nodes["a"].status != Running && Shape(g) && Storable(g)
    ensures Filed(g) == g
    ensures Revived(g, Restart(recovery, Filled("old"))) == Some(g)
    ensures Revived(g, Restart(recovery, Filled("new"))).Some? && Revived(g, Restart(recovery, Filled("new"))) != Some(g)
    ensures Revived(g, Restart(recovery, Filled("old").(root := "/v"))) == None
  {
    WriterStability(g);
    WriterIsPlain(g.nodes["a"]);
    OnlyOrder(g);
    assert NoneRunning(g);
    hide Writer, Revived, TextStable, ScopesStable, Rereadable, Filled, Shape, Storable, PlainTexts, Reordered, NoneRunning;
    PlainIsFiled(g);
    StoreIdentityExact(g, Restart(recovery, Filled("old")));
    StoreIdentityExact(g, Restart(recovery, Filled("new")));
    RevivedIs(g, Restart(recovery, Filled("new")));
    RevivedIs(g, Restart(recovery, Filled("old").(root := "/v")));
  }

  /** One wave with the only node, which succeeds, up to the last checkpoint. */
  function Worked(): seq<Step> {
    [START, Act(Return(ONLY, Work().outcome)), Act(Checkpoint(false))]
  }

  lemma {:induction false} WorkedIs()
    ensures Worked() == [START] + ([Act(Return(ONLY, Work().outcome))] + ([Act(Checkpoint(false))] + []))
  {
  }

  lemma {:induction false} WorkedRun(d: Durable) returns (last: Durable)
    requires Inv(d, 1) && Waiting(d.live) && Writer(d.live.nodes["a"]) && !d.cut
    ensures AllPossible(d, Worked(), 1) && last == TakeAll(d, Worked(), 1)
    ensures Inv(last, 1) && last == Durable(last.live, Filed(last.live), [], false)
    ensures OneNode(last.live) && HasStatus(last.live, "a", Completed) && Writer(last.live.nodes["a"])
  {
    hide Inv, Possible, Take, Waiting, Filed, Apply, Enabled, QuotaFailure, Starts;
    StepStarts(d);
    var d1 := Take(d, START, 1);
    StepReturns(d1, Work().outcome);
    var d2 := Take(d1, Act(Return(ONLY, Work().outcome)), 1);
    LastCheckpoint(d2);
    last := Take(d2, Act(Checkpoint(false)), 1);
    assert AllPossible(last, [], 1) && TakeAll(last, [], 1) == last;
    FirstStep(d2, Act(Checkpoint(false)), [], 1);
    FirstStep(d1, Act(Return(ONLY, Work().outcome)), [Act(Checkpoint(false))] + [], 1);
    FirstStep(d, START, [Act(Return(ONLY, Work().outcome))] + ([Act(Checkpoint(false))] + []), 1);
    hide AllPossible, TakeAll;
    WorkedIs();
  }

  lemma {:induction false} LastCheckpoint(d: Durable)
    requires Inv(d, 1) && !d.cut
    ensures Possible(d, Act(Checkpoint(false)), 1)
    ensures var d' := Take(d, Act(Checkpoint(false)), 1);
            && Inv(d', 1) && d'.live.nodes == d.live.nodes && d'.live.order == d.live.order
            && d' == Durable(d'.live, Filed(d'.live), [], false)
  {
    hide Inv, Filed;
    ActInv(d, Checkpoint(false), 1);
  }

  /** A node that has written the file it declared and whose last checkpoint is
      stored: the checkpoint is accepted, but brings back other scopes. With the
      workspace moved it is refused. */
  lemma {:induction false} WrittenFileChangesRestore(recovery: NodeId -> string) returns (made: Graph, d: Durable)
    ensures Create(Input(["f"], []), NO_LIMITS, 0, Filled("old")) == Some(made)
    ensures AllPossible(Begun(made), Worked(), 1) && d == TakeAll(Begun(made), Worked(), 1)
    ensures HasStatus(d.live, "a", Completed) && Rows(d) == d.live && Shape(Rows(d))
    ensures Revived(Rows(d), Restart(recovery, Filled("old"))) == Some(d.live)
    ensures Revived(Rows(d), Restart(recovery, Filled("new"))).Some?
            && Revived(Rows(d), Restart(recovery, Filled("new"))) != Some(d.live)
    ensures Revived(Rows(d), Restart(recovery, Filled("old").(root := "/v"))) == None
  {
    made := WriterMade();
    hide Input, Create, Revived, Filled, TakeAll, AllPossible, Filed, Inv, Worked, Shape, Storable, Good;
    WriterWaits(made);
    d := WorkedRun(Begun(made));
    InvParts(d, 1);
    NoNotes(d);
    hide Rows;
    WriterComesBack(d.live, recovery);
  }

  lemma {:induction false} WriterWaits(made: Graph)
    requires OneNode(made) && made.nodes["a"] == WriterNode() && made.quota == ParseQuota(NO_LIMITS).value
    ensures Waiting(Bump(made)) && Writer(Bump(made).nodes["a"])
  {
    FreshQuota(made);
    hide QuotaFailure;
  }

  /*------------------------- one attempt and one id too many -------------------*/

  function SafeToRetry(): Restart {
    Restart(n => "safe_to_retry", Filled("old"))
  }

  function Overdrawing(): seq<Step> {
    [START, Crash(SafeToRetry())]
  }

  /** The process dies during the only attempt, and the verdict is to try again. */
  lemma {:induction false} RestoreOverdraws() returns (made: Graph, d: Durable)
    ensures Create(Input(["f"], []), NO_LIMITS, 0, Filled("old")) == Some(made)
    ensures WithinLimits(Begun(made)) && AllPossible(Begun(made), Overdrawing(), 1)
    ensures d == TakeAll(Begun(made), Overdrawing(), 1)
    ensures HasStatus(d.live, "a", Pending) && d.live.nodes["a"].attempts == d.live.nodes["a"].maxAttempts == 1
    ensures !WithinLimits(d)
  {
    hide *;
    made := WriterMade();
    WriterWaits(made);
    WaitingWithin(made);
    StepStarts(Begun(made));
    var d1 := Take(Begun(made), START, 1);
    StartedWriter(made, d1);
    d := LastAttemptCrashes(d1);
    NoMoreSteps(d);
    FirstStep(d1, Crash(SafeToRetry()), [], 1);
    FirstStep(Begun(made), START, [Crash(SafeToRetry())] + [], 1);
    OverdrawingIs();
  }

  lemma {:induction false} OverdrawingIs()
    ensures Overdrawing() == [START] + ([Crash(SafeToRetry())] + [])
  {
  }

  lemma {:induction false} NoMoreSteps(d: Durable)
    ensures AllPossible(d, [], 1) && TakeAll(d, [], 1) == d && EffectIds(d, [], 1, "a") == []
  {
  }

  lemma {:induction false} WaitingWithin(made: Graph)
    requires OneNode(made) && made.nodes["a"] == WriterNode()
    ensures WithinLimits(Begun(made)) && !Begun(made).cut && Begun(made).live == Bump(made)
    ensures OneNode(Bump(made)) && Bump(made).nodes["a"] == WriterNode() && Bump(made).quota == made.quota
    ensures Begun(made) == Durable(Bump(made), Filed(Bump(made)), [], false)
    ensures "a" in Begun(made).live.nodes && Begun(made).live.nodes["a"].attempts == 0
  {
    FiledAttempts(Bump(made));
  }

  lemma {:induction false} StartedWriter(made: Graph, d: Durable)
    requires OneNode(made) && made.nodes["a"] == WriterNode() && AtWork(Bump(made), d.live)
    requires d.filed == Filed(d.live) && d.told == []
    ensures Writer(d.live.nodes["a"]) && OneNode(d.live) && OneNode(Rows(d)) && Writer(Rows(d).nodes["a"])
    ensures HasStatus(d.live, "a", Running) && HasStatus(Rows(d), "a", Running)
    ensures Rows(d).nodes["a"].attempts == Rows(d).nodes["a"].maxAttempts == 1
  {
    NoNotes(d);
    hide Rows;
    WriterIsPlain(d.live.nodes["a"]);
    hide FiledNode;
  }

  lemma {:induction false} LastAttemptCrashes(d: Durable) returns (d': Durable)
    requires Inv(d, 1) && OneNode(Rows(d)) && HasStatus(Rows(d), "a", Running) && Writer(Rows(d).nodes["a"])
    requires Rows(d).nodes["a"].attempts == Rows(d).nodes["a"].maxAttempts == 1 && HasStatus(d.live, "a", Running)
    ensures Possible(d, Crash(SafeToRetry()), 1) && d' == Take(d, Crash(SafeToRetry()), 1)
    ensures HasStatus(d'.live, "a", Pending) && d'.live.nodes["a"].attempts == d'.live.nodes["a"].maxAttempts == 1
    ensures !WithinLimits(d')
  {
    hide Inv, Storable, Books, Told, Shape, Revived, Writer, Filled, Rereadable, Take, Comeback;
    WriterStability(Rows(d));
    RowsBooks(d, 1);
    RevivedIs(Rows(d), SafeToRetry());
    d' := Take(d, Crash(SafeToRetry()), 1);
    CrashCounts(d, SafeToRetry(), 1, "a");
    EndsByRow(d, SafeToRetry(), 1, "a");
    hide Possible;
    assert SafeToRetry().recovery("a") == "safe_to_retry";
    assert !AttemptOk(d'.live.nodes["a"]);
  }

  function Fails(): NodeId -> Outcome {
    n => Outcome(true, "no", "", false, "completed", 1, 0)
  }

  /** The node fails, is requeued by hand and started again. */
  function RequeuedSteps(): seq<Step> {
    [START, Act(Return(ONLY, Fails())), Act(Requeue("a", 0)), START]
  }

  lemma {:induction false} FailedNode(g: Graph, s: Graph, f: Graph)
    requires Waiting(g) && g.quota == ParseQuota(NO_LIMITS).value && AtWork(g, s)
    requires Returned(s, f, Fails()("a"))
    ensures OneNode(f) && HasStatus(f, "a", Failed) && QuotaFailure(f).None?
    ensures f.nodes["a"].deadline == None && f.nodes["a"].maxAttempts == 1 && !f.nodes["a"].retrySafe
  {
    FreshQuota(g);
  }

  lemma {:induction false} StepRequeues(d: Durable)
    requires Inv(d, 1) && OneNode(d.live) && HasStatus(d.live, "a", Failed) && QuotaFailure(d.live).None?
    requires d.live.nodes["a"].deadline == None && d.live.nodes["a"].maxAttempts == 1 && !d.live.nodes["a"].retrySafe
    ensures Possible(d, Act(Requeue("a", 0)), 1) && !Starts(d, Act(Requeue("a", 0)), 1, "a")
    ensures Inv(Take(d, Act(Requeue("a", 0)), 1), 1) && Waiting(Take(d, Act(Requeue("a", 0)), 1).live)
  {
    hide Inv, Filed;
    ActInv(d, Requeue("a", 0), 1);
  }

  /** One start, seen as an effect id. */
  lemma {:induction false} StartId(d: Durable, rest: seq<Step>)
    requires Inv(d, 1) && Waiting(d.live) && Possible(d, START, 1) && AllPossible(Take(d, START, 1), rest, 1)
    ensures AllPossible(d, [START] + rest, 1)
    ensures EffectIds(d, [START] + rest, 1, "a") == [1] + EffectIds(Take(d, START, 1), rest, 1, "a")
  {
    StepStarts(d);
    hide Inv, Possible, Take, QuotaFailure, Starts, Filed;
    assert Take(d, START, 1).live.nodes["a"].attempts == 1;
    FirstIds(d, START, rest, 1, "a");
    hide EffectIds;
  }

  lemma {:induction false} NoId(d: Durable, step: Step, rest: seq<Step>)
    requires Possible(d, step, 1) && !Starts(d, step, 1, "a") && AllPossible(Take(d, step, 1), rest, 1)
    ensures AllPossible(d, [step] + rest, 1)
    ensures EffectIds(d, [step] + rest, 1, "a") == EffectIds(Take(d, step, 1), rest, 1, "a")
  {
    hide Possible, Take, Starts;
    FirstIds(d, step, rest, 1, "a");
    hide EffectIds;
  }

  /** Both attempts run under the same effect id. */
  lemma {:induction false} RequeueRepeatsId() returns (made: Graph)
    ensures Create(Input(["f"], []), NO_LIMITS, 0, Filled("old")) == Some(made)
    ensures AllPossible(Begun(made), RequeuedSteps(), 1)
    ensures EffectIds(Begun(made), RequeuedSteps(), 1, "a") == [1, 1] && !AllFresh([1, 1], {})
  {
    hide *;
    made := WriterMade();
    WriterWaits(made);
    WaitingWithin(made);
    var d := Begun(made);
    StepStarts(d);
    var d1 := Take(d, START, 1);
    StartedWriter(made, d1);
    StepReturns(d1, Fails());
    var d2 := Take(d1, Act(Return(ONLY, Fails())), 1);
    FailedNode(d.live, d1.live, d2.live);
    StepRequeues(d2);
    var d3 := Take(d2, Act(Requeue("a", 0)), 1);
    StepStarts(d3);
    NoMoreSteps(Take(d3, START, 1));
    StartId(d3, []);
    NoId(d2, Act(Requeue("a", 0)), [START] + []);
    NoId(d1, Act(Return(ONLY, Fails())), [Act(Requeue("a", 0))] + ([START] + []));
    StartId(d, [Act(Return(ONLY, Fails()))] + ([Act(Requeue("a", 0))] + ([START] + [])));
    TwiceOne();
    RequeuedIs();
  }

  lemma {:induction false} RequeuedIs()
    ensures RequeuedSteps() == [START] + ([Act(Return(ONLY, Fails()))] + ([Act(Requeue("a", 0))] + ([START] + [])))
  {
  }

  lemma {:induction false} TwiceOne()
    ensures [1] + ([1] + []) == [1, 1] && !AllFresh([1, 1], {})
  {
    FreshStep(1, [1], {});
    FreshStep(1, [], {1});
    assert [1] + [1] == [1, 1] && [1] + [] == [1];
    hide AllFresh;
  }

  /** The process dies before the checkpoint of the start is stored. */
  function ForgottenSteps(): seq<Step> {
    [Cut, START, Crash(SafeToRetry()), START]
  }

  /** Two processes each start the node's first attempt, under the same effect id,
      and nobody requeued it. */
  lemma {:induction false} ForgottenStartRepeatsId() returns (made: Graph)
    ensures Create(Input(["f"], []), NO_LIMITS, 0, Filled("old")) == Some(made)
    ensures AllPossible(Begun(made), ForgottenSteps(), 1)
    ensures EffectIds(Begun(made), ForgottenSteps(), 1, "a") == [1, 1] && !AllFresh([1, 1], {})
    ensures forall step :: step in ForgottenSteps() ==> !Requeues(step, "a")
  {
    hide *;
    made := WriterMade();
    WriterWaits(made);
    WaitingWithin(made);
    var d := Begun(made);
    CutOff(d);
    var d1 := Take(d, Cut, 1);
    StepStarts(d1);
    var d2 := Take(d1, START, 1);
    CrashForgetsStart(made, d2);
    var d3 := Take(d2, Crash(SafeToRetry()), 1);
    StepStarts(d3);
    NoMoreSteps(Take(d3, START, 1));
    StartId(d3, []);
    NoId(d2, Crash(SafeToRetry()), [START] + []);
    StartId(d1, [Crash(SafeToRetry())] + ([START] + []));
    NoId(d, Cut, [START] + ([Crash(SafeToRetry())] + ([START] + [])));
    TwiceOne();
    ForgottenIs();
  }

  lemma {:induction false} ForgottenIs()
    ensures ForgottenSteps() == [Cut] + ([START] + ([Crash(SafeToRetry())] + ([START] + [])))
    ensures forall step :: step in ForgottenSteps() ==> !Requeues(step, "a")
  {
  }

  lemma {:induction false} CutOff(d: Durable)
    requires Inv(d, 1)
    ensures Possible(d, Cut, 1) && !Starts(d, Cut, 1, "a") && Take(d, Cut, 1) == d.(cut := true)
    ensures Inv(Take(d, Cut, 1), 1)
  {
    hide Inv;
    QuietInv(d, d.(cut := true), 1);
  }

  lemma {:induction false} CrashRevives(d: Durable, r: Restart, g: Graph, parallel: nat)
    requires Inv(d, parallel) && Shape(Rows(d)) && Revived(Rows(d), r) == Some(g)
    ensures Possible(d, Crash(r), parallel) && Take(d, Crash(r), parallel).live == g
    ensures Inv(Take(d, Crash(r), parallel), parallel) && forall n :: !Starts(d, Crash(r), parallel, n)
  {
    hide Inv, Shape, Revived, Rows, KeepsCompleted;
    assert Possible(d, Crash(r), parallel);
    StepInv(d, Crash(r), parallel);
  }

  /** The graph comes back as it was before the start. */
  lemma {:induction false} CrashForgetsStart(made: Graph, d: Durable)
    requires OneNode(made) && made.nodes["a"] == WriterNode() && Waiting(Bump(made)) && Writer(Bump(made).nodes["a"])
    requires Inv(Begun(made), 1) && Inv(d, 1) && d.filed == Filed(Bump(made)) && d.told == []
    ensures var step := Crash(SafeToRetry());
            && Possible(d, step, 1) && !Starts(d, step, 1, "a") && Take(d, step, 1).live == Bump(made)
            && Inv(Take(d, step, 1), 1)
  {
    assert OneNode(Bump(made)) && Begun(made).live == Bump(made) && Bump(made).nodes["a"].status != Running;
    assert SafeToRetry() == Restart(SafeToRetry().recovery, Filled("old"));
    hide *;
    NoNotes(d);
    InvParts(Begun(made), 1);
    WriterComesBack(Bump(made), SafeToRetry().recovery);
    CrashRevives(d, SafeToRetry(), Bump(made), 1);
  }

  /*----------------------- work lost between two checkpoints -------------------*/

  function PlainInput(id: string): RawNode {
    RawNode(id, "t", "p", [], 0, None, "", 0, [], [])
  }

  function TwoInputs(): seq<RawNode> {
    [PlainInput("a"), PlainInput("b")]
  }

  function PlainNode(): Node {
    Node("t", "p", [], 0, None, 1, false, [], [], [], Pending, 0, "", "", "", "not_started", 0, 0, None, 0)
  }

  /** Two nodes that wait, depend on nothing and write nothing. */
  ghost predicate TwoNodes(g: Graph) {
    && g.order == ["a", "b"] && g.nodes.Keys == {"a", "b"} && g.quota == ParseQuota(NO_LIMITS).value
    && forall n :: n in g.nodes ==> g.nodes[n] == PlainNode().(readySince := Some(0))
  }

  lemma {:induction false} NothingDeclared(disk: Disk)
    ensures CleanList([]) == [] && DeclaredWriteScopes(disk, []) == Some([]) && Normalize([]) == []
  {
    CompactFixpoint([]);
  }

  lemma {:induction false} OneMoreParsed(raws: seq<RawNode>, last: RawNode, disk: Disk, order: seq<NodeId>,
          nodes: map<NodeId, Node>, node: Node)
    requires ParseNodes(raws, disk) == Some((order, nodes)) && ParseNode(last, disk) == Some(node)
    requires Strip(last.id) == last.id && last.id !in nodes
    ensures ParseNodes(raws + [last], disk) == Some((order + [last.id], nodes[last.id := node]))
  {
    hide ParseNode, Strip;
    assert (raws + [last])[..|raws + [last]| - 1] == raws;
  }

  lemma {:induction false} TwoParsed(disk: Disk)
    ensures ParseNodes(TwoInputs(), disk) == Some((["a", "b"], map["a" := PlainNode(), "b" := PlainNode()]))
  {
    hide ParseNode, DeclaredWriteScopes, Strip, CleanList, ValidNodeId;
    NothingDeclared(disk);
    LetterId();
    InputParsed("a", [], disk);
    InputParsed("b", [], disk);
    LetterIsTrimmed("a");
    LetterIsTrimmed("b");
    assert ParseNodes([], disk) == Some(([], map[]));
    hide ParseNodes;
    OneMoreParsed([], PlainInput("a"), disk, [], map[], PlainNode());
    assert PlainInput("a").id == "a" && PlainInput("b").id == "b";
    assert [] + [PlainInput("a")] == [PlainInput("a")] && [] + ["a"] == ["a"] && ["a"] + ["b"] == ["a", "b"];
    assert map[]["a" := PlainNode()] == map["a" := PlainNode()];
    assert map["a" := PlainNode()]["b" := PlainNode()] == map["a" := PlainNode(), "b" := PlainNode()];
    OneMoreParsed([PlainInput("a")], PlainInput("b"), disk, ["a"], map["a" := PlainNode()], PlainNode());
    assert [PlainInput("a")] + [PlainInput("b")] == TwoInputs();
  }

  lemma {:induction false} TwoMade(disk: Disk) returns (made: Graph)
    ensures Create(TwoInputs(), NO_LIMITS, 0, disk) == Some(made) && TwoNodes(made)
  {
    TwoParsed(disk);
    hide ParseNodes, Acceptable;
    var parsed := map["a" := PlainNode(), "b" := PlainNode()];
    made := Graph(["a", "b"], map n | n in parsed :: parsed[n].(readySince := Some(0)), 0, 0, ParseQuota(NO_LIMITS).value, false);
    IndependentAcceptable(made);
    assert ParseQuota(NO_LIMITS).Some?;
    hide ParseQuota;
    assert TwoNodes(made);
    hide TwoNodes;
    assert |TwoInputs()| == 2;
    hide TwoInputs;
  }

  lemma {:induction false} TwoCreated(disk: Disk) returns (made: Graph)
    ensures Create(TwoInputs(), NO_LIMITS, 0, disk) == Some(made) && TwoNodes(made) && Inv(Begun(made), 2)
  {
    hide *;
    made := TwoMade(disk);
    CreatedSane(TwoInputs(), NO_LIMITS, 0, disk, 2);
    SaneParts(Begun(made), 2);
  }

  lemma {:induction false} IndependentAcceptable(g: Graph)
    requires forall n :: n in g.nodes ==> g.nodes[n].dependsOn == []
    ensures Acceptable(DepsOf(g))
  {
    var deps := DepsOf(g);
    assert Ranked(deps, map n | n in deps :: 0);
  }

  /** Without dependencies nothing is blocked. */
  lemma {:induction false} IndependentMarked(g: Graph)
    requires forall n :: n in g.nodes ==> g.nodes[n].dependsOn == []
    ensures Marked(g) == g
  {
    forall n | n in g.nodes
      ensures !Doomed(g, n)
    {
      forall p | FailurePath(g, p)
        ensures p[1] in DepsOf(g)[p[0]]
      {
      }
    }
    assert Marked(g).nodes == g.nodes;
  }

  /** Without conflicts the batch takes every ready node there is room for. */
  lemma {:induction false} GreedyTakesAll(g: Graph, ready: seq<Rank>, selected: seq<NodeId>, maxParallel: int)
    requires |selected| + |ready| <= maxParallel
    requires forall n, o :: !NodesConflict(g, n, o)
    ensures forall r :: r in ready ==> r.id in Greedy(g, ready, selected, maxParallel)
    ensures forall n :: n in selected ==> n in Greedy(g, ready, selected, maxParallel)
    decreases |ready|
  {
    hide NodesConflict;
    if ready != [] {
      var more := selected + [ready[0].id];
      GreedyTakesAll(g, ready[1..], more, maxParallel);
      assert ready == [ready[0]] + ready[1..];
      assert ready[0].id in more;
    }
  }

  lemma {:induction false} NoConflict(g: Graph)
    requires forall n :: n in g.nodes ==> g.nodes[n].writeScopes == []
    ensures forall n, o :: !NodesConflict(g, n, o)
  {
    CompactFixpoint([]);
    assert Normalize([]) == [];
  }

  lemma {:induction false} BatchOfTwo(g: Graph)
    requires g.order == ["a", "b"] && g.nodes.Keys == {"a", "b"}
    requires forall n :: n in g.nodes ==> HasStatus(g, n, Pending) && g.nodes[n].dependsOn == [] && g.nodes[n].writeScopes == []
    ensures "a" in Batch(g, 2) && "b" in Batch(g, 2)
  {
    NoConflict(g);
    ReadyNodesExact(g);
    assert IsReady(g, "a") && IsReady(g, "b") && "a" in g.order && "b" in g.order;
    var ready := ReadyNodes(g);
    assert |ready| <= 2;
    hide ReadyNodes, IsReady;
    GreedyTakesAll(g, ready, [], 2);
    assert RankOf(g, "a").id == "a" && RankOf(g, "b").id == "b";
    hide Greedy, RankOf;
  }

  /** Every node takes a second and succeeds. */
  function Seconds(): WaveWorld {
    WaveWorld(n => 0, n => Outcome(false, "done", "", false, "completed", 1000, 1))
  }

  const START_BOTH := Act(StartWave(2, Seconds()))

  /** Both nodes are running and nothing has been charged. */
  ghost predicate BothRun(s: Graph) {
    && s.order == ["a", "b"] && s.nodes.Keys == {"a", "b"} && s.quota.usedRuntimeMs == 0
    && forall n :: n in s.nodes ==> s.nodes[n] == StartNode(PlainNode().(readySince := Some(0)), s.nodes[n].dispatchSequence)
  }

  lemma {:induction false} BothStart(g: Graph)
    requires TwoNodes(g) && Shape(g)
    ensures Enabled(g, START_BOTH.move, 2) && BothRun(Apply(g, START_BOTH.move, 2))
  {
    hide Shape, Batch, Started, Marked, ParseQuota;
    IndependentMarked(g);
    BatchOfTwo(g);
    BatchMembers(g, 2);
    BatchIsReady(g, 2);
    FreshQuota(g);
    assert NoneRunning(g);
    hide QuotaFailure, NoneRunning, PairwiseFree, IsReady;
    StartedBoth(g, Batch(g, 2));
  }

  lemma {:induction false} StartedBoth(g: Graph, batch: seq<NodeId>)
    requires TwoNodes(g) && Distinct(batch) && "a" in batch && "b" in batch && forall n :: n in batch ==> n in g.nodes
    ensures BothRun(Started(g, batch, Seconds()))
  {
    StartedNode(g, batch, Seconds(), "a");
    StartedNode(g, batch, Seconds(), "b");
    DispatchQuota(OpenWave(g), batch, Seconds().clock);
    FreshQuota(g);
    hide DispatchAll, ParseQuota;
  }

  /** a returns while b is running, and then the process dies; reported says whether
      the report that a completed has been stored. */
  function BeforeCrash(reported: bool): seq<Step> {
    if reported then [START_BOTH, Observe(Note("a", AgentCompleted("done"))), Act(Return(ONLY, Seconds().outcome))]
    else [START_BOTH, Act(Return(ONLY, Seconds().outcome))]
  }

  /** a as it is in memory just before the crash, and in its row. */
  ghost predicate Torn(d: Durable, reported: bool) {
    && d.live.nodes.Keys == d.filed.nodes.Keys == {"a", "b"} && d.filed.quota.usedRuntimeMs == 0
    && HasStatus(d.live, "a", Completed) && HasStatus(d.live, "b", Running)
    && d.live.nodes["a"].result == "done" && d.live.nodes["a"].durationMs == d.live.quota.usedRuntimeMs == 1000
    && (forall n :: n in d.filed.nodes ==>
          d.filed.nodes[n].declaredScopes == [] && d.filed.nodes[n].durationMs == 0 && d.filed.nodes[n].status == Running)
    && d.told == if reported then [Note("a", AgentCompleted("done"))] else []
  }

  lemma {:induction false} RunningRow(s: Graph, n: NodeId)
    requires BothRun(s) && n in s.nodes
    ensures var row := FiledNode(s.nodes[n]); row.status == Running && row.durationMs == 0 && row.declaredScopes == []
  {
    hide Unblank, Known;
  }

  lemma {:induction false} TornByReturn(d: Durable, reported: bool)
    requires BothRun(d.live) && d.filed == Filed(d.live)
    requires d.told == if reported then [Note("a", AgentCompleted("done"))] else []
    ensures Torn(d.(live := FinishAll(d.live, ONLY, Seconds().outcome)), reported)
  {
    hide FiledNode, FinishAll, Seconds;
    SecondCharged(d.live);
    forall n | n in d.live.nodes
      ensures FiledNode(d.live.nodes[n]).status == Running && FiledNode(d.live.nodes[n]).durationMs == 0
      ensures FiledNode(d.live.nodes[n]).declaredScopes == []
    {
      RunningRow(d.live, n);
    }
  }

  lemma {:induction false} SecondCharged(s: Graph)
    requires BothRun(s)
    ensures var f := FinishAll(s, ONLY, Seconds().outcome);
            && f.nodes.Keys == {"a", "b"} && HasStatus(f, "a", Completed) && HasStatus(f, "b", Running)
            && f.nodes["a"].result == "done" && f.nodes["a"].durationMs == f.quota.usedRuntimeMs == 1000
  {
    assert s.order[1..] == ["b"] && ["b"][1..] == [];
    assert SumElapsed([], ONLY, Seconds().outcome) == 0;
    assert SumElapsed(["b"], ONLY, Seconds().outcome) == 0;
    assert SumElapsed(s.order, ONLY, Seconds().outcome) == 1000;
  }

  lemma {:induction false} StartsBoth(d: Durable)
    requires Inv(d, 2) && TwoNodes(d.live) && !d.cut
    ensures Possible(d, START_BOTH, 2)
    ensures var d' := Take(d, START_BOTH, 2);
            Inv(d', 2) && BothRun(d'.live) && d' == Durable(d'.live, Filed(d'.live), [], false)
  {
    InvParts(d, 2);
    hide Inv, Enabled, Apply, BothRun, TwoNodes, Filed, Shape, Books, WritersDisjoint, Storable, KeepsCompleted;
    BothStart(d.live);
    ActInv(d, START_BOTH.move, 2);
  }

  lemma {:induction false} Noted(d: Durable, note: Note, parallel: nat)
    requires Inv(d, parallel)
    ensures Possible(d, Observe(note), parallel) && Take(d, Observe(note), parallel) == d.(told := d.told + [note])
    ensures Inv(Take(d, Observe(note), parallel), parallel)
  {
    hide Inv;
    QuietInv(d, d.(told := d.told + [note]), parallel);
  }

  lemma {:induction false} RunToCrash(made: Graph, reported: bool) returns (d: Durable)
    requires Inv(Begun(made), 2) && TwoNodes(made)
    ensures AllPossible(Begun(made), BeforeCrash(reported), 2) && d == TakeAll(Begun(made), BeforeCrash(reported), 2)
    ensures Inv(d, 2) && Torn(d, reported)
  {
    hide *;
    TwoBegun(made);
    StartsBoth(Begun(made));
    var d1 := Take(Begun(made), START_BOTH, 2);
    var note := Note("a", AgentCompleted("done"));
    Noted(d1, note, 2);
    var d2 := if reported then Take(d1, Observe(note), 2) else d1;
    assert [] + [note] == [note];
    RunsA(d2.live);
    ReturnIs(d2, ONLY, Seconds().outcome, 2);
    TornByReturn(d2, reported);
    d := Take(d2, Act(Return(ONLY, Seconds().outcome)), 2);
    NoMoreMoves(d);
    var last := [Act(Return(ONLY, Seconds().outcome))] + [];
    FirstStep(d2, Act(Return(ONLY, Seconds().outcome)), [], 2);
    if reported {
      FirstStep(d1, Observe(note), last, 2);
      FirstStep(Begun(made), START_BOTH, [Observe(note)] + last, 2);
    } else {
      FirstStep(Begun(made), START_BOTH, last, 2);
    }
    BeforeCrashIs(reported);
  }

  lemma {:induction false} RunsA(s: Graph)
    requires BothRun(s)
    ensures forall n :: n in ONLY ==> HasStatus(s, n, Running)
  {
  }

  lemma {:induction false} NoMoreMoves(d: Durable)
    ensures AllPossible(d, [], 2) && TakeAll(d, [], 2) == d
  {
  }

  lemma {:induction false} TwoBegun(made: Graph)
    requires TwoNodes(made)
    ensures TwoNodes(Begun(made).live) && !Begun(made).cut
  {
    hide ParseQuota;
  }

  lemma {:induction false} BeforeCrashIs(reported: bool)
    ensures var last := [Act(Return(ONLY, Seconds().outcome))] + [];
            var rest := if reported then [Observe(Note("a", AgentCompleted("done")))] + last else last;
            BeforeCrash(reported) == [START_BOTH] + rest
  {
  }

  lemma {:induction false} TornRow(d: Durable, reported: bool)
    requires Torn(d, reported)
    ensures "a" in Rows(d).nodes && LastStatus(d.told, "a") == if reported then Some(Completed) else None
    ensures reported ==> Rows(d).nodes["a"].result == "done"
    ensures forall n :: n in Rows(d).nodes ==> Rows(d).nodes[n].declaredScopes == []
  {
    NotBlank("done");
    hide Strip;
    var report := AgentCompleted("done");
    OneNote(d.filed.nodes["a"], "a", report);
    forall n | n in d.filed.nodes
      ensures ToldBy(d.filed.nodes[n], d.told, n).declaredScopes == []
    {
      if reported && n != "a" {
        Untold(d.filed.nodes[n], d.told, n);
      }
    }
  }

  lemma {:induction false} TornComesBack(d: Durable, reported: bool, r: Restart)
    requires Inv(d, 2) && Torn(d, reported)
    ensures Possible(d, Crash(r), 2)
    ensures var after := Take(d, Crash(r), 2).live;
            && after.quota.usedRuntimeMs == 0 && "a" in after.nodes && after.nodes["a"].durationMs == 0
            && (reported ==> after.nodes["a"].status == Completed && after.nodes["a"].result == "done")
            && (!reported && r.recovery("a") == "safe_to_retry" ==> after.nodes["a"].status == Pending)
  {
    hide Inv, Books, WritersDisjoint, Storable, Shape, Revived, Comeback, Reordered, Rescope, Retext, Recovered, FieldsOk, Told, LastStatus;
    NothingDeclared(r.disk);
    TornRow(d, reported);
    RowsBooks(d, 2);
    assert Rereadable(Rows(d), r.disk);
    hide Rereadable, DeclaredWriteScopes, CleanList, Normalize, Rows;
    RevivedIs(Rows(d), r);
    hide Frame, Record;
    CrashForgets(d, r, 2);
    CrashInv(d, r, 2);
    hide Possible, Take;
    CrashedNode(d, r, 2, "a");
    RowCounts(d, 2, "a");
    EndsAs(d, r, 2, "a");
    RevivedNode(Rows(d).nodes["a"], r.recovery("a"), r.disk);
    RevivedResult(Rows(d).nodes["a"], r.recovery("a"), r.disk);
  }

  lemma {:induction false} RevivedResult(row: Node, verdict: string, disk: Disk)
    ensures Recovered(Rescope(Retext(row), disk), verdict).result == row.result
  {
    hide Strip, CleanList, DeclaredWriteScopes;
  }

  /** Two independent nodes are started together, a finishes after a second, and the
      process dies while b is running. If the report has been stored, a comes back
      completed but with no runtime, and the graph with nothing charged. If the
      report was lost and the verdict is that a is safe to retry, a is queued again. */
  lemma {:induction false} CrashLosesCompletedWork(r: Restart, reported: bool) returns (made: Graph, d: Durable)
    ensures Create(TwoInputs(), NO_LIMITS, 0, r.disk) == Some(made)
    ensures AllPossible(Begun(made), BeforeCrash(reported), 2) && d == TakeAll(Begun(made), BeforeCrash(reported), 2)
    ensures HasStatus(d.live, "a", Completed) && HasStatus(d.live, "b", Running)
    ensures d.live.nodes["a"].durationMs == d.live.quota.usedRuntimeMs == 1000
    ensures Possible(d, Crash(r), 2)
    ensures var after := Take(d, Crash(r), 2).live;
            && after.quota.usedRuntimeMs == 0 && "a" in after.nodes && after.nodes["a"].durationMs == 0
            && (reported ==> after.nodes["a"].status == Completed && after.nodes["a"].result == "done")
            && (!reported && r.recovery("a") == "safe_to_retry" ==> after.nodes["a"].status == Pending)
  {
    made := TwoCreated(r.disk);
    d := RunToCrash(made, reported);
    hide Inv, Create, AllPossible, TakeAll, Possible, Take, BeforeCrash;
    TornComesBack(d, reported, r);
  }
}
