/** Creating a workflow, writing its checkpoint and restoring it after a crash
    (agent/app/subagent/workflow.py, _parse_nodes, _snapshot, _graph_from_snapshot). */
module WorkflowSnapshot {
  import opened Ordering
  import opened Text
  import opened Scopes
  import opened DeclaredScopes
  import opened Dag
  import opened Workflow
  import opened WorkflowSafety
  import opened WorkflowInvariant

  /** Stripped list entries, empty ones dropped. */
  function CleanList(ss: seq<string>): seq<string> {
    if ss == [] then []
    else (if Strip(ss[0]) == "" then [] else [Strip(ss[0])]) + CleanList(ss[1..])
  }

  ghost predicate CleanEntries(ss: seq<string>) {
    forall s :: s in ss ==> s != "" && Trimmed(s)
  }

  lemma {:induction false} CleanListShrinks(ss: seq<string>)
    ensures |CleanList(ss)| <= |ss|
  {
    if ss != [] {
      CleanListShrinks(ss[1..]);
    }
  }

  lemma {:induction false} CleanListFixpoint(ss: seq<string>)
    ensures CleanList(ss) == ss <==> CleanEntries(ss)
  {
    if ss != [] {
      CleanListShrinks(ss[1..]);
      CleanListFixpoint(ss[1..]);
      StripTrims(ss[0]);
      assert ss == [ss[0]] + ss[1..];
      if CleanList(ss) == ss {
        assert Strip(ss[0]) != "";
        assert CleanList(ss)[0] == ss[0];
        assert CleanList(ss)[1..] == CleanList(ss[1..]);
      }
    }
  }

  predicate IdChar(c: char) {
    'a' <= c <= 'z' || 'A' <= c <= 'Z' || '0' <= c <= '9' || c in {'.', '_', '-'}
  }

  /** The node id pattern. */
  predicate ValidNodeId(s: string) {
    1 <= |s| <= 80 && IdChar(s[0]) && s[0] !in {'.', '_', '-'} && forall i :: 0 <= i < |s| ==> IdChar(s[i])
  }

  lemma {:induction false} ValidIdsAreTrimmed(s: string)
    requires ValidNodeId(s)
    ensures Trimmed(s) && s != "" && Strip(s) == s
  {
    StripTrims(s);
  }

  /*--------------------------------- creation ---------------------------------*/

  datatype RawNode = RawNode(id: string, title: string, prompt: string, dependsOn: seq<string>, priority: int,
                             deadline: Option<int>, retryMode: string, maxAttempts: int,
                             writeScopes: seq<string>, evidenceRefs: seq<string>)

  datatype RawQuota = RawQuota(maxWaves: int, maxTotalAttempts: int, maxRuntimeMs: int)

  function Clamp(x: int, low: int, high: int): int {
    if x < low then low else if x > high then high else x
  }

  function OrElse(x: int, default: int): int {
    if x == 0 then default else x
  }

  function TakeFirst(ss: seq<string>, n: nat): seq<string> {
    if |ss| <= n then ss else ss[..n]
  }

  function CutEntries(ss: seq<string>): seq<string> {
    seq(|ss|, i requires 0 <= i < |ss| => Truncate(ss[i], 1000))
  }

  function ParseNode(raw: RawNode, disk: Disk): Option<Node> {
    var declared := CleanList(raw.writeScopes);
    var scopes := DeclaredWriteScopes(disk, declared);
    var mode := if raw.retryMode == "" then "never" else raw.retryMode;
    var tries := OrElse(raw.maxAttempts, 1);
    if !ValidNodeId(Strip(raw.id)) || Strip(raw.title) == "" || Strip(raw.prompt) == ""
       || mode !in {"never", "safe"} || !(1 <= tries <= 10) || scopes.None? then None
    else
      Some(Node(Truncate(Strip(raw.title), 120), Truncate(Strip(raw.prompt), 20000), Unique(CleanList(raw.dependsOn)),
                Clamp(raw.priority, -100, 100), raw.deadline, tries, mode == "safe", declared, scopes.value,
                TakeFirst(CutEntries(CleanList(raw.evidenceRefs)), 50),
                Pending, 0, "", "", "", "not_started", 0, 0, None, 0))
  }

  function ParseNodes(raws: seq<RawNode>, disk: Disk): Option<(seq<NodeId>, map<NodeId, Node>)> {
    if raws == [] then Some(([], map[]))
    else
      var last := raws[|raws| - 1];
      var init := ParseNodes(raws[..|raws| - 1], disk);
      var id := Strip(last.id);
      if init.None? || ParseNode(last, disk).None? || id in init.value.1 then None
      else Some((init.value.0 + [id], init.value.1[id := ParseNode(last, disk).value]))
  }

  function ParseQuota(raw: RawQuota): Option<Quota> {
    var waves := OrElse(raw.maxWaves, 256);
    var attempts := OrElse(raw.maxTotalAttempts, 1024);
    var runtime := OrElse(raw.maxRuntimeMs, 7 * 24 * 60 * 60 * 1000);
    if 1 <= waves <= 10000 && 1 <= attempts <= 100000 && 1000 <= runtime <= 2592000000
    then Some(Quota(waves, attempts, runtime, 0, 0, 0))
    else None
  }

  /** What dependency validation accepts: references exist and form no cycle. */
  ghost predicate Acceptable(deps: Deps) {
    Closed(deps) && exists rank :: Ranked(deps, rank)
  }

  /** The graph a create call stores, if it accepts its input. */
  ghost function Create(raws: seq<RawNode>, quota: RawQuota, createdAt: int, disk: Disk): Option<Graph> {
    if !(1 <= |raws| <= 64) || ParseNodes(raws, disk).None? || ParseQuota(quota).None? then None
    else
      var (order, parsed) := ParseNodes(raws, disk).value;
      var g := Graph(order, map n | n in parsed :: parsed[n].(readySince := Some(createdAt)), 0, 0, ParseQuota(quota).value, false);
      if Acceptable(DepsOf(g)) then Some(g) else None
  }

  /** The node loop of _parse_nodes. */
  method NodesFromInput(raws: seq<RawNode>, disk: Disk) returns (r: Option<(seq<NodeId>, map<NodeId, Node>)>)
    ensures r == ParseNodes(raws, disk)
    ensures r.Some? ==> forall n :: n in r.value.0 <==> n in r.value.1
  {
    hide ParseNode, Strip;
    var order: seq<NodeId> := [];
    var nodes: map<NodeId, Node> := map[];
    for i := 0 to |raws|
      invariant ParseNodes(raws[..i], disk) == Some((order, nodes))
      invariant forall n :: n in order <==> n in nodes
    {
      assert raws[..i + 1][..i] == raws[..i];
      var node := ParseNode(raws[i], disk);
      var id := Strip(raws[i].id);
      if node.None? || id in nodes {
        ParseNodesFails(raws, disk, i + 1);
        return None;
      }
      order, nodes := order + [id], nodes[id := node.value];
    }
    assert raws[..|raws|] == raws;
    return Some((order, nodes));
  }

  method CreateGraph(raws: seq<RawNode>, quota: RawQuota, createdAt: int, disk: Disk) returns (g: Option<Graph>)
    ensures g == Create(raws, quota, createdAt, disk)
  {
    hide ParseNodes, ParseQuota, Acceptable;
    if !(1 <= |raws| <= 64) {
      return None;
    }
    var parsed := NodesFromInput(raws, disk);
    var limits := ParseQuota(quota);
    if parsed.None? || limits.None? {
      return None;
    }
    var (order, nodes) := parsed.value;
    g := Some(Graph(order, map n | n in nodes :: nodes[n].(readySince := Some(createdAt)), 0, 0, limits.value, false));
    var valid := Acceptability(order, DepsOf(g.value));
    if !valid {
      return None;
    }
  }

  lemma {:induction false} RankedExactly(deps: Deps)
    ensures Acceptable(deps) ==> Closed(deps) && Acyclic(deps)
  {
    if Acceptable(deps) {
      var rank :| Ranked(deps, rank);
      RankedMeansAcyclic(deps, rank);
    }
  }

  lemma {:induction false} ParseNodesFails(raws: seq<RawNode>, disk: Disk, i: nat)
    requires i <= |raws| && ParseNodes(raws[..i], disk).None?
    ensures ParseNodes(raws, disk).None?
    decreases |raws|
  {
    if i < |raws| {
      assert raws[..|raws| - 1][..i] == raws[..i];
      ParseNodesFails(raws[..|raws| - 1], disk, i);
    } else {
      assert raws[..i] == raws;
    }
  }

  /*------------------------------ well-formed fields ---------------------------*/

  predicate NonBlank(s: string) {
    s != "" && !IsSpace(s[0])
  }

  predicate FieldsOk(node: Node) {
    && NonBlank(node.title) && NonBlank(node.prompt) && node.effectState != ""
    && -100 <= node.priority <= 100 && 1 <= node.maxAttempts <= 10
  }

  predicate QuotaOk(q: Quota) {
    && 1 <= q.maxWaves <= 10000 && 1 <= q.maxTotalAttempts <= 100000
    && 1000 <= q.maxRuntimeMs <= 2592000000
  }

  ghost predicate Storable(g: Graph) {
    QuotaOk(g.quota) && forall n :: n in g.nodes ==> ValidNodeId(n) && FieldsOk(g.nodes[n])
  }

  /** Text that restoring leaves as it is. */
  ghost predicate StableText(node: Node) {
    && Trimmed(node.title) && Trimmed(node.prompt)
    && CleanEntries(node.evidenceRefs) && CleanEntries(node.declaredScopes)
  }

  ghost predicate TextStable(g: Graph) {
    forall n :: n in g.nodes ==> StableText(g.nodes[n])
  }

  /** The declared scopes mean on this disk what they meant when the node was made. */
  predicate StableScopes(node: Node, disk: Disk) {
    DeclaredWriteScopes(disk, node.declaredScopes) == Some(node.writeScopes)
  }

  ghost predicate ScopesStable(g: Graph, disk: Disk) {
    forall n :: n in g.nodes ==> StableScopes(g.nodes[n], disk)
  }

  /*--------------------------- snapshot and restore ---------------------------*/

  datatype NodeSnapshot = NodeSnapshot(
    nodeId: string, title: string, prompt: string, dependsOn: seq<string>, priority: int, deadline: Option<int>,
    retryMode: string, maxAttempts: int, declaredScopes: Option<seq<string>>, writeScopes: seq<WriteScope>,
    evidenceRefs: seq<string>, status: string,
    attempts: int, result: string, error: string, failureKind: string, effectState: string, dispatchCount: int,
    dispatchSequence: int, readySince: Option<int>, durationMs: int, recoveryState: string)

  datatype GraphSnapshot = GraphSnapshot(nodes: seq<NodeSnapshot>, schedulerSequence: int, version: int,
                                         quota: RawQuota, usedWaves: int, usedAttempts: int, usedRuntimeMs: int,
                                         paused: bool)

  function StatusName(s: Status): string {
    match s
    case Pending => "pending"
    case Running => "running"
    case Completed => "completed"
    case Failed => "failed"
    case Blocked => "blocked"
  }

  /** A missing status reads as pending, an unknown one as failed. */
  function StatusOf(s: string): Status {
    if s == "" || s == "pending" then Pending
    else if s == "running" then Running
    else if s == "completed" then Completed
    else if s == "blocked" then Blocked
    else Failed
  }

  function SnapshotNode(n: NodeId, node: Node, recovery: string): NodeSnapshot {
    NodeSnapshot(n, node.title, node.prompt, node.dependsOn, node.priority, node.deadline,
                 if node.retrySafe then "safe" else "never", node.maxAttempts, Some(node.declaredScopes), node.writeScopes,
                 node.evidenceRefs, StatusName(node.status), node.attempts, node.result, node.error, node.failureKind, node.effectState,
                 node.dispatchCount, node.dispatchSequence, node.readySince, node.durationMs, recovery)
  }

  /** The checkpoint; recovery is what the recovering process adds per node. */
  function Snapshot(g: Graph, recovery: NodeId -> string): GraphSnapshot
    requires forall n :: n in g.order ==> n in g.nodes
  {
    GraphSnapshot(seq(|g.order|, i requires 0 <= i < |g.order| => SnapshotNode(g.order[i], g.nodes[g.order[i]], recovery(g.order[i]))),
                  g.schedulerSequence, g.version,
                  RawQuota(g.quota.maxWaves, g.quota.maxTotalAttempts, g.quota.maxRuntimeMs),
                  g.quota.usedWaves, g.quota.usedAttempts, g.quota.usedRuntimeMs, g.quotaExhausted)
  }

  function AtLeastZero(x: int): nat {
    if x < 0 then 0 else x
  }

  /** How a node found in this status comes back. */
  function Recovered(node: Node, recovery: string): Node {
    if node.status in {Pending, Running} && node.prompt == "" then
      node.(status := Failed, failureKind := "workflow_restore_incomplete", error := "历史工作流快照缺少节点 prompt，无法安全恢复执行")
    else if node.status == Running then
      if recovery == "completed" then node.(status := Completed, effectState := "committed")
      else if recovery == "safe_to_retry" then
        node.(status := Pending, effectState := "not_started", failureKind := "", error := "")
      else
        node.(status := Failed, effectState := "unknown", failureKind := "workflow_recovery_requires_verification",
              error := "节点在上次进程退出时仍在运行，已有副作用状态无法确认；请核验后显式重新排队")
    else node
  }

  /** Older snapshots list the scopes only; they are written back as declarations. */
  function DeclaredFrom(scopes: seq<WriteScope>): seq<string> {
    if scopes == [] then []
    else (if scopes[0].path == "" then [] else [scopes[0].path + if scopes[0].recursive then "/**" else ""])
         + DeclaredFrom(scopes[1..])
  }

  function DeclaredOf(raw: NodeSnapshot): seq<string> {
    match raw.declaredScopes
    case Some(values) => CleanList(values)
    case None => DeclaredFrom(raw.writeScopes)
  }

  function RestoreNode(raw: NodeSnapshot, disk: Disk): Option<Node> {
    var declared := DeclaredOf(raw);
    var scopes := DeclaredWriteScopes(disk, declared);
    if !ValidNodeId(Strip(raw.nodeId)) || Strip(raw.title) == "" || scopes.None? then None
    else
      Some(Recovered(
        Node(Strip(raw.title), Strip(raw.prompt), CleanList(raw.dependsOn), Clamp(raw.priority, -100, 100),
             raw.deadline, Clamp(OrElse(raw.maxAttempts, 1), 1, 10), raw.retryMode == "safe", declared,
             scopes.value, CleanList(raw.evidenceRefs), StatusOf(raw.status), AtLeastZero(raw.attempts), raw.result, raw.error,
             raw.failureKind, if raw.effectState == "" then "not_started" else raw.effectState,
             AtLeastZero(raw.dispatchCount), AtLeastZero(raw.dispatchSequence), raw.readySince,
             AtLeastZero(raw.durationMs)),
        raw.recoveryState))
  }

  /** Dictionary building: a repeated id overwrites the earlier entry in place. */
  function RestoreNodes(raws: seq<NodeSnapshot>, disk: Disk): Option<(seq<NodeId>, map<NodeId, Node>)> {
    if raws == [] then Some(([], map[]))
    else
      var last := raws[|raws| - 1];
      var init := RestoreNodes(raws[..|raws| - 1], disk);
      var id := Strip(last.nodeId);
      if init.None? || RestoreNode(last, disk).None? then None
      else Some((if id in init.value.1 then init.value.0 else init.value.0 + [id],
                 init.value.1[id := RestoreNode(last, disk).value]))
  }

  function RestoredGraph(s: GraphSnapshot, disk: Disk): Option<Graph> {
    var nodes := RestoreNodes(s.nodes, disk);
    var quota := ParseQuota(s.quota);
    if nodes.None? || quota.None? then None
    else
      Some(Graph(nodes.value.0, nodes.value.1, AtLeastZero(s.schedulerSequence), AtLeastZero(s.version),
                 quota.value.(usedWaves := AtLeastZero(s.usedWaves), usedAttempts := AtLeastZero(s.usedAttempts),
                              usedRuntimeMs := AtLeastZero(s.usedRuntimeMs)),
                 s.paused))
  }

  /** Accepts the snapshot when its dependencies exist and form no cycle. */
  ghost function Restore(s: GraphSnapshot, disk: Disk): Option<Graph> {
    var g := RestoredGraph(s, disk);
    if g.Some? && Acceptable(DepsOf(g.value)) then g else None
  }

  /** The node loop of _graph_from_snapshot. */
  method NodesFromSnapshot(raws: seq<NodeSnapshot>, disk: Disk) returns (r: Option<(seq<NodeId>, map<NodeId, Node>)>)
    ensures r == RestoreNodes(raws, disk)
    ensures r.Some? ==> forall n :: n in r.value.0 <==> n in r.value.1
  {
    hide RestoreNode, Strip;
    var order: seq<NodeId> := [];
    var nodes: map<NodeId, Node> := map[];
    for i := 0 to |raws|
      invariant RestoreNodes(raws[..i], disk) == Some((order, nodes))
      invariant forall n :: n in order <==> n in nodes
    {
      assert raws[..i + 1][..i] == raws[..i];
      var node := RestoreNode(raws[i], disk);
      if node.None? {
        RestoreNodesFails(raws, disk, i + 1);
        return None;
      }
      var id := Strip(raws[i].nodeId);
      if id !in nodes {
        order := order + [id];
      }
      nodes := nodes[id := node.value];
    }
    assert raws[..|raws|] == raws;
    return Some((order, nodes));
  }

  /** _graph_from_snapshot: rebuild the nodes, then check their dependencies. */
  method GraphFromSnapshot(s: GraphSnapshot, disk: Disk) returns (g: Option<Graph>)
    ensures g == Restore(s, disk)
  {
    hide RestoreNodes, ParseQuota, Acceptable;
    var nodes := NodesFromSnapshot(s.nodes, disk);
    var quota := ParseQuota(s.quota);
    if nodes.None? || quota.None? {
      return None;
    }
    g := Some(Graph(nodes.value.0, nodes.value.1, AtLeastZero(s.schedulerSequence), AtLeastZero(s.version),
                    quota.value.(usedWaves := AtLeastZero(s.usedWaves), usedAttempts := AtLeastZero(s.usedAttempts),
                                 usedRuntimeMs := AtLeastZero(s.usedRuntimeMs)),
                    s.paused));
    var valid := Acceptability(g.value.order, DepsOf(g.value));
    if !valid {
      return None;
    }
  }

  method Acceptability(order: seq<NodeId>, deps: Deps) returns (ok: bool)
    requires forall n :: n in order <==> n in deps
    ensures ok <==> Acceptable(deps)
  {
    var valid := ValidateDependencies(order, deps);
    RankedExactly(deps);
    ok := valid.Ok?;
  }

  lemma {:induction false} RestoreNodesFails(raws: seq<NodeSnapshot>, disk: Disk, i: nat)
    requires i <= |raws| && RestoreNodes(raws[..i], disk).None?
    ensures RestoreNodes(raws, disk).None?
    decreases |raws|
  {
    if i < |raws| {
      assert raws[..|raws| - 1][..i] == raws[..i];
      RestoreNodesFails(raws[..|raws| - 1], disk, i);
    } else {
      assert raws[..i] == raws;
    }
  }
}
