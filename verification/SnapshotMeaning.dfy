/** Which input a workflow is created from, and which snapshot it is restored from, said of
    the fields of its nodes (agent/app/subagent/workflow.py, _parse_nodes, _parse_quota,
    _graph_from_snapshot). */
module SnapshotMeaning {
  import opened Ordering
  import opened Text
  import opened Scopes
  import opened DeclaredScopes
  import opened Dag
  import opened Workflow
  import opened WorkflowSnapshot

  /*------------------------------------ lists ----------------------------------*/

  /** kept are the entries that are not blank, in order. */
  ghost predicate NotBlankIn(entries: seq<string>, kept: seq<string>) {
    exists places: seq<nat> ::
      StandsAt(entries, kept, places) && forall k: nat :: k in places <==> k < |entries| && !OnlyBlanks(entries[k])
  }

  ghost predicate Strips(kept: seq<string>, cleaned: seq<string>) {
    |cleaned| == |kept| && forall i :: 0 <= i < |kept| ==> cleaned[i] == Strip(kept[i])
  }

  /** cleaned are the entries that are not blank, stripped, in order. */
  ghost predicate Cleans(entries: seq<string>, cleaned: seq<string>) {
    exists kept: seq<string> :: NotBlankIn(entries, kept) && Strips(kept, cleaned)
  }

  lemma {:induction false} KeptPlaces(entries: seq<string>) returns (places: seq<nat>)
    ensures StandsAt(entries, Filter(entries, s => Strip(s) != ""), places)
    ensures forall k: nat :: k in places <==> k < |entries| && !OnlyBlanks(entries[k])
  {
    places := FilterPlaces(entries, s => Strip(s) != "");
    hide Filter, StandsAt, OnlyBlanks, Strip;
    forall k: nat
      ensures k in places <==> k < |entries| && !OnlyBlanks(entries[k])
    {
      if k < |entries| {
        StripBlank(entries[k]);
      }
    }
  }

  lemma {:induction false} CleanIsFiltered(entries: seq<string>)
    ensures |CleanList(entries)| == |Filter(entries, s => Strip(s) != "")|
    ensures forall i :: 0 <= i < |CleanList(entries)| ==> CleanList(entries)[i] == Strip(Filter(entries, s => Strip(s) != "")[i])
  {
    if entries != [] {
      CleanIsFiltered(entries[1..]);
    }
  }

  lemma {:induction false} CleanListExact(entries: seq<string>)
    ensures Cleans(entries, CleanList(entries))
  {
    var places := KeptPlaces(entries);
    CleanIsFiltered(entries);
    hide CleanList, Filter, Strip, OnlyBlanks, StandsAt;
    assert NotBlankIn(entries, Filter(entries, s => Strip(s) != ""));
  }

  /** The first 50 entries, each cut at 1000 characters. */
  ghost predicate Kept(entries: seq<string>, kept: seq<string>) {
    && |kept| == Min(50, |entries|)
    && forall i :: 0 <= i < |kept| ==> kept[i] == FirstChars(entries[i], 1000)
  }

  function FirstChars(s: string, n: nat): string {
    if n < |s| then s[..n] else s
  }

  lemma {:induction false} KeptExact(entries: seq<string>)
    ensures Kept(entries, TakeFirst(CutEntries(entries), 50))
  {
  }

  /*----------------------------------- creation --------------------------------*/

  predicate Alphanumeric(c: char) {
    'a' <= c <= 'z' || 'A' <= c <= 'Z' || '0' <= c <= '9'
  }

  /** At most 80 letters, digits, dots, underscores and hyphens, the first a letter or digit. */
  ghost predicate NodeIdText(s: string) {
    && 1 <= |s| <= 80 && Alphanumeric(s[0])
    && forall i :: 0 <= i < |s| ==> Alphanumeric(s[i]) || s[i] == '.' || s[i] == '_' || s[i] == '-'
  }

  lemma {:induction false} NodeIdExact(s: string)
    ensures ValidNodeId(s) <==> NodeIdText(s)
  {
  }

  /** A node that is accepted by itself. */
  ghost predicate GoodInput(raw: RawNode, disk: Disk) {
    && NodeIdText(Strip(raw.id)) && !OnlyBlanks(raw.title) && !OnlyBlanks(raw.prompt)
    && (raw.retryMode == "" || raw.retryMode == "never" || raw.retryMode == "safe")
    && (raw.maxAttempts == 0 || 1 <= raw.maxAttempts <= 10)
    && DeclaredWriteScopes(disk, CleanList(raw.writeScopes)).Some?
  }

  /** The node such an input becomes. */
  ghost predicate MadeFrom(raw: RawNode, disk: Disk, readySince: Option<int>, node: Node) {
    && node.title == FirstChars(Strip(raw.title), 120) && node.prompt == FirstChars(Strip(raw.prompt), 20000)
    && node.priority == Max(-100, Min(100, raw.priority)) && node.deadline == raw.deadline
    && node.maxAttempts == (if raw.maxAttempts == 0 then 1 else raw.maxAttempts)
    && (node.retrySafe <==> raw.retryMode == "safe")
    && (exists ids :: && Cleans(raw.dependsOn, ids) && Distinct(node.dependsOn)
                      && forall id :: id in node.dependsOn <==> id in ids)
    && Cleans(raw.writeScopes, node.declaredScopes)
    && DeclaredWriteScopes(disk, node.declaredScopes) == Some(node.writeScopes)
    && (exists refs :: Cleans(raw.evidenceRefs, refs) && Kept(refs, node.evidenceRefs))
    && Untouched(node) && node.readySince == readySince
  }

  /** Nothing has been done yet. */
  predicate Untouched(node: Node) {
    && node.status == Pending && node.attempts == 0 && node.result == "" && node.error == "" && node.failureKind == ""
    && node.effectState == "not_started" && node.dispatchCount == 0 && node.dispatchSequence == 0 && node.durationMs == 0
  }

  lemma {:induction false} InputExact(raw: RawNode, disk: Disk)
    ensures ParseNode(raw, disk).Some? <==> GoodInput(raw, disk)
  {
    NodeIdExact(Strip(raw.id));
    StripBlank(raw.title);
    StripBlank(raw.prompt);
    hide Strip, OnlyBlanks, NodeIdText, ValidNodeId, CleanList, DeclaredWriteScopes, CutEntries, TakeFirst;
  }

  lemma {:induction false} MadeExact(raw: RawNode, disk: Disk, readySince: Option<int>)
    requires ParseNode(raw, disk).Some?
    ensures MadeFrom(raw, disk, readySince, ParseNode(raw, disk).value.(readySince := readySince))
  {
    CleanListExact(raw.dependsOn);
    CleanListExact(raw.writeScopes);
    CleanListExact(raw.evidenceRefs);
    KeptExact(CleanList(raw.evidenceRefs));
    UniqueDistinct(CleanList(raw.dependsOn));
    hide Strip, CleanList, Cleans, Kept, DeclaredWriteScopes, CutEntries, TakeFirst, ValidNodeId, Distinct;
    var ids := CleanList(raw.dependsOn);
    assert forall id :: id in Unique(ids) <==> id in ids;
    hide Unique;
  }

  /** No two of the inputs have one id. */
  ghost predicate OwnIds(raws: seq<RawNode>) {
    forall i, j :: 0 <= i < j < |raws| ==> Strip(raws[i].id) != Strip(raws[j].id)
  }

  /** Input by input, the nodes and their order. */
  ghost predicate Parsed(raws: seq<RawNode>, disk: Disk, order: seq<NodeId>, nodes: map<NodeId, Node>) {
    && |order| == |raws| && (forall n :: n in nodes <==> n in order)
    && forall i :: 0 <= i < |raws| ==>
         order[i] == Strip(raws[i].id) && order[i] in nodes && Some(nodes[order[i]]) == ParseNode(raws[i], disk)
  }

  lemma {:induction false} AllParsed(raws: seq<RawNode>, disk: Disk)
    ensures ParseNodes(raws, disk).Some? <==> OwnIds(raws) && forall i :: 0 <= i < |raws| ==> ParseNode(raws[i], disk).Some?
    ensures ParseNodes(raws, disk).Some? ==>
              Parsed(raws, disk, ParseNodes(raws, disk).value.0, ParseNodes(raws, disk).value.1)
  {
    hide ParseNode, Strip;
    if raws != [] {
      var n := |raws| - 1;
      var front, last := raws[..n], raws[n];
      AllParsed(front, disk);
      OneIdMore(front, last);
      assert raws == front + [last];
      if ParseNodes(front, disk).Some? {
        var (order, nodes) := ParseNodes(front, disk).value;
        IdTaken(front, disk, order, nodes, Strip(last.id));
      }
      hide OwnIds;
    }
  }

  lemma {:induction false} OneIdMore(raws: seq<RawNode>, last: RawNode)
    ensures OwnIds(raws + [last]) <==> OwnIds(raws) && forall i :: 0 <= i < |raws| ==> Strip(raws[i].id) != Strip(last.id)
  {
    hide Strip;
    var more := raws + [last];
    if OwnIds(more) {
      forall i, j | 0 <= i < j < |raws|
        ensures Strip(raws[i].id) != Strip(raws[j].id)
      {
        assert Strip(more[i].id) != Strip(more[j].id);
      }
      forall i | 0 <= i < |raws|
        ensures Strip(raws[i].id) != Strip(last.id)
      {
        assert Strip(more[i].id) != Strip(more[|raws|].id);
      }
    }
  }

  lemma {:induction false} IdTaken(raws: seq<RawNode>, disk: Disk, order: seq<NodeId>, nodes: map<NodeId, Node>, id: NodeId)
    requires Parsed(raws, disk, order, nodes)
    ensures id in nodes <==> exists i :: 0 <= i < |raws| && Strip(raws[i].id) == id
  {
    hide Strip, ParseNode;
    if id in nodes {
      var i :| 0 <= i < |order| && order[i] == id;
    }
    if i :| 0 <= i < |raws| && Strip(raws[i].id) == id {
      assert order[i] in order;
    }
  }

  /** The budgets asked for, or 256 waves, 1024 attempts and seven days where none is. */
  predicate Budgets(raw: RawQuota, q: Quota) {
    && q.maxWaves == (if raw.maxWaves == 0 then 256 else raw.maxWaves) && 1 <= q.maxWaves <= 10000
    && q.maxTotalAttempts == (if raw.maxTotalAttempts == 0 then 1024 else raw.maxTotalAttempts)
    && 1 <= q.maxTotalAttempts <= 100000
    && q.maxRuntimeMs == (if raw.maxRuntimeMs == 0 then 604800000 else raw.maxRuntimeMs)
    && 1000 <= q.maxRuntimeMs <= 2592000000
  }

  lemma {:induction false} BudgetsExact(raw: RawQuota)
    ensures ParseQuota(raw).Some? <==> exists q :: Budgets(raw, q)
    ensures ParseQuota(raw).Some? ==>
              var q := ParseQuota(raw).value;
              Budgets(raw, q) && q.usedWaves == q.usedAttempts == q.usedRuntimeMs == 0
  {
    if ParseQuota(raw).Some? {
      assert Budgets(raw, ParseQuota(raw).value);
    }
  }

  /** Every dependency is a node, and some numbering of the nodes falls along all of them. */
  ghost predicate Layered(g: Graph) {
    && (forall n, d :: n in g.nodes && d in g.nodes[n].dependsOn ==> d in g.nodes)
    && exists rank: map<NodeId, nat> :: RanksFall(g, rank)
  }

  ghost predicate RanksFall(g: Graph, rank: map<NodeId, nat>) {
    && rank.Keys == g.nodes.Keys
    && forall n, d :: n in g.nodes && d in g.nodes[n].dependsOn ==> d in rank && rank[d] < rank[n]
  }

  lemma {:induction false} LayeredExact(g: Graph)
    ensures Acceptable(DepsOf(g)) <==> Layered(g)
  {
    if Acceptable(DepsOf(g)) {
      var rank :| Ranked(DepsOf(g), rank);
      forall n, d | n in g.nodes && d in g.nodes[n].dependsOn
        ensures d in g.nodes && n in rank && d in rank && rank[d] < rank[n]
      {
        assert n in DepsOf(g) && d in DepsOf(g)[n];
        assert d in DepsOf(g);
      }
      assert RanksFall(g, rank);
    }
    if Layered(g) {
      var rank :| RanksFall(g, rank);
      assert Ranked(DepsOf(g), rank);
    }
  }

  /** A create call is accepted exactly for 1 to 64 good inputs with ids of their own, budgets
      within bounds and dependencies that are nodes and form no cycle. */
  lemma {:induction false} CreateExact(raws: seq<RawNode>, quota: RawQuota, createdAt: int, disk: Disk)
    ensures Create(raws, quota, createdAt, disk).Some? <==>
              && 1 <= |raws| <= 64 && OwnIds(raws) && (forall i :: 0 <= i < |raws| ==> GoodInput(raws[i], disk))
              && (exists q :: Budgets(quota, q))
              && exists g :: GraphOf(raws, createdAt, disk, g) && Layered(g)
    ensures Create(raws, quota, createdAt, disk).Some? ==>
              var g := Create(raws, quota, createdAt, disk).value;
              && GraphOf(raws, createdAt, disk, g) && Layered(g) && Budgets(quota, g.quota)
              && g.quota.usedWaves == g.quota.usedAttempts == g.quota.usedRuntimeMs == 0
              && g.schedulerSequence == g.version == 0 && !g.quotaExhausted
  {
    BudgetsExact(quota);
    InputsExact(raws, disk);
    hide ParseNode, ParseNodes, ParseQuota, GoodInput, OwnIds, Budgets, Acceptable, GraphOf, Layered, Strip;
    if ParseNodes(raws, disk).Some? && ParseQuota(quota).Some? {
      var (order, parsed) := ParseNodes(raws, disk).value;
      var g := Graph(order, map n | n in parsed :: parsed[n].(readySince := Some(createdAt)), 0, 0,
                     ParseQuota(quota).value, false);
      AnyGraph(raws, createdAt, disk, g);
      LayeredExact(g);
    }
  }

  lemma {:induction false} InputsExact(raws: seq<RawNode>, disk: Disk)
    ensures ParseNodes(raws, disk).Some? <==> OwnIds(raws) && forall i :: 0 <= i < |raws| ==> GoodInput(raws[i], disk)
  {
    AllParsed(raws, disk);
    hide ParseNode, ParseNodes, GoodInput, OwnIds, Parsed;
    forall i | 0 <= i < |raws|
      ensures ParseNode(raws[i], disk).Some? <==> GoodInput(raws[i], disk)
    {
      InputExact(raws[i], disk);
    }
  }

  lemma {:induction false} AnyGraph(raws: seq<RawNode>, createdAt: int, disk: Disk, g: Graph)
    requires ParseNodes(raws, disk).Some? && g.order == ParseNodes(raws, disk).value.0
    requires var parsed := ParseNodes(raws, disk).value.1; g.nodes == map n | n in parsed :: parsed[n].(readySince := Some(createdAt))
    ensures GraphOf(raws, createdAt, disk, g)
    ensures Layered(g) <==> exists h :: GraphOf(raws, createdAt, disk, h) && Layered(h)
  {
    AllParsed(raws, disk);
    hide ParseNode, ParseNodes, Parsed, GraphOf, Layered;
    ParsedGraph(raws, createdAt, disk, g.order, ParseNodes(raws, disk).value.1, g);
    forall h | GraphOf(raws, createdAt, disk, h)
      ensures Layered(h) <==> Layered(g)
    {
      SameGraph(raws, createdAt, disk, g, h);
    }
  }

  /** The nodes of the graph are made from the inputs, in their order. */
  ghost predicate GraphOf(raws: seq<RawNode>, createdAt: int, disk: Disk, g: Graph) {
    && |g.order| == |raws| && (forall n :: n in g.nodes <==> n in g.order)
    && forall i :: 0 <= i < |raws| ==>
         && g.order[i] == Strip(raws[i].id) && g.order[i] in g.nodes
         && MadeFrom(raws[i], disk, Some(createdAt), g.nodes[g.order[i]])
  }

  lemma {:induction false} ParsedGraph(raws: seq<RawNode>, createdAt: int, disk: Disk, order: seq<NodeId>,
          parsed: map<NodeId, Node>, g: Graph)
    requires Parsed(raws, disk, order, parsed)
    requires g.order == order && g.nodes == map n | n in parsed :: parsed[n].(readySince := Some(createdAt))
    ensures GraphOf(raws, createdAt, disk, g)
  {
    hide ParseNode, MadeFrom, Strip;
    forall i | 0 <= i < |raws|
      ensures g.order[i] in g.nodes && MadeFrom(raws[i], disk, Some(createdAt), g.nodes[g.order[i]])
    {
      MadeExact(raws[i], disk, Some(createdAt));
    }
  }

  /** What the inputs say about dependencies decides whether there is a numbering. */
  lemma {:induction false} SameGraph(raws: seq<RawNode>, createdAt: int, disk: Disk, g: Graph, h: Graph)
    requires GraphOf(raws, createdAt, disk, g) && GraphOf(raws, createdAt, disk, h)
    ensures Layered(g) <==> Layered(h)
  {
    hide Strip, MadeFrom, Layered, SameNeed;
    assert g.order == h.order;
    assert g.nodes.Keys == h.nodes.Keys;
    forall n | n in g.nodes
      ensures n in h.nodes && SameNeed(g.nodes[n], h.nodes[n])
    {
      var i :| 0 <= i < |g.order| && g.order[i] == n;
      SameNeeds(raws[i], disk, Some(createdAt), g.nodes[n], h.nodes[n]);
    }
    hide GraphOf;
    SameLayers(g, h);
  }

  ghost predicate SameNeed(a: Node, b: Node) {
    forall d :: d in a.dependsOn <==> d in b.dependsOn
  }

  lemma {:induction false} SameLayers(g: Graph, h: Graph)
    requires g.nodes.Keys == h.nodes.Keys && forall n :: n in g.nodes ==> SameNeed(g.nodes[n], h.nodes[n])
    ensures Layered(g) <==> Layered(h)
  {
    forall rank: map<NodeId, nat>
      ensures RanksFall(g, rank) <==> RanksFall(h, rank)
    {
      SameFall(g, h, rank);
    }
    hide RanksFall;
    forall n, d
      ensures n in g.nodes && d in g.nodes[n].dependsOn <==> n in h.nodes && d in h.nodes[n].dependsOn
    {
      assert n in g.nodes ==> SameNeed(g.nodes[n], h.nodes[n]);
    }
    hide SameNeed;
  }

  lemma {:induction false} SameFall(g: Graph, h: Graph, rank: map<NodeId, nat>)
    requires g.nodes.Keys == h.nodes.Keys && forall n :: n in g.nodes ==> SameNeed(g.nodes[n], h.nodes[n])
    ensures RanksFall(g, rank) <==> RanksFall(h, rank)
  {
    forall n, d
      ensures n in g.nodes && d in g.nodes[n].dependsOn <==> n in h.nodes && d in h.nodes[n].dependsOn
    {
      assert n in g.nodes ==> SameNeed(g.nodes[n], h.nodes[n]);
    }
    hide SameNeed;
  }

  lemma {:induction false} SameNeeds(raw: RawNode, disk: Disk, readySince: Option<int>, a: Node, b: Node)
    requires MadeFrom(raw, disk, readySince, a) && MadeFrom(raw, disk, readySince, b)
    ensures SameNeed(a, b)
  {
    hide Cleans, Kept, DeclaredWriteScopes, Distinct, Strip;
    var one :| Cleans(raw.dependsOn, one) && forall id :: id in a.dependsOn <==> id in one;
    var two :| Cleans(raw.dependsOn, two) && forall id :: id in b.dependsOn <==> id in two;
    CleansOnce(raw.dependsOn, one, two);
  }

  /*---------------------------------- restoring --------------------------------*/

  /** The status written in a snapshot; none is pending and an unknown one is failed. */
  predicate Stands(text: string, s: Status) {
    match s
    case Pending => text == "" || text == "pending"
    case Running => text == "running"
    case Completed => text == "completed"
    case Blocked => text == "blocked"
    case Failed => text !in {"", "pending", "running", "completed", "blocked"}
  }

  /** A node entry that can be read. */
  ghost predicate GoodEntry(raw: NodeSnapshot, disk: Disk) {
    && NodeIdText(Strip(raw.nodeId)) && !OnlyBlanks(raw.title)
    && exists declared :: Declared(raw, declared) && DeclaredWriteScopes(disk, declared).Some?
  }

  /** named are the scopes with a path, in order. */
  ghost predicate WithPaths(scopes: seq<WriteScope>, named: seq<WriteScope>) {
    exists places: seq<nat> ::
      StandsAt(scopes, named, places) && forall k: nat :: k in places <==> k < |scopes| && scopes[k].path != ""
  }

  ghost predicate Written(named: seq<WriteScope>, declared: seq<string>) {
    && |declared| == |named|
    && forall i :: 0 <= i < |named| ==> declared[i] == named[i].path + if named[i].recursive then "/**" else ""
  }

  /** The declarations of an entry: its own list, or one for each stored scope with a path. */
  ghost predicate Declared(raw: NodeSnapshot, declared: seq<string>) {
    match raw.declaredScopes
    case Some(values) => Cleans(values, declared)
    case None => exists named: seq<WriteScope> :: WithPaths(raw.writeScopes, named) && Written(named, declared)
  }

  /** The node a readable entry comes back as. One that was pending or running without a
      prompt has failed; one that was running is settled by the verdict. */
  ghost predicate BackFrom(raw: NodeSnapshot, disk: Disk, node: Node) {
    FieldsBack(raw, disk, node) && Outcome4(raw, node)
  }

  /** All fields that do not depend on how the last process ended. */
  ghost predicate FieldsBack(raw: NodeSnapshot, disk: Disk, node: Node) {
    && node.title == Strip(raw.title) && node.prompt == Strip(raw.prompt)
    && Cleans(raw.dependsOn, node.dependsOn) && Cleans(raw.evidenceRefs, node.evidenceRefs)
    && node.priority == Max(-100, Min(100, raw.priority)) && node.deadline == raw.deadline
    && node.maxAttempts == (if raw.maxAttempts == 0 then 1 else Max(1, Min(10, raw.maxAttempts)))
    && (node.retrySafe <==> raw.retryMode == "safe")
    && Declared(raw, node.declaredScopes) && DeclaredWriteScopes(disk, node.declaredScopes) == Some(node.writeScopes)
    && node.attempts == Max(0, raw.attempts) && node.result == raw.result
    && node.dispatchCount == Max(0, raw.dispatchCount) && node.dispatchSequence == Max(0, raw.dispatchSequence)
    && node.durationMs == Max(0, raw.durationMs) && node.readySince == raw.readySince
  }

  /** Status, error, failure kind and effect state. */
  ghost predicate Outcome4(raw: NodeSnapshot, node: Node) {
    var effect := if raw.effectState == "" then "not_started" else raw.effectState;
    if (Stands(raw.status, Pending) || Stands(raw.status, Running)) && OnlyBlanks(raw.prompt) then
      && node.status == Failed && node.failureKind == "workflow_restore_incomplete"
      && node.error == "历史工作流快照缺少节点 prompt，无法安全恢复执行" && node.effectState == effect
    else if Stands(raw.status, Running) && raw.recoveryState == "completed" then
      && node.status == Completed && node.effectState == "committed"
      && node.error == raw.error && node.failureKind == raw.failureKind
    else if Stands(raw.status, Running) && raw.recoveryState == "safe_to_retry" then
      && node.status == Pending && node.effectState == "not_started" && node.error == "" && node.failureKind == ""
    else if Stands(raw.status, Running) then
      && node.status == Failed && node.effectState == "unknown"
      && node.failureKind == "workflow_recovery_requires_verification"
      && node.error == "节点在上次进程退出时仍在运行，已有副作用状态无法确认；请核验后显式重新排队"
    else
      && Stands(raw.status, node.status) && node.effectState == effect
      && node.error == raw.error && node.failureKind == raw.failureKind
  }

  lemma {:induction false} StatusExact(text: string, s: Status)
    ensures StatusOf(text) == s <==> Stands(text, s)
  {
  }

  lemma {:induction false} DeclaredFromFiltered(scopes: seq<WriteScope>)
    ensures Written(Filter(scopes, (s: WriteScope) => s.path != ""), DeclaredFrom(scopes))
  {
    if scopes != [] {
      var named, declared := Filter(scopes[1..], (s: WriteScope) => s.path != ""), DeclaredFrom(scopes[1..]);
      DeclaredFromFiltered(scopes[1..]);
      hide Written;
      WrittenFirst(scopes[0], named, declared);
      assert [] + declared == declared;
    } else {
      assert Written([], []);
    }
  }

  lemma {:induction false} WrittenFirst(s: WriteScope, named: seq<WriteScope>, declared: seq<string>)
    requires Written(named, declared)
    ensures Written([s] + named, [s.path + if s.recursive then "/**" else ""] + declared)
  {
    forall i | 0 < i < |named| + 1
      ensures ([s] + named)[i] == named[i - 1]
    {
    }
  }

  lemma {:induction false} DeclaredExact(raw: NodeSnapshot)
    ensures Declared(raw, DeclaredOf(raw))
  {
    match raw.declaredScopes
    case Some(values) => {
      CleanListExact(values);
      hide CleanList, Cleans;
    }
    case None => {
      var places := FilterPlaces(raw.writeScopes, (s: WriteScope) => s.path != "");
      DeclaredFromFiltered(raw.writeScopes);
      hide Filter, DeclaredFrom, StandsAt, Written;
      assert WithPaths(raw.writeScopes, Filter(raw.writeScopes, (s: WriteScope) => s.path != ""));
    }
  }

  lemma {:induction false} DeclaredOnce(raw: NodeSnapshot, declared: seq<string>)
    requires Declared(raw, declared)
    ensures declared == DeclaredOf(raw)
  {
    DeclaredExact(raw);
    var own := DeclaredOf(raw);
    hide DeclaredOf;
    match raw.declaredScopes
    case Some(values) => {
      hide Cleans;
      CleansOnce(values, declared, own);
    }
    case None => {
      hide WithPaths;
      var one: seq<WriteScope> :| WithPaths(raw.writeScopes, one) && Written(one, declared);
      var two: seq<WriteScope> :| WithPaths(raw.writeScopes, two) && Written(two, own);
      PathsOnce(raw.writeScopes, one, two);
    }
  }

  lemma {:induction false} PathsOnce(scopes: seq<WriteScope>, one: seq<WriteScope>, two: seq<WriteScope>)
    requires WithPaths(scopes, one) && WithPaths(scopes, two)
    ensures one == two
  {
    var a: seq<nat> :| StandsAt(scopes, one, a) && forall k: nat :: k in a <==> k < |scopes| && scopes[k].path != "";
    var b: seq<nat> :| StandsAt(scopes, two, b) && forall k: nat :: k in b <==> k < |scopes| && scopes[k].path != "";
    SamePlaces(a, b);
  }

  lemma {:induction false} CleansOnce(entries: seq<string>, one: seq<string>, two: seq<string>)
    requires Cleans(entries, one) && Cleans(entries, two)
    ensures one == two
  {
    hide NotBlankIn, Strip;
    var k: seq<string> :| NotBlankIn(entries, k) && Strips(k, one);
    var l: seq<string> :| NotBlankIn(entries, l) && Strips(l, two);
    KeptOnce(entries, k, l);
  }

  lemma {:induction false} KeptOnce(entries: seq<string>, one: seq<string>, two: seq<string>)
    requires NotBlankIn(entries, one) && NotBlankIn(entries, two)
    ensures one == two
  {
    hide OnlyBlanks;
    var a: seq<nat> :| StandsAt(entries, one, a) && forall k: nat :: k in a <==> k < |entries| && !OnlyBlanks(entries[k]);
    var b: seq<nat> :| StandsAt(entries, two, b) && forall k: nat :: k in b <==> k < |entries| && !OnlyBlanks(entries[k]);
    SamePlaces(a, b);
  }

  /** Two ascending lists of the same numbers are one. */
  lemma {:induction false} SamePlaces(a: seq<nat>, b: seq<nat>)
    requires forall i, j :: 0 <= i < j < |a| ==> a[i] < a[j]
    requires forall i, j :: 0 <= i < j < |b| ==> b[i] < b[j]
    requires forall k: nat :: k in a <==> k in b
    ensures a == b
  {
    FirstIsMember(a);
    FirstIsMember(b);
    if a != [] {
      assert a[|a| - 1] in a && b != [];
      var m, n := |a| - 1, |b| - 1;
      assert b[n] in b;
      assert a[m] == b[n] by {
        LastIsLargest(a, b[n]);
        LastIsLargest(b, a[m]);
      }
      forall k: nat
        ensures k in a[..m] <==> k in b[..n]
      {
        InFront(a, k);
        InFront(b, k);
      }
      SamePlaces(a[..m], b[..n]);
      assert a == a[..m] + [a[m]] && b == b[..n] + [b[n]];
    }
  }

  lemma {:induction false} FirstIsMember(a: seq<nat>)
    ensures a != [] ==> a[0] in a
  {
  }

  lemma {:induction false} LastIsLargest(a: seq<nat>, k: nat)
    requires (forall i, j :: 0 <= i < j < |a| ==> a[i] < a[j]) && k in a
    ensures k <= a[|a| - 1]
  {
    var i :| 0 <= i < |a| && a[i] == k;
  }

  lemma {:induction false} InFront(a: seq<nat>, k: nat)
    requires (forall i, j :: 0 <= i < j < |a| ==> a[i] < a[j]) && a != []
    ensures k in a[..|a| - 1] <==> k in a && k != a[|a| - 1]
  {
    assert a == a[..|a| - 1] + [a[|a| - 1]];
  }

  lemma {:induction false} EntryExact(raw: NodeSnapshot, disk: Disk)
    ensures RestoreNode(raw, disk).Some? <==> GoodEntry(raw, disk)
    ensures RestoreNode(raw, disk).Some? ==> BackFrom(raw, disk, RestoreNode(raw, disk).value)
  {
    NodeIdExact(Strip(raw.nodeId));
    StripBlank(raw.title);
    DeclaredExact(raw);
    forall declared | Declared(raw, declared)
      ensures declared == DeclaredOf(raw)
    {
      DeclaredOnce(raw, declared);
    }
    if RestoreNode(raw, disk).Some? {
      BackExact(raw, disk);
    }
    hide Strip, OnlyBlanks, NodeIdText, ValidNodeId, CleanList, DeclaredWriteScopes, Declared, DeclaredOf, Recovered, BackFrom;
    hide StatusOf, Clamp;
  }

  lemma {:induction false} BackExact(raw: NodeSnapshot, disk: Disk)
    requires RestoreNode(raw, disk).Some?
    ensures BackFrom(raw, disk, RestoreNode(raw, disk).value)
  {
    var read := Read(raw, disk);
    ReadFields(raw, disk);
    RecoveredKeeps(read, raw.recoveryState);
    FieldsStay(raw, disk, read, Recovered(read, raw.recoveryState));
    hide FieldsBack, Outcome4;
    RecoveredOutcome(raw, read);
    hide Strip, CleanList, DeclaredWriteScopes, DeclaredOf, ValidNodeId, Recovered, StatusOf;
  }

  lemma {:induction false} ReadFields(raw: NodeSnapshot, disk: Disk)
    requires RestoreNode(raw, disk).Some?
    ensures FieldsBack(raw, disk, Read(raw, disk))
  {
    CleanListExact(raw.dependsOn);
    CleanListExact(raw.evidenceRefs);
    DeclaredExact(raw);
    hide Strip, CleanList, Cleans, DeclaredWriteScopes, Declared, DeclaredOf, ValidNodeId, Recovered, StatusOf;
  }

  lemma {:induction false} FieldsStay(raw: NodeSnapshot, disk: Disk, a: Node, b: Node)
    requires FieldsBack(raw, disk, a)
    requires b == a.(status := b.status, error := b.error, failureKind := b.failureKind, effectState := b.effectState)
    ensures FieldsBack(raw, disk, b)
  {
    hide Strip, Cleans, DeclaredWriteScopes, Declared;
  }

  /** The entry as it is read, before its status is judged. */
  function Read(raw: NodeSnapshot, disk: Disk): Node
    requires RestoreNode(raw, disk).Some?
  {
    Node(Strip(raw.title), Strip(raw.prompt), CleanList(raw.dependsOn), Clamp(raw.priority, -100, 100), raw.deadline,
         Clamp(OrElse(raw.maxAttempts, 1), 1, 10), raw.retryMode == "safe", DeclaredOf(raw),
         DeclaredWriteScopes(disk, DeclaredOf(raw)).value, CleanList(raw.evidenceRefs), StatusOf(raw.status),
         AtLeastZero(raw.attempts), raw.result, raw.error, raw.failureKind,
         if raw.effectState == "" then "not_started" else raw.effectState, AtLeastZero(raw.dispatchCount),
         AtLeastZero(raw.dispatchSequence), raw.readySince, AtLeastZero(raw.durationMs))
  }

  lemma {:induction false} RecoveredKeeps(node: Node, verdict: string)
    ensures var b := Recovered(node, verdict);
            b == node.(status := b.status, error := b.error, failureKind := b.failureKind, effectState := b.effectState)
  {
  }

  lemma {:induction false} RecoveredOutcome(raw: NodeSnapshot, read: Node)
    requires read.status == StatusOf(raw.status) && read.prompt == Strip(raw.prompt)
    requires read.error == raw.error && read.failureKind == raw.failureKind
    requires read.effectState == if raw.effectState == "" then "not_started" else raw.effectState
    ensures Outcome4(raw, Recovered(read, raw.recoveryState))
  {
    StripBlank(raw.prompt);
    StatusExact(raw.status, Pending);
    StatusExact(raw.status, Running);
    StatusExact(raw.status, read.status);
    hide Strip, OnlyBlanks, Stands, StatusOf;
  }

  /** No later entry has the id of entry i. */
  ghost predicate LastOfId(raws: seq<NodeSnapshot>, i: nat)
    requires i < |raws|
  {
    forall j :: i < j < |raws| ==> Strip(raws[j].nodeId) != Strip(raws[i].nodeId)
  }

  /** One node for each id, at the place of its first entry and with what its last one says. */
  ghost predicate Rebuilt(raws: seq<NodeSnapshot>, disk: Disk, order: seq<NodeId>, nodes: map<NodeId, Node>) {
    && Distinct(order) && (forall n :: n in order <==> n in nodes)
    && (forall n :: n in nodes ==> exists i :: 0 <= i < |raws| && Strip(raws[i].nodeId) == n)
    && forall i :: 0 <= i < |raws| ==>
         && Strip(raws[i].nodeId) in nodes
         && (LastOfId(raws, i) ==> Some(nodes[Strip(raws[i].nodeId)]) == RestoreNode(raws[i], disk))
  }

  lemma {:induction false} AllRebuilt(raws: seq<NodeSnapshot>, disk: Disk)
    ensures RestoreNodes(raws, disk).Some? <==> forall i :: 0 <= i < |raws| ==> RestoreNode(raws[i], disk).Some?
    ensures RestoreNodes(raws, disk).Some? ==>
              Rebuilt(raws, disk, RestoreNodes(raws, disk).value.0, RestoreNodes(raws, disk).value.1)
  {
    hide RestoreNode, Strip, Rebuilt;
    if raws == [] {
      NothingRebuilt(disk);
    } else {
      var n := |raws| - 1;
      var front, last := raws[..n], raws[n];
      AllRebuilt(front, disk);
      assert raws == front + [last];
      if RestoreNodes(front, disk).Some? && RestoreNode(last, disk).Some? {
        var (order, nodes) := RestoreNodes(front, disk).value;
        OneEntryMore(front, last, disk, order, nodes);
      }
    }
  }

  lemma {:induction false} NothingRebuilt(disk: Disk)
    ensures Rebuilt([], disk, [], map[])
  {
  }

  lemma {:induction false} OneEntryMore(raws: seq<NodeSnapshot>, last: NodeSnapshot, disk: Disk, order: seq<NodeId>,
          nodes: map<NodeId, Node>)
    requires Rebuilt(raws, disk, order, nodes) && RestoreNode(last, disk).Some?
    ensures var id := Strip(last.nodeId);
            Rebuilt(raws + [last], disk, if id in nodes then order else order + [id],
                    nodes[id := RestoreNode(last, disk).value])
  {
    hide RestoreNode, Strip, LastOfId;
    var id, more := Strip(last.nodeId), raws + [last];
    var nodes' := nodes[id := RestoreNode(last, disk).value];
    forall i | 0 <= i < |more|
      ensures Strip(more[i].nodeId) in nodes'
      ensures LastOfId(more, i) ==> Some(nodes'[Strip(more[i].nodeId)]) == RestoreNode(more[i], disk)
    {
      if i < |raws| {
        assert more[i] == raws[i];
        LastInFront(raws, last, i);
      }
    }
    forall n | n in nodes'
      ensures exists i :: 0 <= i < |more| && Strip(more[i].nodeId) == n
    {
      if n == id {
        assert more[|raws|] == last;
      } else {
        var i :| 0 <= i < |raws| && Strip(raws[i].nodeId) == n;
        assert more[i] == raws[i];
      }
    }
  }

  lemma {:induction false} LastInFront(raws: seq<NodeSnapshot>, last: NodeSnapshot, i: nat)
    requires i < |raws|
    ensures LastOfId(raws + [last], i) ==> LastOfId(raws, i) && Strip(raws[i].nodeId) != Strip(last.nodeId)
  {
    hide Strip;
    var more := raws + [last];
    assert more[|raws|] == last && more[i] == raws[i];
    assert forall j :: i < j < |raws| ==> more[j] == raws[j];
  }

  lemma {:induction false} EntriesExact(raws: seq<NodeSnapshot>, disk: Disk)
    ensures RestoreNodes(raws, disk).Some? <==> forall i :: 0 <= i < |raws| ==> GoodEntry(raws[i], disk)
  {
    AllRebuilt(raws, disk);
    forall i | 0 <= i < |raws|
      ensures RestoreNode(raws[i], disk).Some? <==> GoodEntry(raws[i], disk)
    {
      EntryExact(raws[i], disk);
    }
    hide RestoreNode, RestoreNodes, GoodEntry, Rebuilt;
  }

  /** No earlier entry has the id of entry i. */
  ghost predicate FirstOfId(raws: seq<NodeSnapshot>, i: nat)
    requires i < |raws|
  {
    forall j :: 0 <= j < i ==> Strip(raws[j].nodeId) != Strip(raws[i].nodeId)
  }

  /** The order follows the first entries of the ids. */
  ghost predicate FirstAt(raws: seq<NodeSnapshot>, order: seq<NodeId>, places: seq<nat>) {
    && |places| == |order| && (forall j, k :: 0 <= j < k < |places| ==> places[j] < places[k])
    && forall k :: 0 <= k < |places| ==>
         places[k] < |raws| && Strip(raws[places[k]].nodeId) == order[k] && FirstOfId(raws, places[k])
  }

  lemma {:induction false} FirstPlaces(raws: seq<NodeSnapshot>, disk: Disk) returns (places: seq<nat>)
    requires RestoreNodes(raws, disk).Some?
    ensures FirstAt(raws, RestoreNodes(raws, disk).value.0, places)
  {
    hide RestoreNode, Strip, Rebuilt, FirstAt;
    if raws == [] {
      places := [];
      NoPlaces();
    } else {
      var n := |raws| - 1;
      var front, last := raws[..n], raws[n];
      places := FirstPlaces(front, disk);
      AllRebuilt(front, disk);
      assert raws == front + [last];
      var (order, nodes) := RestoreNodes(front, disk).value;
      OnePlaceMore(front, last, disk, order, nodes, places);
      if Strip(last.nodeId) !in nodes {
        places := places + [n];
      }
    }
  }

  lemma {:induction false} NoPlaces()
    ensures FirstAt([], [], [])
  {
  }

  lemma {:induction false} OnePlaceMore(raws: seq<NodeSnapshot>, last: NodeSnapshot, disk: Disk, order: seq<NodeId>,
          nodes: map<NodeId, Node>, places: seq<nat>)
    requires Rebuilt(raws, disk, order, nodes) && FirstAt(raws, order, places)
    ensures var id := Strip(last.nodeId);
            if id in nodes then FirstAt(raws + [last], order, places)
            else FirstAt(raws + [last], order + [id], places + [|raws|])
  {
    hide RestoreNode, Strip, LastOfId;
    var more := raws + [last];
    forall k | 0 <= k < |places|
      ensures Strip(more[places[k]].nodeId) == order[k] && FirstOfId(more, places[k])
    {
      assert forall j :: 0 <= j <= places[k] ==> more[j] == raws[j];
    }
    assert forall j :: 0 <= j < |raws| ==> more[j] == raws[j];
    assert more[|raws|] == last;
  }

  /** One node for each id, in the order of their first entries, each with what the last
      entry of its id says. */
  ghost predicate ReadBack(raws: seq<NodeSnapshot>, disk: Disk, order: seq<NodeId>, nodes: map<NodeId, Node>) {
    && (exists places: seq<nat> :: FirstAt(raws, order, places))
    && Distinct(order) && (forall n :: n in order <==> n in nodes)
    && (forall n :: n in nodes ==> exists i :: 0 <= i < |raws| && Strip(raws[i].nodeId) == n)
    && forall i :: 0 <= i < |raws| ==>
         && Strip(raws[i].nodeId) in nodes
         && (LastOfId(raws, i) ==> BackFrom(raws[i], disk, nodes[Strip(raws[i].nodeId)]))
  }

  lemma {:induction false} RestoredNodes(raws: seq<NodeSnapshot>, disk: Disk)
    requires RestoreNodes(raws, disk).Some?
    ensures ReadBack(raws, disk, RestoreNodes(raws, disk).value.0, RestoreNodes(raws, disk).value.1)
  {
    AllRebuilt(raws, disk);
    var places := FirstPlaces(raws, disk);
    var (order, nodes) := RestoreNodes(raws, disk).value;
    hide RestoreNodes, RestoreNode, BackFrom, Strip, LastOfId, Distinct, FirstAt;
    forall i | 0 <= i < |raws| && LastOfId(raws, i)
      ensures Strip(raws[i].nodeId) in nodes && BackFrom(raws[i], disk, nodes[Strip(raws[i].nodeId)])
    {
      EntryExact(raws[i], disk);
    }
  }

  /** What the snapshot says; negative counters read as zero. */
  ghost predicate Resumed(s: GraphSnapshot, disk: Disk, g: Graph) {
    && ReadBack(s.nodes, disk, g.order, g.nodes) && Budgets(s.quota, g.quota)
    && g.schedulerSequence == Max(0, s.schedulerSequence) && g.version == Max(0, s.version)
    && g.quotaExhausted == s.paused && g.quota.usedWaves == Max(0, s.usedWaves)
    && g.quota.usedAttempts == Max(0, s.usedAttempts) && g.quota.usedRuntimeMs == Max(0, s.usedRuntimeMs)
  }

  lemma {:induction false} ResumedWhen(s: GraphSnapshot, disk: Disk)
    ensures RestoredGraph(s, disk).Some? <==>
              (forall i :: 0 <= i < |s.nodes| ==> GoodEntry(s.nodes[i], disk)) && exists q :: Budgets(s.quota, q)
  {
    EntriesExact(s.nodes, disk);
    BudgetsExact(s.quota);
    hide RestoreNodes, ParseQuota, GoodEntry, Budgets;
  }

  lemma {:induction false} ResumedFields(s: GraphSnapshot, disk: Disk)
    requires RestoredGraph(s, disk).Some?
    ensures Resumed(s, disk, RestoredGraph(s, disk).value)
  {
    BudgetsExact(s.quota);
    RestoredNodes(s.nodes, disk);
    hide RestoreNodes, ParseQuota, ReadBack;
    var q := ParseQuota(s.quota).value;
    UseIsNoBudget(s.quota, q, q.(usedWaves := Max(0, s.usedWaves), usedAttempts := Max(0, s.usedAttempts),
                                 usedRuntimeMs := Max(0, s.usedRuntimeMs)));
    hide Budgets;
  }

  lemma {:induction false} UseIsNoBudget(raw: RawQuota, q: Quota, used: Quota)
    requires Budgets(raw, q)
    requires used == q.(usedWaves := used.usedWaves, usedAttempts := used.usedAttempts, usedRuntimeMs := used.usedRuntimeMs)
    ensures Budgets(raw, used)
  {
  }

  lemma {:induction false} LastEntry(raws: seq<NodeSnapshot>, i: nat) returns (last: nat)
    requires i < |raws|
    ensures last < |raws| && LastOfId(raws, last) && Strip(raws[last].nodeId) == Strip(raws[i].nodeId)
    decreases |raws| - i
  {
    hide Strip;
    if LastOfId(raws, i) {
      last := i;
    } else {
      var j :| i < j < |raws| && Strip(raws[j].nodeId) == Strip(raws[i].nodeId);
      last := LastEntry(raws, j);
    }
  }

  /** What the snapshot says about dependencies decides whether there is a numbering. */
  lemma {:induction false} ResumedOnce(s: GraphSnapshot, disk: Disk, g: Graph, h: Graph)
    requires Resumed(s, disk, g) && Resumed(s, disk, h)
    ensures Layered(g) <==> Layered(h)
  {
    hide Strip, BackFrom, LastOfId, Budgets, Layered, SameNeed, FirstAt, Distinct;
    forall n
      ensures n in g.nodes <==> n in h.nodes
      ensures n in g.nodes && n in h.nodes ==> SameNeed(g.nodes[n], h.nodes[n])
    {
      if i :| 0 <= i < |s.nodes| && Strip(s.nodes[i].nodeId) == n {
        var last := LastEntry(s.nodes, i);
        BackNeeds(s.nodes[last], disk, g.nodes[n], h.nodes[n]);
      }
    }
    hide Resumed;
    SameLayers(g, h);
  }

  lemma {:induction false} BackNeeds(raw: NodeSnapshot, disk: Disk, a: Node, b: Node)
    requires BackFrom(raw, disk, a) && BackFrom(raw, disk, b)
    ensures SameNeed(a, b)
  {
    hide Cleans, Declared, DeclaredWriteScopes, Outcome4, Strip;
    CleansOnce(raw.dependsOn, a.dependsOn, b.dependsOn);
  }

  /** A snapshot is restored exactly if every entry can be read, its budgets are within bounds
      and the dependencies are nodes and form no cycle. */
  lemma {:induction false} RestoreExact(s: GraphSnapshot, disk: Disk)
    ensures Restore(s, disk).Some? <==>
              && (forall i :: 0 <= i < |s.nodes| ==> GoodEntry(s.nodes[i], disk)) && (exists q :: Budgets(s.quota, q))
              && exists g :: Resumed(s, disk, g) && Layered(g)
    ensures Restore(s, disk).Some? ==> Resumed(s, disk, Restore(s, disk).value) && Layered(Restore(s, disk).value)
  {
    ResumedWhen(s, disk);
    hide RestoredGraph, GoodEntry, Budgets, Layered, Acceptable, Resumed;
    if RestoredGraph(s, disk).Some? {
      var g := RestoredGraph(s, disk).value;
      LayeredExact(g);
      ResumedFields(s, disk);
      if h :| Resumed(s, disk, h) && Layered(h) {
        ResumedOnce(s, disk, g, h);
      }
    }
  }

  /*---------------------------------- writing ----------------------------------*/

  /** A snapshot lists the nodes in their order, each with all its fields, its status and its
      retry mode by name, and what the recovering process adds. */
  lemma {:induction false} SnapshotExact(g: Graph, recovery: NodeId -> string, i: nat)
    requires i < |g.order| && forall n :: n in g.order ==> n in g.nodes
    ensures var s := Snapshot(g, recovery);
            var n, e := g.order[i], s.nodes[i];
            var node := g.nodes[n];
            && |s.nodes| == |g.order| && e.nodeId == n && e.recoveryState == recovery(n)
            && e.title == node.title && e.prompt == node.prompt && e.dependsOn == node.dependsOn
            && e.priority == node.priority && e.deadline == node.deadline && e.maxAttempts == node.maxAttempts
            && e.retryMode == (if node.retrySafe then "safe" else "never")
            && e.declaredScopes == Some(node.declaredScopes) && e.writeScopes == node.writeScopes
            && e.evidenceRefs == node.evidenceRefs && e.attempts == node.attempts && e.result == node.result
            && e.error == node.error && e.failureKind == node.failureKind && e.effectState == node.effectState
            && e.dispatchCount == node.dispatchCount && e.dispatchSequence == node.dispatchSequence
            && e.readySince == node.readySince && e.durationMs == node.durationMs
            && Stands(e.status, node.status) && e.status in {"pending", "running", "completed", "failed", "blocked"}
    ensures var s := Snapshot(g, recovery);
            && s.schedulerSequence == g.schedulerSequence && s.version == g.version && s.paused == g.quotaExhausted
            && s.quota == RawQuota(g.quota.maxWaves, g.quota.maxTotalAttempts, g.quota.maxRuntimeMs)
            && s.usedWaves == g.quota.usedWaves && s.usedAttempts == g.quota.usedAttempts
            && s.usedRuntimeMs == g.quota.usedRuntimeMs
  {
  }
}
