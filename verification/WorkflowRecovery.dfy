/** Restoring a workflow checkpoint: what comes back, when it is the same graph, and
    that a restored graph keeps the invariant of the one in the checkpoint. */
module WorkflowRecovery {
  import opened Ordering
  import opened Text
  import opened Scopes
  import opened DeclaredScopes
  import opened Dag
  import opened Workflow
  import opened WorkflowSafety
  import opened WorkflowInvariant
  import opened WorkflowSnapshot

  /** What a restart finds: the verdict on each node, and the disk. */
  datatype Restart = Restart(recovery: NodeId -> string, disk: Disk)

  /** Texts are stripped again on the way back. */
  function Retext(node: Node): Node {
    node.(title := Strip(node.title), prompt := Strip(node.prompt), evidenceRefs := CleanList(node.evidenceRefs),
          declaredScopes := CleanList(node.declaredScopes))
  }

  /** Declared scopes are read again on the way back. */
  function Rescope(node: Node, disk: Disk): Node {
    var scopes := DeclaredWriteScopes(disk, node.declaredScopes);
    node.(writeScopes := if scopes.Some? then scopes.value else [])
  }

  function Back(g: Graph, r: Restart, n: NodeId): Node
    requires n in g.nodes
  {
    Recovered(Rescope(Retext(g.nodes[n]), r.disk), r.recovery(n))
  }

  /** The graph as it comes back from its own checkpoint. */
  function Comeback(g: Graph, r: Restart): Graph {
    g.(nodes := map n | n in g.nodes :: Back(g, r, n))
  }

  predicate NodeRereadable(node: Node, disk: Disk) {
    DeclaredWriteScopes(disk, CleanList(node.declaredScopes)).Some?
  }

  /** Every declared scope can still be read: no path leads out of the workspace. */
  predicate Rereadable(g: Graph, disk: Disk) {
    forall n :: n in g.nodes ==> NodeRereadable(g.nodes[n], disk)
  }

  lemma {:induction false} IdListIsClean(ids: seq<string>)
    requires forall d :: d in ids ==> ValidNodeId(d)
    ensures CleanList(ids) == ids
  {
    forall d | d in ids
      ensures d != "" && Trimmed(d)
    {
      ValidIdsAreTrimmed(d);
    }
    CleanListFixpoint(ids);
  }

  lemma {:induction false} StatusReadsBack(s: Status)
    ensures StatusOf(StatusName(s)) == s
  {
  }

  lemma {:induction false} RestoreOneNode(n: NodeId, node: Node, recovery: string, disk: Disk)
    requires ValidNodeId(n) && FieldsOk(node) && forall d :: d in node.dependsOn ==> ValidNodeId(d)
    ensures RestoreNode(SnapshotNode(n, node, recovery), disk)
         == if NodeRereadable(node, disk) then Some(Recovered(Rescope(Retext(node), disk), recovery)) else None
    ensures Strip(n) == n
  {
    hide DeclaredWriteScopes, Strip, Recovered, CleanList, StatusOf, StatusName, ValidNodeId, Trimmed;
    ValidIdsAreTrimmed(n);
    StripTrims(node.title);
    IdListIsClean(node.dependsOn);
    StatusReadsBack(node.status);
  }

  /** The entry of the i-th node restores to that node. */
  ghost predicate EntryRestores(g: Graph, r: Restart, raws: seq<NodeSnapshot>, i: nat) {
    && i < |raws| && i < |g.order| && g.order[i] in g.nodes
    && RestoreNode(raws[i], r.disk) == Some(Back(g, r, g.order[i])) && Strip(raws[i].nodeId) == g.order[i]
  }

  lemma {:induction false} OrderedNode(g: Graph, i: nat)
    requires Shape(g) && Storable(g) && i < |g.order|
    ensures g.order[i] in g.nodes && forall d :: d in g.nodes[g.order[i]].dependsOn ==> ValidNodeId(d)
  {
    var n := g.order[i];
    assert n in g.order;
    forall d | d in g.nodes[n].dependsOn
      ensures ValidNodeId(d)
    {
      assert n in DepsOf(g) && d in DepsOf(g)[n];
      assert d in DepsOf(g) && d in g.nodes;
    }
  }

  lemma {:induction false} SnapshotNodeRestores(g: Graph, r: Restart, i: nat)
    requires Shape(g) && Storable(g) && i < |g.order|
    ensures g.order[i] in g.nodes
    ensures NodeRereadable(g.nodes[g.order[i]], r.disk) ==> EntryRestores(g, r, Snapshot(g, r.recovery).nodes, i)
    ensures !NodeRereadable(g.nodes[g.order[i]], r.disk) ==> RestoreNode(Snapshot(g, r.recovery).nodes[i], r.disk).None?
  {
    hide RestoreNode, NodeRereadable, Rescope, Retext, Recovered, FieldsOk;
    var n := g.order[i];
    OrderedNode(g, i);
    RestoreOneNode(n, g.nodes[n], r.recovery(n), r.disk);
  }

  ghost predicate RestoredPrefix(g: Graph, r: Restart, i: nat, back: Option<(seq<NodeId>, map<NodeId, Node>)>)
    requires i <= |g.order|
  {
    && back.Some? && back.value.0 == g.order[..i]
    && (forall n :: n in back.value.1 <==> n in g.order[..i])
    && (forall n :: n in back.value.1 && n in g.nodes ==> back.value.1[n] == Back(g, r, n))
  }

  lemma {:induction false} RestoredPrefixGrows(g: Graph, r: Restart, raws: seq<NodeSnapshot>, i: nat)
    requires Shape(g) && EntryRestores(g, r, raws, i)
    requires RestoredPrefix(g, r, i, RestoreNodes(raws[..i], r.disk))
    ensures RestoredPrefix(g, r, i + 1, RestoreNodes(raws[..i + 1], r.disk))
  {
    hide RestoreNode, Back, Strip;
    var n := g.order[i];
    assert n !in g.order[..i] by {
      FreshInOrder(g, i);
    }
    hide Shape;
    assert raws[..i + 1][..i] == raws[..i];
    assert g.order[..i + 1] == g.order[..i] + [n];
    var before := RestoreNodes(raws[..i], r.disk).value;
    assert RestoreNodes(raws[..i + 1], r.disk) == Some((before.0 + [n], before.1[n := Back(g, r, n)]));
  }

  lemma {:induction false} FreshInOrder(g: Graph, i: nat)
    requires Shape(g) && i < |g.order|
    ensures g.order[i] !in g.order[..i]
  {
  }

  lemma {:induction false} RestoreEntries(g: Graph, r: Restart, raws: seq<NodeSnapshot>, i: nat)
    requires Shape(g) && i <= |g.order| && |raws| == |g.order|
    requires forall k :: 0 <= k < |g.order| ==> EntryRestores(g, r, raws, k)
    ensures RestoredPrefix(g, r, i, RestoreNodes(raws[..i], r.disk))
  {
    if i == 0 {
      NoNodesYet(g, r, raws[..0]);
    } else {
      hide RestoredPrefix, RestoreNodes, EntryRestores, Shape;
      RestoreEntries(g, r, raws, i - 1);
      RestoredPrefixGrows(g, r, raws, i - 1);
    }
  }

  lemma {:induction false} NoNodesYet(g: Graph, r: Restart, raws: seq<NodeSnapshot>)
    requires raws == []
    ensures RestoredPrefix(g, r, 0, RestoreNodes(raws, r.disk))
  {
  }

  /** The checkpoint of a stored graph is accepted exactly when every declared
      scope can still be read, and this is what comes back. */
  lemma {:induction false} RestoreIsComeback(g: Graph, r: Restart)
    requires Shape(g) && Storable(g)
    ensures Restore(Snapshot(g, r.recovery), r.disk) == if Rereadable(g, r.disk) then Some(Comeback(g, r)) else None
    ensures Shape(Comeback(g, r))
  {
    RestoredNodesAre(g, r);
    ComebackShape(g, r);
    assert QuotaOk(g.quota);
    hide RestoreNodes, Comeback, Storable, Rereadable;
    RestoredQuota(g, r.recovery);
    ComebackFrame(g, r);
    assert RestoredGraph(Snapshot(g, r.recovery), r.disk) == if Rereadable(g, r.disk) then Some(Comeback(g, r)) else None;
  }

  lemma {:induction false} ComebackFrame(g: Graph, r: Restart)
    ensures Comeback(g, r) == g.(nodes := Comeback(g, r).nodes)
  {
  }

  lemma {:induction false} RestoredQuota(g: Graph, recovery: NodeId -> string)
    requires Shape(g) && QuotaOk(g.quota)
    ensures ParseQuota(Snapshot(g, recovery).quota)
         == Some(g.quota.(usedWaves := 0, usedAttempts := 0, usedRuntimeMs := 0))
  {
  }

  lemma {:induction false} RestoredNodesAre(g: Graph, r: Restart)
    requires Shape(g) && Storable(g)
    ensures RestoreNodes(Snapshot(g, r.recovery).nodes, r.disk)
         == if Rereadable(g, r.disk) then Some((g.order, Comeback(g, r).nodes)) else None
  {
    hide RestoreNodes, Back, Storable, Shape, EntryRestores, RestoredPrefix, NodeRereadable, RestoreNode;
    ShapeIsDistinct(g);
    var raws := Snapshot(g, r.recovery).nodes;
    forall k | 0 <= k < |g.order|
      ensures g.order[k] in g.nodes
      ensures NodeRereadable(g.nodes[g.order[k]], r.disk) ==> EntryRestores(g, r, raws, k)
    {
      SnapshotNodeRestores(g, r, k);
    }
    if Rereadable(g, r.disk) {
      RestoreEntries(g, r, raws, |g.order|);
      assert raws[..|g.order|] == raws;
      WholePrefix(g, r, RestoreNodes(raws, r.disk));
    } else {
      var n :| n in g.nodes && !NodeRereadable(g.nodes[n], r.disk);
      var k := PlaceInOrder(g, n);
      SnapshotNodeRestores(g, r, k);
      OneBadEntry(raws, r.disk, k);
    }
  }

  lemma {:induction false} PlaceInOrder(g: Graph, n: NodeId) returns (k: nat)
    requires Shape(g) && n in g.nodes
    ensures k < |g.order| && g.order[k] == n
  {
    k :| 0 <= k < |g.order| && g.order[k] == n;
  }

  lemma {:induction false} OneBadEntry(raws: seq<NodeSnapshot>, disk: Disk, k: nat)
    requires k < |raws| && RestoreNode(raws[k], disk).None?
    ensures RestoreNodes(raws, disk).None?
  {
    hide RestoreNode;
    assert raws[..k + 1][k] == raws[k];
    RestoreNodesFails(raws, disk, k + 1);
  }

  lemma {:induction false} WholePrefix(g: Graph, r: Restart, back: Option<(seq<NodeId>, map<NodeId, Node>)>)
    requires Shape(g) && RestoredPrefix(g, r, |g.order|, back)
    ensures back == Some((g.order, Comeback(g, r).nodes))
  {
    hide Back;
    assert g.order[..|g.order|] == g.order;
    assert back.value.1 == Comeback(g, r).nodes;
  }

  lemma {:induction false} BackKeepsDependencies(g: Graph, r: Restart, n: NodeId)
    requires n in g.nodes
    ensures Back(g, r, n).dependsOn == g.nodes[n].dependsOn
  {
  }

  lemma {:induction false} ComebackShape(g: Graph, r: Restart)
    requires Shape(g)
    ensures Shape(Comeback(g, r)) && Acceptable(DepsOf(Comeback(g, r)))
  {
    hide Back;
    forall n | n in g.nodes
      ensures Comeback(g, r).nodes[n].dependsOn == g.nodes[n].dependsOn
    {
      BackKeepsDependencies(g, r, n);
    }
    ComebackFrame(g, r);
    SameDependencies(g, Comeback(g, r));
  }

  /*--------------------------- when nothing is changed -------------------------*/

  lemma {:induction false} RetextFixpoint(node: Node)
    ensures Retext(node) == node <==> StableText(node)
  {
    StripTrims(node.title);
    StripTrims(node.prompt);
    CleanListFixpoint(node.evidenceRefs);
    CleanListFixpoint(node.declaredScopes);
  }

  lemma {:induction false} RecoveredIdle(node: Node, recovery: string)
    requires node.prompt != "" && node.status != Running
    ensures Recovered(node, recovery) == node
  {
  }

  /** A node that is not running comes back the same exactly when its text is
      stable and its declared scopes still mean the same. */
  lemma {:induction false} IdleNodeBack(g: Graph, r: Restart, n: NodeId)
    requires n in g.nodes && FieldsOk(g.nodes[n]) && g.nodes[n].status != Running
    ensures NodeRereadable(g.nodes[n], r.disk) && Back(g, r, n) == g.nodes[n]
       <==> StableText(g.nodes[n]) && StableScopes(g.nodes[n], r.disk)
  {
    var node := g.nodes[n];
    StripTrims(node.prompt);
    RetextFixpoint(node);
    hide Recovered, DeclaredWriteScopes, Strip, CleanList, StableText;
    RecoveredIdle(Rescope(Retext(node), r.disk), r.recovery(n));
    if Back(g, r, n) == node {
      assert Retext(node) == node;
    }
  }

  lemma {:induction false} ComebackIdentity(g: Graph, r: Restart)
    ensures Comeback(g, r) == g <==> forall n :: n in g.nodes ==> Back(g, r, n) == g.nodes[n]
  {
    hide Back;
    if forall n :: n in g.nodes ==> Back(g, r, n) == g.nodes[n] {
      assert Comeback(g, r).nodes == g.nodes;
    } else {
      var n :| n in g.nodes && Back(g, r, n) != g.nodes[n];
      assert Comeback(g, r).nodes[n] == Back(g, r, n);
    }
  }

  /** With nothing running, restoring a checkpoint gives the same graph back
      exactly when no stored text has a blank end and every declaration reads
      as it did. */
  lemma {:induction false} RestoreIdentityExact(g: Graph, r: Restart)
    requires Shape(g) && Storable(g) && NoneRunning(g)
    ensures Restore(Snapshot(g, r.recovery), r.disk) == Some(g) <==> TextStable(g) && ScopesStable(g, r.disk)
  {
    hide Restore, Snapshot, Back, Comeback, Shape, FieldsOk, NodeRereadable, StableText, StableScopes;
    RestoreIsComeback(g, r);
    ComebackIdentity(g, r);
    forall n | n in g.nodes
      ensures NodeRereadable(g.nodes[n], r.disk) && Back(g, r, n) == g.nodes[n]
         <==> StableText(g.nodes[n]) && StableScopes(g.nodes[n], r.disk)
    {
      assert !HasStatus(g, n, Running);
      IdleNodeBack(g, r, n);
    }
  }

  /*------------------------- graphs straight from creation ---------------------*/

  /** Cutting s at the limit leaves no blank end. */
  predicate CleanCut(s: string, limit: nat) {
    limit > 0 && (|s| <= limit || !IsSpace(s[limit - 1]))
  }

  predicate NoCutAtBlank(raw: RawNode) {
    && CleanCut(Strip(raw.title), 120) && CleanCut(Strip(raw.prompt), 20000)
    && forall e :: e in TakeFirst(CleanList(raw.evidenceRefs), 50) ==> CleanCut(e, 1000)
  }

  lemma {:induction false} CleanListIsClean(ss: seq<string>)
    ensures CleanEntries(CleanList(ss))
  {
    if ss != [] {
      CleanListIsClean(ss[1..]);
      StripTrims(ss[0]);
    }
  }

  lemma {:induction false} CutEntriesClean(ss: seq<string>, n: nat)
    requires CleanEntries(ss)
    ensures CleanEntries(TakeFirst(CutEntries(ss), n)) <==> forall e :: e in TakeFirst(ss, n) ==> CleanCut(e, 1000)
  {
    var kept := TakeFirst(ss, n);
    var cut := TakeFirst(CutEntries(ss), n);
    assert |cut| == |kept|;
    forall i | 0 <= i < |kept|
      ensures kept[i] in ss && cut[i] == Truncate(kept[i], 1000)
      ensures cut[i] != "" && Trimmed(cut[i]) <==> CleanCut(kept[i], 1000)
    {
      assert kept[i] == ss[i];
    }
    if CleanEntries(cut) {
      forall e | e in kept
        ensures CleanCut(e, 1000)
      {
        var i :| 0 <= i < |kept| && kept[i] == e;
        assert cut[i] in cut;
      }
    } else {
      var e :| e in cut && !(e != "" && Trimmed(e));
      var i :| 0 <= i < |cut| && cut[i] == e;
      assert kept[i] in kept;
    }
  }

  /** Length limits are what can leave a blank end: the text of a created node
      is stable exactly when no cut of its title, its prompt or one of the kept
      evidence entries falls on a blank. */
  lemma {:induction false} CreatedTextStability(raw: RawNode, disk: Disk)
    requires ParseNode(raw, disk).Some?
    ensures var node := ParseNode(raw, disk).value;
            FieldsOk(node) && (StableText(node) <==> NoCutAtBlank(raw))
  {
    hide DeclaredWriteScopes;
    TruncateTrimmed(raw.title, 120);
    TruncateTrimmed(raw.prompt, 20000);
    CleanListIsClean(raw.writeScopes);
    CleanListIsClean(raw.evidenceRefs);
    CutEntriesClean(CleanList(raw.evidenceRefs), 50);
    hide CleanList, Strip, CutEntries, TakeFirst, CleanEntries, Trimmed;
  }

  /** No file declared by itself has changed since its hash was taken. */
  predicate FilesUnchanged(node: Node, disk: Disk) {
    forall s :: s in node.writeScopes && !s.recursive ==> disk.digest(s.path) == s.baselineHash
  }

  lemma {:induction false} CreatedScopeStability(raw: RawNode, made: Disk, disk: Disk)
    requires ParseNode(raw, made).Some? && disk.root == made.root && disk.resolve == made.resolve
    ensures StableScopes(ParseNode(raw, made).value, disk) <==> FilesUnchanged(ParseNode(raw, made).value, disk)
  {
    var declared := CleanList(raw.writeScopes);
    RereadExact(made, disk, declared);
    RereadNormal(made, made, declared);
    hide DeclaredWriteScopes;
    var ss := DeclaredWriteScopes(made, declared).value;
    RehashFixpoint(made, ss);
  }

  /** Which input became which node. */
  lemma {:induction false} ParsedFrom(raws: seq<RawNode>, disk: Disk)
    requires ParseNodes(raws, disk).Some?
    ensures var nodes := ParseNodes(raws, disk).value.1;
            && (forall raw :: raw in raws ==>
                  && ParseNode(raw, disk).Some? && Strip(raw.id) in nodes
                  && nodes[Strip(raw.id)] == ParseNode(raw, disk).value)
            && (forall n :: n in nodes ==> exists raw :: raw in raws && Strip(raw.id) == n)
  {
    hide ParseNode, Strip;
    if raws != [] {
      var last := |raws| - 1;
      ParsedFrom(raws[..last], disk);
      assert raws == raws[..last] + [raws[last]];
      forall n | n in ParseNodes(raws, disk).value.1
        ensures exists raw :: raw in raws && Strip(raw.id) == n
      {
        if n == Strip(raws[last].id) {
          assert raws[last] in raws;
        } else {
          var raw :| raw in raws[..last] && Strip(raw.id) == n;
          assert raw in raws;
        }
      }
    }
  }

  /** While every path leads to the same place, the checkpoint of a created
      graph brings the same graph back exactly when no length limit cut at a
      blank and no file that is declared by itself has changed. */
  lemma {:induction false} CreatedGraphComesBack(raws: seq<RawNode>, quota: RawQuota, createdAt: int, made: Disk,
          g: Graph, r: Restart)
    requires Create(raws, quota, createdAt, made) == Some(g)
    requires r.disk.root == made.root && r.disk.resolve == made.resolve
    ensures (CreatedNodes(raws, quota, createdAt, made); Restore(Snapshot(g, r.recovery), r.disk) == Some(g))
       <==> (forall raw :: raw in raws ==> NoCutAtBlank(raw))
            && forall n :: n in g.nodes ==> FilesUnchanged(g.nodes[n], r.disk)
  {
    hide *;
    CreatedGood(raws, quota, createdAt, made, 1);
    CreatedNodes(raws, quota, createdAt, made);
    CreatedStability(raws, quota, createdAt, made, g, r.disk);
    RestoreIdentityExact(g, r);
  }

  lemma {:induction false} CreatedStability(raws: seq<RawNode>, quota: RawQuota, createdAt: int, made: Disk,
          g: Graph, disk: Disk)
    requires Create(raws, quota, createdAt, made) == Some(g)
    requires disk.root == made.root && disk.resolve == made.resolve
    ensures TextStable(g) <==> forall raw :: raw in raws ==> NoCutAtBlank(raw)
    ensures ScopesStable(g, disk) <==> forall n :: n in g.nodes ==> FilesUnchanged(g.nodes[n], disk)
  {
    hide *;
    CreatedFrom(raws, quota, createdAt, made);
    forall raw | raw in raws
      ensures StableText(g.nodes[Strip(raw.id)]) <==> NoCutAtBlank(raw)
      ensures StableScopes(g.nodes[Strip(raw.id)], disk) <==> FilesUnchanged(g.nodes[Strip(raw.id)], disk)
    {
      CreatedTextStability(raw, made);
      CreatedScopeStability(raw, made, disk);
      StampedAlike(ParseNode(raw, made).value, createdAt, disk);
    }
    StableByInput(g, raws, disk);
  }

  lemma {:induction false} StableByInput(g: Graph, raws: seq<RawNode>, disk: Disk)
    requires forall raw :: raw in raws ==> Strip(raw.id) in g.nodes
    requires forall n :: n in g.nodes ==> exists raw :: raw in raws && Strip(raw.id) == n
    requires forall raw :: raw in raws ==>
               && (StableText(g.nodes[Strip(raw.id)]) <==> NoCutAtBlank(raw))
               && (StableScopes(g.nodes[Strip(raw.id)], disk) <==> FilesUnchanged(g.nodes[Strip(raw.id)], disk))
    ensures TextStable(g) <==> forall raw :: raw in raws ==> NoCutAtBlank(raw)
    ensures ScopesStable(g, disk) <==> forall n :: n in g.nodes ==> FilesUnchanged(g.nodes[n], disk)
  {
    hide NoCutAtBlank, FilesUnchanged, StableText, StableScopes, Strip;
  }

  lemma {:induction false} CreatedFrom(raws: seq<RawNode>, quota: RawQuota, createdAt: int, disk: Disk)
    requires Create(raws, quota, createdAt, disk).Some?
    ensures var g := Create(raws, quota, createdAt, disk).value;
            && (forall raw :: raw in raws ==>
                  && ParseNode(raw, disk).Some? && Strip(raw.id) in g.nodes
                  && g.nodes[Strip(raw.id)] == ParseNode(raw, disk).value.(readySince := Some(createdAt)))
            && (forall n :: n in g.nodes ==> exists raw :: raw in raws && Strip(raw.id) == n)
  {
    hide ParseNodes, ParseNode, Strip;
    ParsedFrom(raws, disk);
  }

  lemma {:induction false} StampedAlike(node: Node, createdAt: int, disk: Disk)
    ensures var stamped := node.(readySince := Some(createdAt));
            && (StableText(stamped) <==> StableText(node))
            && (StableScopes(stamped, disk) <==> StableScopes(node, disk))
            && (FilesUnchanged(stamped, disk) <==> FilesUnchanged(node, disk))
  {
  }

  /*------------------------- invariants across a crash -------------------------*/

  lemma {:induction false} RetextFields(node: Node)
    requires FieldsOk(node)
    ensures FieldsOk(Retext(node))
  {
    StripTrims(node.title);
    StripTrims(node.prompt);
  }

  lemma {:induction false} ComebackNode(g: Graph, r: Restart, n: NodeId)
    requires n in g.nodes && FieldsOk(g.nodes[n])
    ensures var a := g.nodes[n];
            var b := Comeback(g, r).nodes[n];
            && FieldsOk(b) && b.dependsOn == a.dependsOn && b.dispatchCount == a.dispatchCount && b.maxAttempts == a.maxAttempts
            && b.dispatchSequence == a.dispatchSequence && b.durationMs == a.durationMs && b.attempts == a.attempts
            && (a.status != Running ==> b == Rescope(Retext(a), r.disk))
            && (a.status == Running ==> b.status == if r.recovery(n) == "completed" then Completed
                                                     else if r.recovery(n) == "safe_to_retry" then Pending else Failed)
  {
    RetextFields(g.nodes[n]);
    RetextKeeps(g.nodes[n]);
    hide DeclaredWriteScopes, Retext;
    assert Comeback(g, r).nodes[n] == Recovered(Rescope(Retext(g.nodes[n]), r.disk), r.recovery(n));
    hide Comeback, IsSpace;
  }

  lemma {:induction false} RetextKeeps(node: Node)
    ensures Retext(node) == node.(title := Retext(node).title, prompt := Retext(node).prompt,
                                  evidenceRefs := Retext(node).evidenceRefs, declaredScopes := Retext(node).declaredScopes)
  {
  }

  lemma {:induction false} ComebackSafe(g: Graph, r: Restart)
    requires DependencySafe(g) && Storable(g)
    ensures DependencySafe(Comeback(g, r)) && NoneRunning(Comeback(g, r))
  {
    var b := Comeback(g, r);
    forall n | n in g.nodes
      ensures b.nodes[n].dependsOn == g.nodes[n].dependsOn && b.nodes[n].status != Running
      ensures g.nodes[n].status == Completed ==> b.nodes[n].status == Completed
      ensures Engaged(b, n) ==> Engaged(g, n)
    {
      hide Back, FieldsOk, DependencySafe;
      ComebackNode(g, r, n);
      RetextKeeps(g.nodes[n]);
    }
    hide Comeback, FieldsOk, DependencySafe;
    SafeStep(g, b);
  }

  lemma {:induction false} ComebackCounts(g: Graph, r: Restart)
    requires Accounted(g) && SequencesOk(g) && Storable(g)
    ensures Accounted(Comeback(g, r)) && SequencesOk(Comeback(g, r))
  {
    var b := Comeback(g, r);
    forall n | n in g.nodes
      ensures && b.nodes[n].dispatchCount == g.nodes[n].dispatchCount
              && b.nodes[n].dispatchSequence == g.nodes[n].dispatchSequence
              && b.nodes[n].durationMs == g.nodes[n].durationMs
    {
      ComebackNode(g, r, n);
    }
    assert b.order == g.order && b.quota == g.quota && b.schedulerSequence == g.schedulerSequence;
    hide Comeback, Accounted, SequencesOk;
    CountersKept(g, b);
  }

  lemma {:induction false} ComebackBlocks(g: Graph, r: Restart)
    requires BlocksJustified(g) && Storable(g)
    ensures BlocksJustified(Comeback(g, r))
  {
    var b := Comeback(g, r);
    forall n | HasStatus(b, n, Blocked)
      ensures b.nodes[n].failureKind == "dependency_failed" && HasUnusableDependency(b, n)
    {
      ComebackNode(g, r, n);
      assert HasStatus(g, n, Blocked);
      var d :| d in g.nodes[n].dependsOn && Unusable(g, d);
      ComebackNode(g, r, d);
      assert Unusable(b, d);
    }
  }

  /** Completed nodes come back with all they recorded; only their texts are
      stripped and their scopes read again. */
  ghost predicate KeepsWork(g: Graph, g': Graph) {
    forall n :: HasStatus(g, n, Completed) ==>
      n in g'.nodes && g'.nodes[n].(writeScopes := g.nodes[n].writeScopes) == Retext(g.nodes[n])
  }

  lemma {:induction false} RetextTwice(node: Node)
    ensures Retext(Retext(node)) == Retext(node)
  {
    StripTrims(node.title);
    StripTrims(node.prompt);
    CleanListIsClean(node.evidenceRefs);
    CleanListIsClean(node.declaredScopes);
    RetextFixpoint(Retext(node));
  }

  lemma {:induction false} RetextScopes(node: Node, scopes: seq<WriteScope>)
    ensures Retext(node.(writeScopes := scopes)) == Retext(node).(writeScopes := scopes)
  {
  }

  /** Restoring its own snapshot, with any recovery verdicts and on any disk that
      still reads the declared scopes, keeps the invariant; nothing is running
      afterwards and completed nodes stay completed. */
  lemma {:induction false} ComebackGood(g: Graph, r: Restart, parallel: nat)
    requires Good(g, parallel) && Storable(g)
    ensures Restore(Snapshot(g, r.recovery), r.disk) == if Rereadable(g, r.disk) then Some(Comeback(g, r)) else None
    ensures var b := Comeback(g, r);
            Good(b, parallel) && Storable(b) && NoneRunning(b) && KeepsWork(g, b)
  {
    hide DependencySafe, Accounted, SequencesOk, BlocksJustified, Shape, Storable, Comeback, Restore, Snapshot, Rereadable;
    hide NoneRunning, Retext, WritersDisjoint, KeepsWork;
    RestoreIsComeback(g, r);
    ComebackSafe(g, r);
    ComebackCounts(g, r);
    ComebackBlocks(g, r);
    ComebackStorable(g, r);
    ComebackFrame(g, r);
    IdleWriters(Comeback(g, r));
  }

  lemma {:induction false} IdleWriters(g: Graph)
    requires NoneRunning(g)
    ensures WritersDisjoint(g)
  {
  }

  lemma {:induction false} ComebackStorable(g: Graph, r: Restart)
    requires Storable(g)
    ensures Storable(Comeback(g, r)) && KeepsWork(g, Comeback(g, r))
  {
    forall n | n in g.nodes
      ensures FieldsOk(Comeback(g, r).nodes[n])
      ensures g.nodes[n].status == Completed ==>
                Comeback(g, r).nodes[n].(writeScopes := g.nodes[n].writeScopes) == Retext(g.nodes[n])
    {
      ComebackNode(g, r, n);
      RetextKeeps(g.nodes[n]);
    }
    hide Back, FieldsOk, Retext;
  }

  /*--------------------------------- the start --------------------------------*/

  lemma {:induction false} ParsedNodes(raws: seq<RawNode>, disk: Disk)
    requires ParseNodes(raws, disk).Some?
    ensures var (order, nodes) := ParseNodes(raws, disk).value;
            && Distinct(order) && (forall n :: n in order <==> n in nodes)
            && forall n :: n in nodes ==>
                 && ValidNodeId(n) && FieldsOk(nodes[n]) && nodes[n].status == Pending
                 && nodes[n].dispatchCount == nodes[n].dispatchSequence == nodes[n].durationMs == 0
  {
    if raws != [] {
      var last := raws[|raws| - 1];
      ParsedNodes(raws[..|raws| - 1], disk);
      CreatedTextStability(last, disk);
    }
  }

  lemma {:induction false} NothingSpent(order: seq<NodeId>, nodes: map<NodeId, Node>, measure: Node -> nat)
    requires forall n :: n in nodes ==> measure(nodes[n]) == 0
    ensures SumOver(order, nodes, measure) == 0
  {
    if order != [] {
      NothingSpent(order[1..], nodes, measure);
    }
  }

  /** A created graph starts the invariant. */
  lemma {:induction false} CreatedGood(raws: seq<RawNode>, quota: RawQuota, createdAt: int, disk: Disk, parallel: nat)
    requires Create(raws, quota, createdAt, disk).Some? && parallel >= 1
    ensures var g := Create(raws, quota, createdAt, disk).value;
            Good(g, parallel) && Storable(g) && NoneRunning(g)
  {
    hide Create, Good;
    CreatedNodes(raws, quota, createdAt, disk);
    FreshGood(Create(raws, quota, createdAt, disk).value, parallel);
  }

  lemma {:induction false} FreshGood(g: Graph, parallel: nat)
    requires Shape(g) && QuotaOk(g.quota) && g.schedulerSequence == 0 && parallel >= 1
    requires g.quota.usedWaves == g.quota.usedAttempts == g.quota.usedRuntimeMs == 0
    requires forall n :: n in g.nodes ==>
               && g.nodes[n].status == Pending
               && g.nodes[n].dispatchCount == g.nodes[n].dispatchSequence == g.nodes[n].durationMs == 0
    ensures Good(g, parallel) && NoneRunning(g)
  {
    hide Shape;
    NothingSpent(g.order, g.nodes, Dispatches);
    NothingSpent(g.order, g.nodes, Duration);
  }

  lemma {:induction false} CreatedNodes(raws: seq<RawNode>, quota: RawQuota, createdAt: int, disk: Disk)
    requires Create(raws, quota, createdAt, disk).Some?
    ensures var g := Create(raws, quota, createdAt, disk).value;
            && Shape(g) && QuotaOk(g.quota) && g.schedulerSequence == 0
            && g.quota.usedWaves == g.quota.usedAttempts == g.quota.usedRuntimeMs == 0
            && forall n :: n in g.nodes ==>
                 && ValidNodeId(n) && FieldsOk(g.nodes[n]) && g.nodes[n].status == Pending
                 && g.nodes[n].dispatchCount == g.nodes[n].dispatchSequence == g.nodes[n].durationMs == 0
  {
    ParsedNodes(raws, disk);
    hide ParseNodes;
  }
}
