/** Write scopes: the containment order on paths, the overlap and coverage
    tests built on it, and the normal form of a scope list
    (agent/app/execution/write_intents.py). */
module Scopes {
  import opened Ordering

  datatype WriteScope = WriteScope(path: string, recursive: bool, baselineHash: string)

  /** commonpath((parent, child)) == parent, for paths in canonical form. */
  predicate Contains(parent: string, child: string) {
    || parent == child
    || (parent == "/" && "/" <= child)
    || (parent < child && child[|parent|] == '/')
  }

  predicate Overlaps(first: WriteScope, second: WriteScope) {
    if first.path == second.path then true
    else if first.recursive && Contains(first.path, second.path) then true
    else second.recursive && Contains(second.path, first.path)
  }

  predicate Covers(held: WriteScope, requested: WriteScope) {
    || held.path == requested.path
    || (held.recursive && Contains(held.path, requested.path))
  }

  predicate ScopeSetsOverlap(first: seq<WriteScope>, second: seq<WriteScope>) {
    exists left, right :: left in first && right in second && Overlaps(left, right)
  }

  predicate CoversAll(held: seq<WriteScope>, requested: seq<WriteScope>) {
    forall r :: r in requested ==> exists h :: h in held && Covers(h, r)
  }

  /*---------------------------- what a scope means ----------------------------*/

  /** The files a scope lets its holder write. */
  predicate Protects(s: WriteScope, p: string) {
    s.path == p || (s.recursive && Contains(s.path, p))
  }

  predicate ProtectsAny(ss: seq<WriteScope>, p: string) {
    exists s :: s in ss && Protects(s, p)
  }

  /** The path below the root with these components. */
  function PathOf(components: seq<string>): string {
    if components == [] then "/" else Joined(components)
  }

  function Joined(components: seq<string>): string {
    if components == [] then "" else "/" + components[0] + Joined(components[1..])
  }

  predicate Component(name: string) {
    name != "" && '/' !in name
  }

  /** A path contains another exactly when its components are the first ones of the other. */
  lemma {:induction false} ContainsMeans(parent: seq<string>, child: seq<string>)
    requires forall c :: c in parent ==> Component(c)
    requires forall c :: c in child ==> Component(c)
    ensures Contains(PathOf(parent), PathOf(child)) <==> parent <= child
  {
    JoinedPrefix(parent, child);
    if parent != [] {
      assert parent[0] in parent;
      assert PathOf(parent)[1] == parent[0][0];
    }
    if child != [] {
      assert PathOf(child)[0] == '/';
    }
  }

  lemma {:induction false} JoinedPrefix(a: seq<string>, b: seq<string>)
    requires forall c :: c in a ==> Component(c)
    requires forall c :: c in b ==> Component(c)
    ensures a <= b <==> Joined(a) <= Joined(b) && (|Joined(a)| < |Joined(b)| ==> Joined(b)[|Joined(a)|] == '/')
  {
    if a != [] && b != [] {
      var x, y, restA, restB := a[0], b[0], Joined(a[1..]), Joined(b[1..]);
      assert x in a && y in b;
      JoinedPrefix(a[1..], b[1..]);
      assert a == [x] + a[1..] && b == [y] + b[1..];
      assert Joined(a) == "/" + x + restA && Joined(b) == "/" + y + restB;
      assert restA != "" ==> restA[0] == '/';
      assert restB != "" ==> restB[0] == '/';
      if Joined(a) <= Joined(b) && (|Joined(a)| < |Joined(b)| ==> Joined(b)[|Joined(a)|] == '/') {
        SameFirst(x, y, restA, restB);
        assert Joined(b)[1 + |x|..] == restB && Joined(a)[1 + |x|..] == restA;
      }
      if a <= b {
        assert x == y && a[1..] <= b[1..];
      }
    }
  }

  /** A component ends where the next one begins. */
  lemma {:induction false} SameFirst(x: string, y: string, restA: string, restB: string)
    requires '/' !in x && '/' !in y
    requires restA != "" ==> restA[0] == '/'
    requires restB != "" ==> restB[0] == '/'
    requires var a, b := "/" + x + restA, "/" + y + restB;
             a <= b && (|a| < |b| ==> b[|a|] == '/')
    ensures x == y
  {
    var a, b := "/" + x + restA, "/" + y + restB;
    assert forall k :: 0 <= k < |x| ==> a[1 + k] == x[k] && x[k] in x;
    assert forall k :: 0 <= k < |y| ==> b[1 + k] == y[k] && y[k] in y;
    assert restA != "" ==> a[1 + |x|] == '/';
    assert restB != "" ==> b[1 + |y|] == '/';
    assert forall k :: 0 <= k < |a| ==> a[k] == b[k];
    if |x| == |y| {
      assert x == a[1..1 + |x|] && y == b[1..1 + |x|];
    }
  }

  lemma {:induction false} ContainsTransitive(a: string, b: string, c: string)
    requires Contains(a, b) && Contains(b, c)
    ensures Contains(a, c)
  {
  }

  /** Containment is a tree order: the ancestors of a path form a chain. */
  lemma {:induction false} AncestorsFormAChain(a: string, b: string, c: string)
    requires Contains(a, c) && Contains(b, c)
    ensures Contains(a, b) || Contains(b, a)
  {
    if a < c && b < c {
      if |a| < |b| {
        assert a <= b && b[|a|] == c[|a|];
      } else if |b| < |a| {
        assert b <= a && a[|b|] == c[|b|];
      } else {
        assert a == c[..|a|] == b;
      }
    }
  }

  lemma {:induction false} ContainsStrLeq(parent: string, child: string)
    requires Contains(parent, child)
    ensures StrLeq(parent, child)
  {
    PrefixStrLeq(parent, child);
  }

  /** Two scopes overlap exactly when some file lies in both. */
  lemma {:induction false} OverlapsIffCommonFile(first: WriteScope, second: WriteScope)
    ensures Overlaps(first, second) <==> exists p :: Protects(first, p) && Protects(second, p)
  {
    if Overlaps(first, second) {
      if first.recursive && Contains(first.path, second.path) {
        assert Protects(first, second.path) && Protects(second, second.path);
      } else {
        assert Protects(first, first.path) && Protects(second, first.path);
      }
    }
    if p :| Protects(first, p) && Protects(second, p) {
      if first.path != p && second.path != p {
        AncestorsFormAChain(first.path, second.path, p);
      }
    }
  }

  lemma {:induction false} OverlapsSymmetric(first: seq<WriteScope>, second: seq<WriteScope>)
    ensures ScopeSetsOverlap(first, second) <==> ScopeSetsOverlap(second, first)
  {
    if left, right :| left in first && right in second && Overlaps(left, right) {
      assert Overlaps(right, left);
    }
    if left, right :| left in second && right in first && Overlaps(left, right) {
      assert Overlaps(right, left);
    }
  }

  /** Two scope lists overlap exactly when some file lies in both. */
  lemma {:induction false} SetsOverlapIffCommonFile(first: seq<WriteScope>, second: seq<WriteScope>)
    ensures ScopeSetsOverlap(first, second)
       <==> exists p :: ProtectsAny(first, p) && ProtectsAny(second, p)
  {
    if ScopeSetsOverlap(first, second) {
      var left, right :| left in first && right in second && Overlaps(left, right);
      OverlapsIffCommonFile(left, right);
      var p :| Protects(left, p) && Protects(right, p);
      assert ProtectsAny(first, p) && ProtectsAny(second, p);
    }
    if p :| ProtectsAny(first, p) && ProtectsAny(second, p) {
      var left :| left in first && Protects(left, p);
      var right :| right in second && Protects(right, p);
      OverlapsIffCommonFile(left, right);
    }
  }

  /** The overlap verdict depends on the protected files only. */
  lemma {:induction false} OverlapDependsOnMeaning(a: seq<WriteScope>, a': seq<WriteScope>, b: seq<WriteScope>)
    requires forall p :: ProtectsAny(a, p) <==> ProtectsAny(a', p)
    ensures ScopeSetsOverlap(a, b) <==> ScopeSetsOverlap(a', b)
    ensures ScopeSetsOverlap(b, a) <==> ScopeSetsOverlap(b, a')
  {
    SetsOverlapIffCommonFile(a, b);
    SetsOverlapIffCommonFile(a', b);
    OverlapsSymmetric(a, b);
    OverlapsSymmetric(a', b);
  }

  /*------------------------------- coverage -----------------------------------*/

  /** Scopes read back from the registry never have an empty path. */
  predicate NamedPaths(ss: seq<WriteScope>) {
    forall s :: s in ss ==> s.path != ""
  }

  /** Every recursive request has a recursive hold at or above it. */
  predicate RecursiveRequestsHeldRecursively(held: seq<WriteScope>, requested: seq<WriteScope>) {
    forall r :: r in requested && r.recursive ==>
      exists h :: h in held && h.recursive && Contains(h.path, r.path)
  }

  function Xs(n: nat): (s: string)
    ensures |s| == n && forall i :: 0 <= i < n ==> s[i] == 'x'
  {
    if n == 0 then "" else Xs(n - 1) + "x"
  }

  function LongestPath(ss: seq<WriteScope>): (n: nat)
    ensures forall s :: s in ss ==> |s.path| <= n
  {
    if ss == [] then 0
    else
      var rest := LongestPath(ss[1..]);
      assert ss == [ss[0]] + ss[1..];
      if |ss[0].path| > rest then |ss[0].path| else rest
  }

  /** A child of path whose last component is longer than every held path. */
  function FreshChild(held: seq<WriteScope>, path: string): string {
    (if path == "/" then "/" else path + "/") + Xs(LongestPath(held) + 1)
  }

  lemma {:induction false} FreshChildNeedsRecursiveHold(held: seq<WriteScope>, path: string, h: WriteScope)
    requires path != "" && h in held && Protects(h, FreshChild(held, path))
    ensures h.recursive && Contains(h.path, path)
  {
    var child := FreshChild(held, path);
    assert |h.path| <= LongestPath(held) < |child|;
    assert forall k :: |path| < k < |child| ==> child[k] == 'x';
    if h.path != "/" {
      assert h.path < child && child[|h.path|] == '/';
      assert h.path <= path;
    } else if path != "/" {
      assert path[0] == child[0];
    }
  }

  /** A hold protects every requested file exactly when the coverage test passes
      and no recursive request is met only by a plain hold at its own path. */
  lemma {:induction false} CoverageExact(held: seq<WriteScope>, requested: seq<WriteScope>)
    requires NamedPaths(requested)
    ensures (forall p :: ProtectsAny(requested, p) ==> ProtectsAny(held, p))
       <==> CoversAll(held, requested) && RecursiveRequestsHeldRecursively(held, requested)
  {
    if forall p :: ProtectsAny(requested, p) ==> ProtectsAny(held, p) {
      forall r | r in requested
        ensures exists h :: h in held && Covers(h, r)
      {
        assert Protects(r, r.path);
        assert ProtectsAny(requested, r.path);
        var h :| h in held && Protects(h, r.path);
        assert Covers(h, r);
      }
      forall r | r in requested && r.recursive
        ensures exists h :: h in held && h.recursive && Contains(h.path, r.path)
      {
        var child := FreshChild(held, r.path);
        assert Contains(r.path, child);
        assert Protects(r, child);
        assert ProtectsAny(requested, child);
        var h :| h in held && Protects(h, child);
        FreshChildNeedsRecursiveHold(held, r.path, h);
      }
    }
    if CoversAll(held, requested) && RecursiveRequestsHeldRecursively(held, requested) {
      forall p | ProtectsAny(requested, p)
        ensures ProtectsAny(held, p)
      {
        var r :| r in requested && Protects(r, p);
        if r.path == p {
          var h :| h in held && Covers(h, r);
          assert Protects(h, p);
        } else {
          var h :| h in held && h.recursive && Contains(h.path, r.path);
          ContainsTransitive(h.path, r.path, p);
          assert Protects(h, p);
        }
      }
    }
  }

  /** The coverage test alone is too weak: a plain hold on a directory answers a
      recursive request for it without protecting the files below. */
  lemma {:induction false} CoverageTestAloneIsNotEnough()
    ensures var held := [WriteScope("/w", false, "")];
            var requested := [WriteScope("/w", true, "")];
            CoversAll(held, requested)
            && ProtectsAny(requested, "/w/a") && !ProtectsAny(held, "/w/a")
  {
    var held := [WriteScope("/w", false, "")];
    var requested := [WriteScope("/w", true, "")];
    assert Covers(held[0], requested[0]);
    assert Contains("/w", "/w/a");
    assert Protects(requested[0], "/w/a");
  }

  /*------------------------------ normal form ---------------------------------*/

  predicate SameKey(a: WriteScope, b: WriteScope) {
    a.path == b.path && a.recursive == b.recursive
  }

  /** Dictionary update: replaces the entry of the same key or appends. */
  function Put(acc: seq<WriteScope>, s: WriteScope): seq<WriteScope> {
    if acc == [] then [s]
    else if SameKey(acc[0], s) then [s] + acc[1..]
    else [acc[0]] + Put(acc[1..], s)
  }

  function Dedup(ss: seq<WriteScope>): seq<WriteScope> {
    if ss == [] then [] else Put(Dedup(ss[..|ss| - 1]), ss[|ss| - 1])
  }

  /** The sort key (path, not recursive). */
  predicate ScopeLeq(a: WriteScope, b: WriteScope) {
    if a.path == b.path then a.recursive || !b.recursive else StrLeq(a.path, b.path)
  }

  predicate Subsumed(compact: seq<WriteScope>, s: WriteScope) {
    exists e :: e in compact && e.recursive && Contains(e.path, s.path)
  }

  function Compact(ordered: seq<WriteScope>): seq<WriteScope> {
    if ordered == [] then []
    else
      var init := Compact(ordered[..|ordered| - 1]);
      var last := ordered[|ordered| - 1];
      if Subsumed(init, last) then init else init + [last]
  }

  function Normalize(ss: seq<WriteScope>): seq<WriteScope> {
    Compact(Sort(Dedup(ss), ScopeLeq))
  }

  /** The two loops of _normalize_scopes. */
  method NormalizeScopes(scopes: seq<WriteScope>) returns (compact: seq<WriteScope>)
    ensures compact == Normalize(scopes)
    ensures forall p :: ProtectsAny(compact, p) <==> ProtectsAny(scopes, p)
    ensures NoneUnderAnother(compact)
  {
    var normalized := Collect(scopes);
    var ordered := Sort(normalized, ScopeLeq);
    compact := DropContained(ordered);
    NormalizeMeaning(scopes);
    NormalizeMinimal(scopes);
  }

  method Collect(scopes: seq<WriteScope>) returns (normalized: seq<WriteScope>)
    ensures normalized == Dedup(scopes)
  {
    normalized := [];
    for i := 0 to |scopes|
      invariant normalized == Dedup(scopes[..i])
    {
      assert scopes[..i + 1][..i] == scopes[..i];
      normalized := Put(normalized, scopes[i]);
    }
    assert scopes[..|scopes|] == scopes;
  }

  method DropContained(ordered: seq<WriteScope>) returns (compact: seq<WriteScope>)
    ensures compact == Compact(ordered)
  {
    compact := [];
    for i := 0 to |ordered|
      invariant compact == Compact(ordered[..i])
    {
      assert ordered[..i + 1][..i] == ordered[..i];
      if !Subsumed(compact, ordered[i]) {
        compact := compact + [ordered[i]];
      }
    }
    assert ordered[..|ordered|] == ordered;
  }

  ghost predicate DistinctKeys(ss: seq<WriteScope>) {
    forall i, j :: 0 <= i < j < |ss| ==> !SameKey(ss[i], ss[j])
  }

  lemma {:induction false} PutProperties(acc: seq<WriteScope>, s: WriteScope)
    requires DistinctKeys(acc)
    ensures DistinctKeys(Put(acc, s))
    ensures forall t :: t in Put(acc, s) <==> t == s || (t in acc && !SameKey(t, s))
  {
    if acc != [] {
      PutProperties(acc[1..], s);
      var rest := Put(acc[1..], s);
      assert acc == [acc[0]] + acc[1..];
      if SameKey(acc[0], s) {
        forall t | t in acc[1..]
          ensures !SameKey(t, s)
        {
          var j :| 0 <= j < |acc[1..]| && acc[1..][j] == t;
          assert acc[j + 1] == t;
        }
      } else {
        forall j | 0 <= j < |rest|
          ensures !SameKey(acc[0], rest[j])
        {
          assert rest[j] in rest;
          if rest[j] != s {
            assert rest[j] in acc[1..];
            var k :| 0 <= k < |acc[1..]| && acc[1..][k] == rest[j];
            assert acc[k + 1] == rest[j];
          }
        }
      }
    }
  }

  lemma {:induction false} DedupSound(ss: seq<WriteScope>)
    ensures DistinctKeys(Dedup(ss))
    ensures forall t :: t in Dedup(ss) ==> t in ss
  {
    if ss != [] {
      var n := |ss| - 1;
      DedupSound(ss[..n]);
      PutProperties(Dedup(ss[..n]), ss[n]);
    }
  }

  lemma {:induction false} DedupComplete(ss: seq<WriteScope>, t: WriteScope) returns (d: WriteScope)
    requires t in ss
    ensures d in Dedup(ss) && SameKey(d, t)
  {
    var n := |ss| - 1;
    DedupSound(ss[..n]);
    PutProperties(Dedup(ss[..n]), ss[n]);
    if SameKey(ss[n], t) {
      d := ss[n];
    } else {
      d := DedupComplete(ss[..n], t);
    }
  }

  lemma {:induction false} ScopeLeqTotalPreorder()
    ensures TotalPreorder(ScopeLeq)
  {
    forall a, b
      ensures ScopeLeq(a, b) || ScopeLeq(b, a)
    {
      StrLeqTotal(a.path, b.path);
    }
    forall a, b, c | ScopeLeq(a, b) && ScopeLeq(b, c)
      ensures ScopeLeq(a, c)
    {
      if a.path != b.path && b.path != c.path {
        StrLeqTransitive(a.path, b.path, c.path);
        if a.path == c.path {
          StrLeqAntisymmetric(a.path, b.path);
        }
      }
    }
  }

  ghost predicate NoneUnderAnother(ss: seq<WriteScope>) {
    forall i, j :: 0 <= i < |ss| && 0 <= j < |ss| && i != j && ss[i].recursive ==>
      !Contains(ss[i].path, ss[j].path)
  }

  /** A container never sorts after what it contains. */
  lemma {:induction false} ContainerSortsFirst(a: WriteScope, b: WriteScope)
    requires a.recursive && Contains(a.path, b.path) && ScopeLeq(b, a)
    ensures SameKey(a, b)
  {
    if a.path != b.path {
      ContainsStrLeq(a.path, b.path);
      StrLeqAntisymmetric(a.path, b.path);
    }
  }

  lemma {:induction false} CompactMembers(s: seq<WriteScope>)
    ensures forall t :: t in Compact(s) ==> t in s
  {
    if s != [] {
      CompactMembers(s[..|s| - 1]);
    }
  }

  ghost predicate AllBefore(ss: seq<WriteScope>, last: WriteScope) {
    forall t :: t in ss ==> ScopeLeq(t, last) && !SameKey(t, last)
  }

  lemma {:induction false} CompactOrdered(s: seq<WriteScope>)
    requires SortedBy(s, ScopeLeq) && DistinctKeys(s)
    ensures SortedBy(Compact(s), ScopeLeq) && DistinctKeys(Compact(s))
    ensures NoneUnderAnother(Compact(s))
  {
    if s != [] {
      var n := |s| - 1;
      var init := Compact(s[..n]);
      CompactOrdered(s[..n]);
      CompactMembers(s[..n]);
      assert AllBefore(s[..n], s[n]);
      if !Subsumed(init, s[n]) {
        forall j | 0 <= j < |init|
          ensures ScopeLeq(init[j], s[n]) && !SameKey(init[j], s[n])
          ensures s[n].recursive ==> !Contains(s[n].path, init[j].path)
          ensures init[j].recursive ==> !Contains(init[j].path, s[n].path)
        {
          assert init[j] in init;
          if s[n].recursive && Contains(s[n].path, init[j].path) {
            ContainerSortsFirst(s[n], init[j]);
          }
        }
      }
    }
  }

  /** What the compaction drops lies under a recursive scope it keeps. */
  lemma {:induction false} CompactComplete(s: seq<WriteScope>, t: WriteScope)
    requires t in s
    ensures t in Compact(s) || Subsumed(Compact(s), t)
  {
    var n := |s| - 1;
    var init := Compact(s[..n]);
    if t in s[..n] {
      CompactComplete(s[..n], t);
      if t !in init {
        var e :| e in init && e.recursive && Contains(e.path, t.path);
        assert e in Compact(s);
      }
    } else {
      assert t == s[n];
    }
  }

  lemma {:induction false} SortedDedup(ss: seq<WriteScope>)
    ensures var ordered := Sort(Dedup(ss), ScopeLeq);
            SortedBy(ordered, ScopeLeq) && DistinctKeys(ordered)
  {
    var d := Dedup(ss);
    var ordered := Sort(d, ScopeLeq);
    DedupSound(ss);
    ScopeLeqTotalPreorder();
    SortSorted(d, ScopeLeq);
    SortMembers(d, ScopeLeq);
    assert Distinct(d) by {
      forall i, j | 0 <= i < j < |d|
        ensures d[i] != d[j]
      {
        assert !SameKey(d[i], d[j]);
      }
    }
    SortDistinct(d, ScopeLeq);
    forall i, j | 0 <= i < j < |ordered|
      ensures !SameKey(ordered[i], ordered[j])
    {
      assert ordered[i] in d && ordered[j] in d;
      var k :| 0 <= k < |d| && d[k] == ordered[i];
      var l :| 0 <= l < |d| && d[l] == ordered[j];
      assert ordered[i] != ordered[j];
      assert k < l || l < k;
    }
  }

  /** The normal form protects the same files. */
  lemma {:induction false} NormalizeMeaning(ss: seq<WriteScope>)
    ensures forall p :: ProtectsAny(Normalize(ss), p) <==> ProtectsAny(ss, p)
  {
    var ordered := Sort(Dedup(ss), ScopeLeq);
    var r := Normalize(ss);
    SortMembers(Dedup(ss), ScopeLeq);
    forall p | ProtectsAny(r, p)
      ensures ProtectsAny(ss, p)
    {
      DedupSound(ss);
      CompactMembers(ordered);
      var s :| s in r && Protects(s, p);
      assert s in ordered;
    }
    forall p | ProtectsAny(ss, p)
      ensures ProtectsAny(r, p)
    {
      var s :| s in ss && Protects(s, p);
      var d := DedupComplete(ss, s);
      CompactComplete(ordered, d);
      assert Protects(d, p);
      if d !in r {
        var e :| e in r && e.recursive && Contains(e.path, d.path);
        if d.path != p {
          ContainsTransitive(e.path, d.path, p);
        }
        assert Protects(e, p);
      }
    }
  }

  /** No scope of the normal form lies under a recursive one. */
  lemma {:induction false} NormalizeMinimal(ss: seq<WriteScope>)
    ensures NoneUnderAnother(Normalize(ss))
  {
    SortedDedup(ss);
    CompactOrdered(Sort(Dedup(ss), ScopeLeq));
  }

  lemma {:induction false} PutFresh(acc: seq<WriteScope>, s: WriteScope)
    requires forall i :: 0 <= i < |acc| ==> !SameKey(acc[i], s)
    ensures Put(acc, s) == acc + [s]
  {
    if acc != [] {
      PutFresh(acc[1..], s);
      assert acc + [s] == [acc[0]] + (acc[1..] + [s]);
    }
  }

  lemma {:induction false} DedupFixpoint(ss: seq<WriteScope>)
    requires DistinctKeys(ss)
    ensures Dedup(ss) == ss
  {
    if ss != [] {
      var n := |ss| - 1;
      DedupFixpoint(ss[..n]);
      PutFresh(ss[..n], ss[n]);
      assert ss == ss[..n] + [ss[n]];
    }
  }

  lemma {:induction false} CompactFixpoint(ss: seq<WriteScope>)
    requires NoneUnderAnother(ss)
    ensures Compact(ss) == ss
  {
    if ss != [] {
      var n := |ss| - 1;
      CompactFixpoint(ss[..n]);
      forall e | e in ss[..n] && e.recursive
        ensures !Contains(e.path, ss[n].path)
      {
      }
      assert ss == ss[..n] + [ss[n]];
    }
  }

  lemma {:induction false} NormalizeIdempotent(ss: seq<WriteScope>)
    ensures Normalize(Normalize(ss)) == Normalize(ss)
  {
    var r := Normalize(ss);
    SortedDedup(ss);
    CompactOrdered(Sort(Dedup(ss), ScopeLeq));
    DedupFixpoint(r);
    SortFixpoint(r, ScopeLeq);
    CompactFixpoint(r);
  }

  /** Normalising either side never changes an overlap verdict. */
  lemma {:induction false} NormalizeKeepsOverlap(a: seq<WriteScope>, b: seq<WriteScope>)
    ensures ScopeSetsOverlap(Normalize(a), Normalize(b)) <==> ScopeSetsOverlap(a, b)
  {
    NormalizeMeaning(a);
    NormalizeMeaning(b);
    OverlapDependsOnMeaning(a, Normalize(a), b);
    OverlapDependsOnMeaning(b, Normalize(b), Normalize(a));
  }

  /** Every input scope is covered by its normal form, recursive ones recursively. */
  lemma {:induction false} NormalizeCovers(ss: seq<WriteScope>)
    ensures CoversAll(Normalize(ss), ss) && RecursiveRequestsHeldRecursively(Normalize(ss), ss)
  {
    var ordered := Sort(Dedup(ss), ScopeLeq);
    var r := Normalize(ss);
    SortMembers(Dedup(ss), ScopeLeq);
    forall t | t in ss
      ensures exists h :: h in r && Covers(h, t) && (t.recursive ==> h.recursive && Contains(h.path, t.path))
    {
      var d := DedupComplete(ss, t);
      CompactComplete(ordered, d);
      assert d in r || Subsumed(r, d);
      assert d in r ==> Covers(d, t);
    }
  }
}
