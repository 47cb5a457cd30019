/** Resolution of declared prompt conflicts (agent/app/prompt/prompt_resolver.py,
    agent/app/prompt/prompt_metadata.py): per conflict key and overlapping scopes one
    segment wins, and an undecidable tie is an error. */
module PromptResolver {
  import opened Ordering
  import opened Text

  datatype Source = StaticSystem | WorkspaceFile | UpstreamProject | Runtime | SecurityRuntime | UserTask | Memory
                  | History | ToolContract

  datatype Authority = Security | Core | RuntimeAuthority | Project | User | Context

  datatype Binding = Hard | Required | Default | Reference

  datatype Segment = Segment(content: string, source: Source, authority: Authority, binding: Binding,
                             scope: Option<string>, conflictKey: Option<string>)

  function BindingRank(b: Binding): int {
    match b { case Reference => 10 case Default => 20 case Required => 30 case Hard => 40 }
  }

  function AuthorityRank(a: Authority): int {
    match a { case Context => 10 case User => 20 case Project => 30 case RuntimeAuthority => 40 case Core => 50 case Security => 60 }
  }

  /*-------------------------------- source policies ----------------------------*/

  datatype Trust = Trusted | UserContext | Untrusted

  datatype Policy = Policy(defaultAuthority: Authority, defaultBinding: Binding, defaultTrust: Trust,
                           maxAuthority: Authority, maxBinding: Binding, allowedTrust: set<Trust>)

  function PolicyOf(source: Source): Policy {
    match source
    case StaticSystem => Policy(Core, Default, Trusted, Core, Hard, {Trusted})
    case WorkspaceFile => Policy(Project, Required, Trusted, Project, Required, {Trusted})
    case UpstreamProject => Policy(Project, Required, Trusted, Project, Required, {Trusted})
    case Runtime => Policy(RuntimeAuthority, Reference, Trusted, RuntimeAuthority, Required, {Trusted, UserContext, Untrusted})
    case SecurityRuntime => Policy(Security, Hard, Trusted, Security, Hard, {Trusted})
    case UserTask => Policy(User, Required, UserContext, User, Required, {UserContext})
    case Memory => Policy(Context, Reference, UserContext, Context, Reference, {UserContext})
    case History => Policy(Context, Reference, UserContext, Context, Reference, {UserContext})
    case ToolContract => Policy(RuntimeAuthority, Required, Trusted, RuntimeAuthority, Required, {Trusted})
  }

  predicate WithinPolicy(segment: Segment) {
    && AuthorityRank(segment.authority) <= AuthorityRank(PolicyOf(segment.source).maxAuthority)
    && BindingRank(segment.binding) <= BindingRank(PolicyOf(segment.source).maxBinding)
  }

  /*------------------------------- creating a segment --------------------------*/

  datatype Target = SystemPrompt | Messages | Tools | ResolutionOnly

  datatype Role = SystemRole | UserRole | AssistantRole

  datatype Kind = Instruction | Fact | Summary | Happening | Contract

  /** What a segment is made from; isSchema says that the content is an object, and
      capability that the maker is the factory of the security runtime. */
  datatype Draft = Draft(content: string, isSchema: bool, target: Target, role: Role, kind: Kind, source: Source,
                         authority: Option<Authority>, binding: Option<Binding>, trust: Option<Trust>,
                         scope: Option<string>, sourceRef: Option<string>, conflictKey: Option<string>, capability: bool)

  datatype SegmentError = NoCapability | AboveCap | InvalidKey | KeyNotAllowed | WrongRoute

  predicate KeyChar(c: char) {
    'a' <= c <= 'z' || 'A' <= c <= 'Z' || '0' <= c <= '9' || c in {'.', '_', ':', '-'}
  }

  predicate ValidKey(key: string) {
    key != "" && forall c :: c in key ==> KeyChar(c)
  }

  function TrustOf(d: Draft): Trust {
    if d.trust.Some? then d.trust.value else PolicyOf(d.source).defaultTrust
  }

  predicate WithinCaps(d: Draft) {
    && (d.authority.Some? ==> AuthorityRank(d.authority.value) <= AuthorityRank(PolicyOf(d.source).maxAuthority))
    && (d.binding.Some? ==> BindingRank(d.binding.value) <= BindingRank(PolicyOf(d.source).maxBinding))
    && (d.trust.Some? ==> d.trust.value in PolicyOf(d.source).allowedTrust)
  }

  /** Only an instruction for the system prompt or the resolution may have a key,
      and it must name where it comes from. */
  predicate KeyAllowed(d: Draft) {
    d.conflictKey.Some? ==>
      d.kind.Instruction? && d.target in {SystemPrompt, ResolutionOnly} && d.sourceRef.Some? && Strip(d.sourceRef.value) != ""
  }

  /** Which source may go where. */
  predicate Routed(d: Draft) {
    && (d.source in {Memory, History} ==> d.target.Messages? && d.role.UserRole? && TrustOf(d).UserContext?)
    && (d.source.UserTask? ==> d.target in {Messages, ResolutionOnly} && d.role.UserRole? && TrustOf(d).UserContext?)
    && (d.source.ToolContract? ==> d.target.Tools?)
    && (d.source.Runtime? && d.target.Messages? ==> d.role.UserRole? && TrustOf(d).UserContext?)
    && (d.source in {StaticSystem, SecurityRuntime, WorkspaceFile, UpstreamProject} ==> d.target.SystemPrompt?)
    && (d.target in {SystemPrompt, Tools} ==> TrustOf(d).Trusted?)
    && d.isSchema == d.target.Tools?
  }

  /** Segment creation: missing metadata is derived from the policy of the source,
      metadata above its caps and every other route is refused. */
  function CreateSegment(d: Draft): (r: Result<Segment, SegmentError>)
    ensures r.Ok? ==> WithinPolicy(r.value) && r.value.content == d.content && r.value.source == d.source
    ensures r.Ok? ==> (r.value.conflictKey.Some? <==> d.conflictKey.Some?)
                      && (r.value.conflictKey.Some? ==> ValidKey(r.value.conflictKey.value) && Trimmed(r.value.conflictKey.value))
    ensures r.Ok? <==> && d.capability == d.source.SecurityRuntime? && WithinCaps(d) && KeyAllowed(d) && Routed(d)
                       && (d.conflictKey.Some? ==> ValidKey(Strip(d.conflictKey.value)))
  {
    var policy := PolicyOf(d.source);
    var a := if d.authority.Some? then d.authority.value else policy.defaultAuthority;
    var b := if d.binding.Some? then d.binding.value else policy.defaultBinding;
    var key := if d.conflictKey.Some? then Some(Strip(d.conflictKey.value)) else None;
    if d.capability != d.source.SecurityRuntime? then Err(NoCapability)
    else if AuthorityRank(a) > AuthorityRank(policy.maxAuthority) || BindingRank(b) > BindingRank(policy.maxBinding)
         || TrustOf(d) !in policy.allowedTrust then Err(AboveCap)
    else if key.Some? && !ValidKey(key.value) then Err(InvalidKey)
    else if !KeyAllowed(d) then Err(KeyNotAllowed)
    else if !Routed(d) then Err(WrongRoute)
    else
      assert key.Some? ==> Trimmed(key.value) by {
        if key.Some? {
          StripTrims(d.conflictKey.value);
        }
      }
      Ok(Segment(d.content, d.source, a, b, d.scope, key))
  }

  /** What the model is told as system prompt or tool definition is trusted, and
      never comes from the user, from memory or from history; a hard instruction
      comes from the application itself or its security runtime. */
  lemma {:induction false} SystemIsTrusted(d: Draft)
    requires CreateSegment(d).Ok?
    ensures d.target in {SystemPrompt, Tools} ==> TrustOf(d).Trusted? && d.source !in {UserTask, Memory, History}
    ensures CreateSegment(d).value.binding.Hard? ==> d.source in {StaticSystem, SecurityRuntime} && d.target.SystemPrompt?
    ensures CreateSegment(d).value.conflictKey.Some? ==>
              d.source !in {Memory, History, ToolContract} && (d.source.UserTask? ==> d.target.ResolutionOnly?)
  {
  }

  predicate CappedBelowHard(source: Source) {
    BindingRank(PolicyOf(source).maxBinding) < BindingRank(Hard)
  }

  /*------------------------------------ scopes ---------------------------------*/

  function Slashes(s: string): string {
    if s == "" then "" else [if s[0] == '\\' then '/' else s[0]] + Slashes(s[1..])
  }

  function DropLastSlashes(s: string): string {
    if s != "" && s[|s| - 1] == '/' then DropLastSlashes(s[..|s| - 1]) else s
  }

  function NormalScope(scope: Option<string>): string {
    DropLastSlashes(Slashes(Strip(if scope.Some? then scope.value else "")))
  }

  predicate Universal(scope: Option<string>) {
    NormalScope(scope) in {"", "global", "*"}
  }

  predicate ScopesOverlap(left: Option<string>, right: Option<string>) {
    Universal(left) || Universal(right) || NormalScope(left) == NormalScope(right)
  }

  predicate ScopeApplies(scope: Option<string>, active: seq<string>) {
    Universal(scope) || exists a :: a in active && NormalScope(Some(a)) == NormalScope(scope)
  }

  function Specificity(scope: Option<string>): int {
    if Universal(scope) then 0 else 1
  }

  /*------------------------------------- rank ----------------------------------*/

  /** Lexicographic on binding, authority, specificity. */
  predicate ScoreGt(a: Segment, b: Segment) {
    var a1, b1 := BindingRank(a.binding), BindingRank(b.binding);
    var a2, b2 := AuthorityRank(a.authority), AuthorityRank(b.authority);
    a1 > b1 || (a1 == b1 && (a2 > b2 || (a2 == b2 && Specificity(a.scope) > Specificity(b.scope))))
  }

  predicate SameScore(a: Segment, b: Segment) { !ScoreGt(a, b) && !ScoreGt(b, a) }

  lemma {:induction false} ScoreOrder(a: Segment, b: Segment, c: Segment)
    ensures !(ScoreGt(a, b) && ScoreGt(b, a))
    ensures !ScoreGt(b, a) && !ScoreGt(c, b) ==> !ScoreGt(c, a)
    ensures SameScore(a, b) <==> a.binding == b.binding && a.authority == b.authority
                                 && Specificity(a.scope) == Specificity(b.scope)
  {
  }

  /** A segment with its input position. */
  datatype Candidate = Candidate(index: nat, segment: Segment)

  /** The order of _candidate_rank: ties go to the earlier position. */
  predicate Beats(a: Candidate, b: Candidate) {
    ScoreGt(a.segment, b.segment) || (!ScoreGt(b.segment, a.segment) && a.index <= b.index)
  }

  lemma {:induction false} BeatsOrder(a: Candidate, b: Candidate, c: Candidate)
    ensures Beats(a, b) || Beats(b, a)
    ensures Beats(a, b) && Beats(b, a) ==> a.index == b.index
    ensures Beats(a, b) && Beats(b, c) ==> Beats(a, c)
  {
    hide ScoreGt, SameScore;
    ScoreOrder(a.segment, b.segment, c.segment);
    ScoreOrder(b.segment, c.segment, a.segment);
    ScoreOrder(c.segment, a.segment, b.segment);
    ScoreOrder(c.segment, b.segment, a.segment);
    ScoreOrder(a.segment, c.segment, b.segment);
    ScoreOrder(b.segment, a.segment, c.segment);
  }

  /*-------------------------- what a resolution must be ------------------------*/

  predicate Applies(x: Segment, active: Option<seq<string>>) {
    active.Some? ==> ScopeApplies(x.scope, active.value)
  }

  /** The segments that take part in the conflict of a key. */
  predicate Takes(x: Segment, active: Option<seq<string>>, key: string) {
    Applies(x, active) && x.conflictKey == Some(key)
  }

  /** Two participants whose scopes are linked through overlapping scopes of
      participants; the overlap itself is not transitive. */
  ghost predicate Linked(s: seq<Segment>, active: Option<seq<string>>, key: string, x: Segment, y: Segment) {
    && x in s && y in s && Takes(x, active, key) && Takes(y, active, key)
    && (ScopesOverlap(x.scope, y.scope) || exists u :: u in s && Takes(u, active, key) && Universal(u.scope))
  }

  ghost predicate Top(s: seq<Segment>, active: Option<seq<string>>, key: string, x: Segment) {
    && x in s && Takes(x, active, key)
    && forall y :: Linked(s, active, key, x, y) ==> !ScoreGt(y, x)
  }

  /** Two different contents share the top score of one component. */
  ghost predicate TiedAt(s: seq<Segment>, active: Option<seq<string>>, key: string) {
    exists x, y :: Linked(s, active, key, x, y) && Top(s, active, key, x) && Top(s, active, key, y) && x.content != y.content
  }

  ghost predicate Accepted(s: seq<Segment>, active: Option<seq<string>>, i: nat)
    requires i < |s|
  {
    && Applies(s[i], active)
    && (s[i].conflictKey.Some? ==>
          forall j :: 0 <= j < |s| && Linked(s, active, s[i].conflictKey.value, s[i], s[j]) ==> Beats(Candidate(i, s[i]), Candidate(j, s[j])))
  }

  /*------------------------- linked means connected by a path ------------------*/

  ghost predicate Path(s: seq<Segment>, active: Option<seq<string>>, key: string, path: seq<Segment>) {
    && path != []
    && (forall k :: 0 <= k < |path| ==> path[k] in s && Takes(path[k], active, key))
    && forall k :: 0 <= k < |path| - 1 ==> ScopesOverlap(path[k].scope, path[k + 1].scope)
  }

  lemma {:induction false} PathIsLinked(s: seq<Segment>, active: Option<seq<string>>, key: string, path: seq<Segment>)
    requires Path(s, active, key, path)
    ensures Linked(s, active, key, path[0], path[|path| - 1])
  {
    hide Universal, Takes, NormalScope;
    if |path| > 1 {
      var rest := path[1..];
      assert Path(s, active, key, rest) by {
        forall k | 0 <= k < |rest| - 1
          ensures ScopesOverlap(rest[k].scope, rest[k + 1].scope)
        {
          assert rest[k] == path[k + 1] && rest[k + 1] == path[k + 2];
        }
      }
      PathIsLinked(s, active, key, rest);
      assert ScopesOverlap(path[0].scope, path[1].scope);
      assert rest[0] == path[1] && rest[|rest| - 1] == path[|path| - 1];
    }
  }

  /** Linked participants are exactly those joined by a chain of overlapping scopes. */
  lemma {:induction false} LinkedIsConnected(s: seq<Segment>, active: Option<seq<string>>, key: string, x: Segment,
          y: Segment)
    ensures Linked(s, active, key, x, y)
       <==> exists path :: Path(s, active, key, path) && path[0] == x && path[|path| - 1] == y
  {
    hide Takes, NormalScope;
    forall path | Path(s, active, key, path) && path[0] == x && path[|path| - 1] == y
      ensures Linked(s, active, key, x, y)
    {
      PathIsLinked(s, active, key, path);
    }
    if Linked(s, active, key, x, y) {
      if ScopesOverlap(x.scope, y.scope) {
        assert Path(s, active, key, [x, y]);
      } else {
        var u :| u in s && Takes(u, active, key) && Universal(u.scope);
        assert Path(s, active, key, [x, u, y]);
      }
    }
  }

  /*------------------------------ one component --------------------------------*/

  type Candidates = seq<Candidate>

  ghost predicate Best(d: Candidates, c: Candidate) {
    c in d && forall x :: x in d ==> Beats(c, x)
  }

  ghost predicate Unbeaten(d: Candidates, c: Candidate) {
    c in d && forall x :: x in d ==> !ScoreGt(x.segment, c.segment)
  }

  ghost predicate Tied(d: Candidates) {
    exists a, b :: Unbeaten(d, a) && Unbeaten(d, b) && a.segment.content != b.segment.content
  }

  /** No two candidates share an input position. */
  ghost predicate Positions(d: Candidates) { SortedBy(d, OtherPosition) }

  predicate OtherPosition(a: Candidate, b: Candidate) { a.index != b.index }

  lemma {:induction false} SamePosition(d: Candidates, a: Candidate, b: Candidate)
    requires Positions(d) && a in d && b in d && a.index == b.index
    ensures a == b
  {
    var i :| 0 <= i < |d| && d[i] == a;
    var j :| 0 <= j < |d| && d[j] == b;
    assert i < j ==> OtherPosition(d[i], d[j]);
    assert j < i ==> OtherPosition(d[j], d[i]);
  }

  lemma {:induction false} PositionsConcat(a: Candidates, b: Candidates)
    requires Positions(a) && Positions(b) && forall x, y :: x in a && y in b ==> x.index != y.index
    ensures Positions(a + b)
  {
  }

  /** max(group, key=_candidate_rank) */
  method BestOf(group: Candidates) returns (best: Candidate)
    requires group != []
    ensures Best(group, best)
  {
    hide Beats;
    best := group[0];
    BeatsOrder(best, best, best);
    for k := 1 to |group|
      invariant Best(group[..k], best)
    {
      assert group[..k + 1] == group[..k] + [group[k]];
      StepUp(group[..k], best, group[k]);
      if !Beats(best, group[k]) {
        best := group[k];
      }
    }
    assert group[..|group|] == group;
  }

  lemma {:induction false} StepUp(seen: Candidates, best: Candidate, challenger: Candidate)
    requires Best(seen, best)
    ensures Best(seen + [challenger], if Beats(best, challenger) then best else challenger)
  {
    hide Beats;
    BeatsOrder(best, challenger, challenger);
    BeatsOrder(challenger, challenger, challenger);
    forall x | x in seen
      ensures Beats(best, challenger) || Beats(challenger, x)
    {
      BeatsOrder(challenger, best, x);
    }
  }

  /** A group holds candidates of one content, not empty and each once. */
  ghost predicate OneGroup(d: Candidates, group: Candidates) {
    group != [] && Positions(group) && forall c :: c in group ==> c in d && c.segment.content == group[0].segment.content
  }

  predicate Differ(a: Candidates, b: Candidates) {
    a != [] && b != [] && a[0].segment.content != b[0].segment.content
  }

  /** Groups of equal content, pairwise of different content, covering d. */
  ghost predicate Grouping(d: Candidates, groups: seq<Candidates>) {
    && (forall g :: g in groups ==> OneGroup(d, g))
    && SortedBy(groups, Differ)
    && (forall c :: c in d ==> exists g :: g in groups && c in g)
  }

  method ContentGroups(d: Candidates) returns (groups: seq<Candidates>)
    requires Positions(d)
    ensures Grouping(d, groups)
  {
    groups := [];
    for k := 0 to |d|
      invariant Grouping(d[..k], groups)
    {
      hide OneGroup, Positions, Grouping;
      assert d[..k + 1] == d[..k] + [d[k]];
      NewPosition(d, k);
      groups := PlaceCandidate(d[..k], d[k], groups);
    }
    assert d[..|d|] == d;
  }

  ghost predicate Fresh(d: Candidates, c: Candidate) {
    forall x :: x in d ==> x.index != c.index
  }

  lemma {:induction false} NewPosition(d: Candidates, k: nat)
    requires Positions(d) && k < |d|
    ensures Fresh(d[..k], d[k])
  {
  }

  /** Into the first group of the same content, or a group of its own. */
  method PlaceCandidate(d: Candidates, c: Candidate, groups: seq<Candidates>) returns (more: seq<Candidates>)
    requires Fresh(d, c) && Grouping(d, groups)
    ensures Grouping(d + [c], more)
  {
    hide OneGroup, Fresh, SortedBy;
    GroupsNonempty(d, groups);
    for g := 0 to |groups|
      invariant forall h :: 0 <= h < g ==> groups[h] != [] && groups[h][0].segment.content != c.segment.content
    {
      if c.segment.content == groups[g][0].segment.content {
        JoinGroup(d, c, groups, g);
        return groups[g := groups[g] + [c]];
      }
    }
    OpenGroup(d, c, groups);
    more := groups + [[c]];
  }

  lemma {:induction false} GroupsNonempty(d: Candidates, groups: seq<Candidates>)
    requires Grouping(d, groups)
    ensures forall g :: 0 <= g < |groups| ==> groups[g] != []
  {
    forall g | 0 <= g < |groups|
      ensures groups[g] != []
    {
      assert groups[g] in groups;
    }
  }

  lemma {:induction false} GroupGrows(d: Candidates, c: Candidate, group: Candidates)
    requires Fresh(d, c) && OneGroup(d, group)
    ensures OneGroup(d + [c], group)
    ensures group[0].segment.content == c.segment.content ==> OneGroup(d + [c], group + [c])
  {
  }

  lemma {:induction false} SingleGroup(d: Candidates, c: Candidate)
    ensures OneGroup(d + [c], [c])
  {
  }

  lemma {:induction false} JoinGroup(d: Candidates, c: Candidate, groups: seq<Candidates>, g: nat)
    requires Fresh(d, c) && Grouping(d, groups)
    requires g < |groups| && groups[g] != [] && groups[g][0].segment.content == c.segment.content
    ensures Grouping(d + [c], groups[g := groups[g] + [c]])
  {
    hide OneGroup, Fresh;
    var more := groups[g := groups[g] + [c]];
    forall x | x in more
      ensures OneGroup(d + [c], x)
    {
      var h :| 0 <= h < |more| && more[h] == x;
      assert groups[h] in groups;
      GroupGrows(d, c, groups[h]);
    }
    GroupsNonempty(d, groups);
    assert forall h :: 0 <= h < |more| ==> more[h] != [] && more[h][0] == groups[h][0];
    forall i, j | 0 <= i < j < |more|
      ensures Differ(more[i], more[j])
    {
      assert Differ(groups[i], groups[j]);
    }
    assert more[g] in more && c in more[g];
    forall x | x in d
      ensures exists y :: y in more && x in y
    {
      var y :| y in groups && x in y;
      var h :| 0 <= h < |groups| && groups[h] == y;
      assert x in more[h] && more[h] in more;
    }
  }

  lemma {:induction false} OpenGroup(d: Candidates, c: Candidate, groups: seq<Candidates>)
    requires Fresh(d, c) && Grouping(d, groups)
    requires forall h :: 0 <= h < |groups| ==> groups[h] != [] && groups[h][0].segment.content != c.segment.content
    ensures Grouping(d + [c], groups + [[c]])
  {
    hide OneGroup, Fresh;
    var more := groups + [[c]];
    SingleGroup(d, c);
    forall x | x in groups
      ensures OneGroup(d + [c], x)
    {
      GroupGrows(d, c, x);
    }
    forall i, j | 0 <= i < j < |more|
      ensures Differ(more[i], more[j])
    {
      assert j < |groups| ==> Differ(groups[i], groups[j]);
    }
    assert more[|groups|] in more && c in [c];
    forall x | x in d
      ensures exists y :: y in more && x in y
    {
      var y :| y in groups && x in y;
      assert y in more;
    }
  }

  /** Each group's best, position by position. */
  ghost predicate BestOfEach(groups: seq<Candidates>, unique: Candidates) {
    |unique| == |groups| && forall g :: 0 <= g < |groups| ==> Best(groups[g], unique[g])
  }

  /** All group members that are not their group's best. */
  function Rest(groups: seq<Candidates>, unique: Candidates): Candidates
    requires |unique| == |groups|
  {
    if groups == [] then []
    else
      var n := |groups| - 1;
      Rest(groups[..n], unique[..n]) + Without(groups[n], unique[n])
  }

  function Without(group: Candidates, best: Candidate): Candidates {
    Filter(group, (c: Candidate) => c != best)
  }

  lemma {:induction false} RestSplits(groups: seq<Candidates>, unique: Candidates, c: Candidate)
    requires |unique| == |groups| && groups != []
    ensures var n := |groups| - 1;
            c in Rest(groups, unique) <==> c in Rest(groups[..n], unique[..n]) || (c in groups[n] && c != unique[n])
  {
  }

  lemma {:induction false} RestFrom(groups: seq<Candidates>, unique: Candidates, c: Candidate) returns (g: nat)
    requires |unique| == |groups| && c in Rest(groups, unique)
    ensures g < |groups| && c in groups[g] && c != unique[g]
  {
    hide Rest;
    EmptyRest(groups, unique);
    var n := |groups| - 1;
    RestSplits(groups, unique, c);
    if c in Rest(groups[..n], unique[..n]) {
      g := RestFrom(groups[..n], unique[..n], c);
    } else {
      g := n;
    }
  }

  lemma {:induction false} EmptyRest(groups: seq<Candidates>, unique: Candidates)
    requires |unique| == |groups| && Rest(groups, unique) != []
    ensures groups != []
  {
  }

  lemma {:induction false} RestHolds(groups: seq<Candidates>, unique: Candidates, c: Candidate, g: nat)
    requires |unique| == |groups| && g < |groups| && c in groups[g] && c != unique[g]
    ensures c in Rest(groups, unique)
    decreases |groups|
  {
    hide Rest;
    RestSplits(groups, unique, c);
    if g < |groups| - 1 {
      RestHolds(groups[..|groups| - 1], unique[..|groups| - 1], c, g);
    }
  }

  /** The best of all is the best of the groups' bests. */
  lemma {:induction false} WinnerIsBest(d: Candidates, groups: seq<Candidates>, unique: Candidates, winner: Candidate)
    requires Grouping(d, groups) && BestOfEach(groups, unique)
    requires winner in unique && forall u :: u in unique ==> Beats(winner, u)
    ensures Best(d, winner)
  {
    hide Beats, Differ, OneGroup, SortedBy;
    forall c | c in d
      ensures Beats(winner, c)
    {
      var group :| group in groups && c in group;
      var g :| 0 <= g < |groups| && groups[g] == group;
      assert unique[g] in unique;
      BeatsOrder(winner, unique[g], c);
    }
    var g :| 0 <= g < |groups| && unique[g] == winner;
    ContentOfGroup(d, groups, g, winner);
  }

  lemma {:induction false} ContentOfGroup(d: Candidates, groups: seq<Candidates>, g: nat, c: Candidate)
    requires Grouping(d, groups) && g < |groups| && c in groups[g]
    ensures c in d && groups[g] != [] && c.segment.content == groups[g][0].segment.content
  {
    assert groups[g] in groups;
  }

  lemma {:induction false} SameContentSameGroup(d: Candidates, groups: seq<Candidates>, g: nat, h: nat, a: Candidate,
          b: Candidate)
    requires Grouping(d, groups) && g < |groups| && h < |groups| && a in groups[g] && b in groups[h]
    ensures a.segment.content == b.segment.content <==> g == h
  {
    hide OneGroup, Grouping;
    ContentOfGroup(d, groups, g, a);
    ContentOfGroup(d, groups, h, b);
    GroupsDiffer(d, groups, g, h);
    GroupsDiffer(d, groups, h, g);
  }

  lemma {:induction false} GroupsDiffer(d: Candidates, groups: seq<Candidates>, g: nat, h: nat)
    requires Grouping(d, groups) && g < |groups| && h < |groups|
    ensures g < h ==> Differ(groups[g], groups[h])
  {
  }

  /** A tie at the top is two groups' bests with the winner's score. */
  lemma {:induction false} TieSeen(d: Candidates, groups: seq<Candidates>, unique: Candidates, winner: Candidate)
    requires Grouping(d, groups) && BestOfEach(groups, unique) && winner in unique && Best(d, winner)
    requires exists u :: u in unique && u != winner && SameScore(u.segment, winner.segment)
    ensures Tied(d)
  {
    hide Grouping, ScoreGt;
    var u :| u in unique && u != winner && SameScore(u.segment, winner.segment);
    var g :| 0 <= g < |unique| && unique[g] == u;
    var h :| 0 <= h < |unique| && unique[h] == winner;
    SameContentSameGroup(d, groups, g, h, u, winner);
    ContentOfGroup(d, groups, g, u);
    forall x | x in d
      ensures !ScoreGt(x.segment, winner.segment) && !ScoreGt(x.segment, u.segment)
    {
      assert Beats(winner, x);
      ScoreOrder(winner.segment, x.segment, winner.segment);
      ScoreOrder(u.segment, winner.segment, x.segment);
    }
    assert Unbeaten(d, winner) && Unbeaten(d, u);
  }

  lemma {:induction false} BestOfTied(d: Candidates, groups: seq<Candidates>, unique: Candidates, winner: Candidate,
          a: Candidate)
      returns (g: nat)
    requires Grouping(d, groups) && BestOfEach(groups, unique) && Best(d, winner) && Unbeaten(d, a)
    ensures g < |groups| && a in groups[g] && unique[g] in groups[g] && SameScore(unique[g].segment, winner.segment)
  {
    hide ScoreGt, OneGroup;
    var group :| group in groups && a in group;
    g :| 0 <= g < |groups| && groups[g] == group;
    ContentOfGroup(d, groups, g, unique[g]);
    assert Beats(unique[g], a) && Beats(winner, unique[g]);
    assert !ScoreGt(winner.segment, a.segment);
    ScoreOrder(unique[g].segment, a.segment, winner.segment);
    ScoreOrder(winner.segment, unique[g].segment, a.segment);
  }

  lemma {:induction false} TieShows(d: Candidates, groups: seq<Candidates>, unique: Candidates, winner: Candidate)
    requires Grouping(d, groups) && BestOfEach(groups, unique) && Best(d, winner) && Tied(d)
    ensures exists u :: u in unique && u != winner && SameScore(u.segment, winner.segment)
  {
    hide Grouping, ScoreGt, SameScore, Best, BestOfEach, Unbeaten;
    var a, b :| Unbeaten(d, a) && Unbeaten(d, b) && a.segment.content != b.segment.content;
    var g := BestOfTied(d, groups, unique, winner, a);
    var h := BestOfTied(d, groups, unique, winner, b);
    EachHasOne(groups, unique);
    SameContentSameGroup(d, groups, g, h, a, b);
    SameContentSameGroup(d, groups, g, h, unique[g], unique[h]);
    assert unique[g] in unique && unique[h] in unique;
  }

  lemma {:induction false} EachHasOne(groups: seq<Candidates>, unique: Candidates)
    requires BestOfEach(groups, unique)
    ensures |unique| == |groups|
  {
  }

  lemma {:induction false} RestPositions(d: Candidates, groups: seq<Candidates>, unique: Candidates)
    requires Positions(d) && |unique| == |groups| && SortedBy(groups, Differ)
    requires forall g :: g in groups ==> OneGroup(d, g)
    ensures Positions(Rest(groups, unique))
  {
    if groups != [] {
      var n := |groups| - 1;
      assert forall g :: g in groups[..n] ==> g in groups;
      RestPositions(d, groups[..n], unique[..n]);
      assert groups[n] in groups;
      FilterSorted(groups[n], (c: Candidate) => c != unique[n], OtherPosition);
      forall x, y | x in Rest(groups[..n], unique[..n]) && y in Without(groups[n], unique[n])
        ensures x.index != y.index
      {
        var g := RestFrom(groups[..n], unique[..n], x);
        ApartInDifferentGroups(d, groups[g], groups[n], x, y);
      }
      PositionsConcat(Rest(groups[..n], unique[..n]), Without(groups[n], unique[n]));
    }
  }

  lemma {:induction false} ApartInDifferentGroups(d: Candidates, one: Candidates, two: Candidates, x: Candidate,
          y: Candidate)
    requires Positions(d) && OneGroup(d, one) && OneGroup(d, two) && Differ(one, two) && x in one && y in two
    ensures x.index != y.index
  {
    if x.index == y.index {
      SamePosition(d, x, y);
    }
  }

  function Others(unique: Candidates, winner: Candidate): Candidates {
    Filter(unique, (c: Candidate) => c.index != winner.index)
  }

  /** The losers are exactly the candidates that are not the best. */
  lemma {:induction false} LosersExact(d: Candidates, groups: seq<Candidates>, unique: Candidates, winner: Candidate,
          c: Candidate)
    requires Positions(d) && Grouping(d, groups) && BestOfEach(groups, unique) && winner in unique && Best(d, winner)
    ensures c in Rest(groups, unique) || c in Others(unique, winner) <==> c in d && c != winner
    ensures c in d ==> (Best(d, c) <==> c == winner)
  {
    hide Differ, Beats, OneGroup, Rest;
    var h :| 0 <= h < |unique| && unique[h] == winner;
    assert c in d ==> (c.index == winner.index <==> c == winner) by {
      if c in d && c.index == winner.index {
        SamePosition(d, c, winner);
      }
    }
    if c in d && Best(d, c) {
      BeatsOrder(c, winner, c);
    }
    if c in Rest(groups, unique) {
      var g := RestFrom(groups, unique, c);
      SameContentSameGroup(d, groups, g, h, c, winner);
      ContentOfGroup(d, groups, g, c);
    }
    if c in unique {
      var g :| 0 <= g < |unique| && unique[g] == c;
      ContentOfGroup(d, groups, g, c);
    }
    if c in d && c != winner {
      var group :| group in groups && c in group;
      var g :| 0 <= g < |groups| && groups[g] == group;
      if c == unique[g] {
        assert c in unique;
      } else {
        RestHolds(groups, unique, c, g);
      }
    }
  }

  lemma {:induction false} LosersApart(d: Candidates, groups: seq<Candidates>, unique: Candidates, winner: Candidate)
    requires Positions(d) && Grouping(d, groups) && BestOfEach(groups, unique)
    ensures Positions(Rest(groups, unique) + Others(unique, winner))
  {
    hide Rest, Beats;
    RestPositions(d, groups, unique);
    UniquePositions(d, groups, unique);
    FilterSorted(unique, (c: Candidate) => c.index != winner.index, OtherPosition);
    forall x, y | x in Rest(groups, unique) && y in Others(unique, winner)
      ensures x.index != y.index
    {
      RestApartFromBest(d, groups, unique, x, y);
    }
    PositionsConcat(Rest(groups, unique), Others(unique, winner));
  }

  lemma {:induction false} RestApartFromBest(d: Candidates, groups: seq<Candidates>, unique: Candidates,
          x: Candidate, y: Candidate)
    requires Positions(d) && Grouping(d, groups) && BestOfEach(groups, unique)
    requires x in Rest(groups, unique) && y in unique
    ensures x.index != y.index
  {
    hide Rest, Beats, OneGroup, Differ;
    var g := RestFrom(groups, unique, x);
    var h :| 0 <= h < |unique| && unique[h] == y;
    ContentOfGroup(d, groups, g, x);
    ContentOfGroup(d, groups, h, y);
    SameContentSameGroup(d, groups, g, h, x, y);
    if x.index == y.index {
      SamePosition(d, x, y);
    }
  }

  lemma {:induction false} UniquePositions(d: Candidates, groups: seq<Candidates>, unique: Candidates)
    requires Positions(d) && Grouping(d, groups) && BestOfEach(groups, unique)
    ensures Positions(unique)
  {
    hide Beats, OneGroup;
    forall i, j | 0 <= i < j < |unique|
      ensures OtherPosition(unique[i], unique[j])
    {
      assert groups[i] in groups && groups[j] in groups && Differ(groups[i], groups[j]);
      ApartInDifferentGroups(d, groups[i], groups[j], unique[i], unique[j]);
    }
  }

  lemma {:induction false} BeatsTotalPreorder()
    ensures TotalPreorder(Beats)
  {
    forall a, b, c
      ensures Beats(a, b) || Beats(b, a)
      ensures Beats(a, b) && Beats(b, c) ==> Beats(a, c)
    {
      BeatsOrder(a, b, c);
    }
  }

  /** Ranking the groups' bests: the winner, and whether it shares its score. */
  method RankUnique(unique: Candidates) returns (winner: Candidate, tie: bool)
    requires unique != [] && Positions(unique)
    ensures winner in unique && forall u :: u in unique ==> Beats(winner, u)
    ensures tie <==> exists u :: u in unique && u != winner && SameScore(u.segment, winner.segment)
  {
    hide Beats, SameScore;
    var ranked := Sort(unique, Beats);
    BeatsTotalPreorder();
    SortSorted(unique, Beats);
    SortMembers(unique, Beats);
    winner := ranked[0];
    FirstBeatsAll(ranked);
    var tied := Filter(ranked, (c: Candidate) => SameScore(c.segment, winner.segment));
    PositionsDistinct(unique);
    SortDistinct(unique, Beats);
    FilterSorted(ranked, (c: Candidate) => SameScore(c.segment, winner.segment), NotSame);
    WinnerTies(winner);
    MoreThanOne(tied, winner);
    tie := |tied| > 1;
  }

  predicate NotSame(a: Candidate, b: Candidate) { a != b }

  lemma {:induction false} PositionsDistinct(d: Candidates)
    requires Positions(d)
    ensures Distinct(d)
  {
    forall i, j | 0 <= i < j < |d|
      ensures d[i] != d[j]
    {
      assert OtherPosition(d[i], d[j]);
    }
  }

  lemma {:induction false} WinnerTies(c: Candidate)
    ensures SameScore(c.segment, c.segment)
  {
  }

  lemma {:induction false} FirstBeatsAll(ranked: Candidates)
    requires ranked != [] && SortedBy(ranked, Beats) && TotalPreorder(Beats)
    ensures forall u :: u in ranked ==> Beats(ranked[0], u)
  {
    forall u | u in ranked
      ensures Beats(ranked[0], u)
    {
      var i :| 0 <= i < |ranked| && ranked[i] == u;
      assert i == 0 ==> Beats(u, u);
    }
  }

  lemma {:induction false} MoreThanOne(tied: Candidates, winner: Candidate)
    requires SortedBy(tied, NotSame) && winner in tied
    ensures |tied| > 1 <==> exists u :: u in tied && u != winner
  {
    if |tied| > 1 {
      assert NotSame(tied[0], tied[1]);
      assert tied[0] in tied && tied[1] in tied;
    }
  }

  /** One component: refuse a tie, or tell the losers. */
  method SettleComponent(d: Candidates) returns (tie: bool, losers: Candidates)
    requires Positions(d) && d != []
    ensures tie <==> Tied(d)
    ensures !tie ==> Positions(losers) && forall c :: c in losers <==> c in d && !Best(d, c)
  {
    hide Grouping, BestOfEach, Positions, Best, Tied, SameScore;
    var groups := ContentGroups(d);
    var unique;
    unique, losers := Representatives(d, groups);
    UniquePositions(d, groups, unique);
    var winner;
    winner, tie := RankUnique(unique);
    WinnerIsBest(d, groups, unique, winner);
    if tie {
      TieSeen(d, groups, unique, winner);
      return;
    }
    if Tied(d) {
      TieShows(d, groups, unique, winner);
    }
    losers := losers + Others(unique, winner);
    LosersApart(d, groups, unique, winner);
    forall c
      ensures c in losers <==> c in d && !Best(d, c)
    {
      LosersExact(d, groups, unique, winner, c);
    }
  }

  method WithoutBest(group: Candidates, best: Candidate) returns (others: Candidates)
    ensures others == Without(group, best)
  {
    others := [];
    for k := 0 to |group|
      invariant others == Without(group[..k], best)
    {
      FilterAppend(group[..k], group[k], (c: Candidate) => c != best);
      assert group[..k + 1] == group[..k] + [group[k]];
      if group[k] != best {
        others := others + [group[k]];
      }
    }
    assert group[..|group|] == group;
  }

  method Representatives(d: Candidates, groups: seq<Candidates>) returns (unique: Candidates, losers: Candidates)
    requires d != [] && Grouping(d, groups)
    ensures BestOfEach(groups, unique) && unique != [] && losers == Rest(groups, unique)
  {
    hide Best, Without;
    unique, losers := [], [];
    GroupsNonempty(d, groups);
    for g := 0 to |groups|
      invariant BestOfEach(groups[..g], unique) && losers == Rest(groups[..g], unique)
    {
      var representative := BestOf(groups[g]);
      var others := WithoutBest(groups[g], representative);
      losers := losers + others;
      assert groups[..g + 1][..g] == groups[..g] && (unique + [representative])[..g] == unique;
      unique := unique + [representative];
    }
    assert groups[..|groups|] == groups;
    assert d[0] in d;
  }

  /*--------------------------- components of one key ---------------------------*/

  predicate Overlap(a: Candidate, b: Candidate) {
    ScopesOverlap(a.segment.scope, b.segment.scope)
  }

  ghost predicate Together(all: Candidates, a: Candidate, b: Candidate) {
    a in all && b in all && (Overlap(a, b) || exists u :: u in all && Universal(u.segment.scope))
  }

  lemma {:induction false} TogetherIsEquivalence(all: Candidates, a: Candidate, b: Candidate, c: Candidate)
    ensures a in all ==> Together(all, a, a)
    ensures Together(all, a, b) ==> Together(all, b, a)
    ensures Together(all, a, b) && Together(all, b, c) ==> Together(all, a, c)
  {
    hide Universal, NormalScope;
  }

  lemma {:induction false} TouchingIsTogether(all: Candidates, first: Candidate, member: Candidate, c: Candidate)
    requires Together(all, first, member) && c in all && Overlap(c, member)
    ensures Together(all, first, c)
  {
    hide Universal, NormalScope;
  }

  ghost predicate IsComponent(all: Candidates, d: Candidates) {
    && d != [] && Positions(d)
    && forall a, b :: a in d ==> (b in d <==> Together(all, a, b))
  }

  predicate Apart(a: Candidates, b: Candidates) {
    forall x :: x in a ==> x !in b
  }

  /** A split of the open candidates into the growing component and the remaining. */
  ghost predicate SplitOf(before: Candidates, component: Candidates, remaining: Candidates) {
    && Positions(component) && Positions(remaining)
    && (forall x, y :: x in component && y in remaining ==> x.index != y.index)
    && forall x :: x in before <==> x in component || x in remaining
  }

  ghost predicate GrownFrom(all: Candidates, first: Candidate, component: Candidates) {
    component != [] && component[0] == first && forall m :: m in component ==> Together(all, first, m)
  }

  predicate Touches(component: Candidates, c: Candidate) {
    exists m :: m in component && Overlap(c, m)
  }

  lemma {:induction false} MoveOver(before: Candidates, component: Candidates, remaining: Candidates, c: Candidate)
    requires SplitOf(before, component, remaining) && c in remaining
    ensures SplitOf(before, component + [c], Without(remaining, c))
    ensures |Without(remaining, c)| < |remaining|
  {
    var rest := Without(remaining, c);
    FilterSorted(remaining, (x: Candidate) => x != c, OtherPosition);
    FilterSmaller(remaining, (x: Candidate) => x != c, c);
    PositionsConcat(component, [c]);
    forall x, y | x in component + [c] && y in rest
      ensures x.index != y.index
    {
      if x == c && x.index == y.index {
        SamePosition(remaining, x, y);
      }
    }
    forall x
      ensures x in before <==> x in component + [c] || x in rest
    {
    }
  }

  /** One pass over the remaining candidates. */
  method GrowPass(ghost all: Candidates, ghost before: Candidates, ghost first: Candidate, component: Candidates,
          remaining: Candidates)
    returns (grown: Candidates, left: Candidates, changed: bool)
    requires SplitOf(before, component, remaining) && GrownFrom(all, first, component)
    requires forall x :: x in before ==> x in all
    ensures SplitOf(before, grown, left) && GrownFrom(all, first, grown)
    ensures changed ==> |left| < |remaining|
    ensures !changed ==> left == remaining && grown == component && forall c :: c in left ==> !Touches(grown, c)
  {
    hide SplitOf, Together, Overlap, Without;
    grown, left, changed := component, remaining, false;
    for k := 0 to |remaining|
      invariant SplitOf(before, grown, left) && GrownFrom(all, first, grown)
      invariant forall j :: k <= j < |remaining| ==> remaining[j] in left
      invariant changed ==> |left| < |remaining|
      invariant !changed ==> left == remaining && grown == component
      invariant !changed ==> forall j :: 0 <= j < k ==> !Touches(component, remaining[j])
    {
      hide GrownFrom, Touches;
      var candidate := remaining[k];
      SplitPositions(before, component, remaining, k);
      if Touches(grown, candidate) {
        SplitMembers(before, grown, left, candidate);
        GrowBy(all, first, grown, candidate);
        MoveOver(before, grown, left, candidate);
        StillThere(remaining, left, k);
        grown, left, changed := grown + [candidate], Without(left, candidate), true;
      }
    }
  }

  lemma {:induction false} SplitPositions(before: Candidates, component: Candidates, remaining: Candidates, k: nat)
    requires SplitOf(before, component, remaining) && k < |remaining|
    ensures forall j :: k < j < |remaining| ==> remaining[j] != remaining[k]
  {
    forall j | k < j < |remaining|
      ensures remaining[j] != remaining[k]
    {
      assert OtherPosition(remaining[k], remaining[j]);
    }
  }

  lemma {:induction false} SplitMembers(before: Candidates, component: Candidates, remaining: Candidates, c: Candidate)
    requires SplitOf(before, component, remaining) && c in remaining
    ensures c in before
  {
  }

  lemma {:induction false} StillThere(remaining: Candidates, left: Candidates, k: nat)
    requires k < |remaining| && forall j :: k <= j < |remaining| ==> remaining[j] in left
    requires forall j :: k < j < |remaining| ==> remaining[j] != remaining[k]
    ensures forall j :: k < j < |remaining| ==> remaining[j] in Without(left, remaining[k])
  {
  }

  lemma {:induction false} GrowBy(all: Candidates, first: Candidate, component: Candidates, c: Candidate)
    requires GrownFrom(all, first, component) && c in all && Touches(component, c)
    ensures GrownFrom(all, first, component + [c])
  {
    hide Together, Overlap;
    var m :| m in component && Overlap(c, m);
    TouchingIsTogether(all, first, m, c);
  }

  /** What is known between two components. */
  ghost predicate Partial(all: Candidates, components: seq<Candidates>, remaining: Candidates) {
    && Positions(remaining)
    && (forall d :: d in components ==> IsComponent(all, d))
    && SortedBy(components, Apart)
    && (forall x :: x in remaining ==> x in all && forall d :: d in components ==> x !in d)
    && (forall x :: x in all ==> x in remaining || exists d :: d in components && x in d)
  }

  method OverlappingComponents(candidates: Candidates) returns (components: seq<Candidates>)
    requires Positions(candidates)
    ensures Partial(candidates, components, [])
  {
    hide IsComponent, Together, SortedBy, Apart;
    components := [];
    var remaining := candidates;
    NoComponents(candidates);
    while remaining != []
      invariant Partial(candidates, components, remaining)
      decreases |remaining|
    {
      hide Partial;
      ghost var before := remaining;
      var component := [remaining[0]];
      remaining := remaining[1..];
      FirstMember(candidates, components, before);
      var changed := true;
      while changed
        invariant SplitOf(before, component, remaining) && GrownFrom(candidates, before[0], component)
        invariant |remaining| < |before|
        invariant !changed ==> forall c :: c in remaining ==> !Touches(component, c)
        decreases |remaining|, changed
      {
        component, remaining, changed := GrowPass(candidates, before, before[0], component, remaining);
      }
      CloseComponent(candidates, components, before, component, remaining);
      components := components + [component];
    }
  }

  lemma {:induction false} NoComponents(candidates: Candidates)
    requires Positions(candidates)
    ensures Partial(candidates, [], candidates)
  {
  }

  lemma {:induction false} FirstMember(all: Candidates, components: seq<Candidates>, before: Candidates)
    requires Partial(all, components, before) && before != []
    ensures SplitOf(before, [before[0]], before[1..]) && GrownFrom(all, before[0], [before[0]])
    ensures forall x :: x in before ==> x in all
  {
    hide IsComponent, Apart;
    TogetherIsEquivalence(all, before[0], before[0], before[0]);
    TailSorted(before, OtherPosition);
    assert before == [before[0]] + before[1..];
  }

  /** Nothing outside a component that no longer grows is linked to it. */
  lemma {:induction false} ClosedIsComponent(all: Candidates, components: seq<Candidates>, before: Candidates,
                                             component: Candidates, remaining: Candidates, a: Candidate, b: Candidate)
    requires Partial(all, components, before) && before != [] && SplitOf(before, component, remaining)
    requires GrownFrom(all, before[0], component) && forall c :: c in remaining ==> !Touches(component, c)
    requires a in component
    ensures b in component <==> Together(all, a, b)
  {
    hide NormalScope, SortedBy, Positions;
    TogetherIsEquivalence(all, before[0], a, b);
    TogetherIsEquivalence(all, a, before[0], b);
    assert a in before;
    if Together(all, a, b) {
      NotInFinished(all, components, before, a, b);
      assert Overlap(b, a) ==> Touches(component, b);
      forall u | u in all && Universal(u.segment.scope)
        ensures Touches(component, b)
      {
        NotInFinished(all, components, before, a, u);
        assert Overlap(u, a) && Overlap(b, u) && Touches(component, u);
      }
    }
  }

  lemma {:induction false} NotInFinished(all: Candidates, components: seq<Candidates>, before: Candidates,
          a: Candidate, b: Candidate)
    requires Partial(all, components, before) && a in before && Together(all, a, b)
    ensures b in before
  {
    hide SortedBy, Positions, Apart;
    TogetherIsEquivalence(all, a, b, a);
    forall d | d in components
      ensures b !in d
    {
      assert IsComponent(all, d);
      assert b in d ==> (a in d <==> Together(all, b, a));
    }
  }

  lemma {:induction false} CloseComponent(all: Candidates, components: seq<Candidates>, before: Candidates,
                                          component: Candidates, remaining: Candidates)
    requires Partial(all, components, before) && before != [] && SplitOf(before, component, remaining)
    requires GrownFrom(all, before[0], component) && forall c :: c in remaining ==> !Touches(component, c)
    ensures Partial(all, components + [component], remaining)
  {
    hide Together, Touches;
    forall a, b | a in component
      ensures b in component <==> Together(all, a, b)
    {
      ClosedIsComponent(all, components, before, component, remaining, a, b);
    }
    assert IsComponent(all, component);
    hide IsComponent, Positions;
    var more := components + [component];
    assert component in more;
    forall x | x in all
      ensures x in remaining || exists d :: d in more && x in d
    {
      if x !in before {
        var d :| d in components && x in d;
        assert d in more;
      }
    }
    forall i, j | 0 <= i < j < |more|
      ensures Apart(more[i], more[j])
    {
      assert more[i] in components;
      assert j < |components| ==> Apart(components[i], components[j]);
    }
  }

  /*--------------------------------- the resolver ------------------------------*/

  /** The participants of a key among the first n segments. */
  function ByKey(s: seq<Segment>, active: Option<seq<string>>, key: string, n: nat): Candidates
    requires n <= |s|
  {
    if n == 0 then []
    else ByKey(s, active, key, n - 1) + if Takes(s[n - 1], active, key) then [Candidate(n - 1, s[n - 1])] else []
  }

  predicate IsCandidate(s: seq<Segment>, active: Option<seq<string>>, key: string, c: Candidate) {
    c.index < |s| && c.segment == s[c.index] && Takes(c.segment, active, key)
  }

  lemma {:induction false} ByKeyExact(s: seq<Segment>, active: Option<seq<string>>, key: string, n: nat)
    requires n <= |s|
    ensures forall c :: c in ByKey(s, active, key, n) <==> c.index < n && IsCandidate(s, active, key, c)
    ensures Positions(ByKey(s, active, key, n))
  {
    hide Takes;
    if n > 0 {
      ByKeyExact(s, active, key, n - 1);
      var init, last := ByKey(s, active, key, n - 1), if Takes(s[n - 1], active, key) then [Candidate(n - 1, s[n - 1])] else [];
      PositionsConcat(init, last);
      forall c
        ensures c in ByKey(s, active, key, n) <==> c.index < n && IsCandidate(s, active, key, c)
      {
        assert c in ByKey(s, active, key, n) <==> c in init || c in last;
      }
    }
  }

  /** A participant that another one of its component beats. */
  ghost predicate Loser(s: seq<Segment>, active: Option<seq<string>>, key: string, c: Candidate) {
    IsCandidate(s, active, key, c) && !Accepted(s, active, c.index)
  }

  lemma {:induction false} TogetherIsLinked(s: seq<Segment>, active: Option<seq<string>>, key: string, a: Candidate,
          b: Candidate)
    requires IsCandidate(s, active, key, a) && IsCandidate(s, active, key, b)
    ensures Together(ByKey(s, active, key, |s|), a, b) <==> Linked(s, active, key, a.segment, b.segment)
  {
    hide Takes, ScopesOverlap, Universal;
    var all := ByKey(s, active, key, |s|);
    ByKeyExact(s, active, key, |s|);
    if u :| u in s && Takes(u, active, key) && Universal(u.scope) {
      var k :| 0 <= k < |s| && s[k] == u;
      assert Candidate(k, u) in all;
    }
    if c :| c in all && Universal(c.segment.scope) {
      assert IsCandidate(s, active, key, c);
      assert c.segment in s;
    }
  }

  /** Within its component, being the best is being accepted. */
  lemma {:induction false} BestIsAccepted(s: seq<Segment>, active: Option<seq<string>>, key: string, d: Candidates,
          c: Candidate)
    requires IsComponent(ByKey(s, active, key, |s|), d) && c in d
    ensures IsCandidate(s, active, key, c) && (Best(d, c) <==> Accepted(s, active, c.index))
  {
    hide Beats, Together, Linked, Positions, ByKey;
    var all := ByKey(s, active, key, |s|);
    ByKeyExact(s, active, key, |s|);
    InAll(all, d, c);
    if Best(d, c) {
      forall j | 0 <= j < |s| && Linked(s, active, key, c.segment, s[j])
        ensures Beats(c, Candidate(j, s[j]))
      {
        LinkedTakes(s, active, key, c.segment, s[j]);
        TogetherIsLinked(s, active, key, c, Candidate(j, s[j]));
      }
    }
    if Accepted(s, active, c.index) {
      forall x | x in d
        ensures Beats(c, x)
      {
        InAll(all, d, x);
        assert Together(all, c, x);
        TogetherIsLinked(s, active, key, c, x);
        assert Beats(Candidate(c.index, s[c.index]), Candidate(x.index, s[x.index]));
      }
    }
  }

  lemma {:induction false} InAll(all: Candidates, d: Candidates, c: Candidate)
    requires IsComponent(all, d) && c in d
    ensures c in all
  {
    assert Together(all, c, c);
  }

  lemma {:induction false} LinkedTakes(s: seq<Segment>, active: Option<seq<string>>, key: string, x: Segment,
          y: Segment)
    requires Linked(s, active, key, x, y)
    ensures Takes(x, active, key) && Takes(y, active, key)
  {
  }

  /** A component is tied when and only when the key is tied inside it. */
  lemma {:induction false} UnbeatenIsTop(s: seq<Segment>, active: Option<seq<string>>, key: string, d: Candidates,
          c: Candidate)
    requires IsComponent(ByKey(s, active, key, |s|), d) && c in d
    ensures Unbeaten(d, c) <==> Top(s, active, key, c.segment)
  {
    hide ScoreGt, Together, Linked, Positions, ByKey;
    var all := ByKey(s, active, key, |s|);
    ByKeyExact(s, active, key, |s|);
    InAll(all, d, c);
    assert c.segment in s;
    if Unbeaten(d, c) {
      forall y | Linked(s, active, key, c.segment, y)
        ensures !ScoreGt(y, c.segment)
      {
        LinkedTakes(s, active, key, c.segment, y);
        var j := LinkedIndex(s, active, key, c.segment, y);
        TogetherIsLinked(s, active, key, c, Candidate(j, y));
        assert Candidate(j, y) in d;
      }
    }
    if Top(s, active, key, c.segment) {
      forall x | x in d
        ensures !ScoreGt(x.segment, c.segment)
      {
        InAll(all, d, x);
        TogetherIsLinked(s, active, key, c, x);
      }
    }
  }

  lemma {:induction false} LinkedIndex(s: seq<Segment>, active: Option<seq<string>>, key: string, x: Segment,
          y: Segment)
    returns (j: nat)
    requires Linked(s, active, key, x, y)
    ensures j < |s| && s[j] == y
  {
    j :| 0 <= j < |s| && s[j] == y;
  }

  lemma {:induction false} TiedComponentMeansTie(s: seq<Segment>, active: Option<seq<string>>, key: string,
          d: Candidates)
    requires IsComponent(ByKey(s, active, key, |s|), d) && Tied(d)
    ensures TiedAt(s, active, key)
  {
    hide Unbeaten, Linked, Top, Positions, ByKey;
    var all := ByKey(s, active, key, |s|);
    var a, b :| Unbeaten(d, a) && Unbeaten(d, b) && a.segment.content != b.segment.content;
    UnbeatenIn(d, a);
    UnbeatenIn(d, b);
    UnbeatenIsTop(s, active, key, d, a);
    UnbeatenIsTop(s, active, key, d, b);
    assert Together(all, a, b);
    ByKeyExact(s, active, key, |s|);
    TogetherIsLinked(s, active, key, a, b);
  }

  lemma {:induction false} UnbeatenIn(d: Candidates, c: Candidate)
    requires Unbeaten(d, c)
    ensures c in d
  {
  }

  lemma {:induction false} TieIsSeenInAComponent(s: seq<Segment>, active: Option<seq<string>>, key: string,
          components: seq<Candidates>)
    requires TiedAt(s, active, key) && Partial(ByKey(s, active, key, |s|), components, [])
    ensures exists d :: d in components && Tied(d)
  {
    hide Unbeaten, Linked, Top, Positions, ByKey, Together;
    var all := ByKey(s, active, key, |s|);
    ByKeyExact(s, active, key, |s|);
    var x, y :| Linked(s, active, key, x, y) && Top(s, active, key, x) && Top(s, active, key, y) && x.content != y.content;
    LinkedTakes(s, active, key, x, y);
    var j := LinkedIndex(s, active, key, x, y);
    var i := LinkedSource(s, active, key, x, y);
    var a, b := Candidate(i, x), Candidate(j, y);
    assert a in all;
    var d :| d in components && a in d;
    assert IsComponent(all, d);
    TogetherIsLinked(s, active, key, a, b);
    assert b in d;
    UnbeatenIsTop(s, active, key, d, a);
    UnbeatenIsTop(s, active, key, d, b);
    assert Tied(d);
  }

  lemma {:induction false} LinkedSource(s: seq<Segment>, active: Option<seq<string>>, key: string, x: Segment,
          y: Segment)
    returns (i: nat)
    requires Linked(s, active, key, x, y)
    ensures i < |s| && s[i] == x
  {
    i :| 0 <= i < |s| && s[i] == x;
  }

  /** The members of the components that are not their component's best. */
  ghost predicate LosersOf(components: seq<Candidates>, losers: Candidates) {
    Positions(losers) && forall c :: c in losers <==> exists d :: d in components && c in d && !Best(d, c)
  }

  lemma {:induction false} MoreLosers(all: Candidates, components: seq<Candidates>, k: nat, losers: Candidates,
          more: Candidates)
    requires Positions(all) && Partial(all, components, []) && k < |components|
    requires LosersOf(components[..k], losers)
    requires Positions(more) && forall c :: c in more <==> c in components[k] && !Best(components[k], c)
    ensures LosersOf(components[..k + 1], losers + more)
  {
    hide Best;
    var before, after := components[..k], components[..k + 1];
    assert after == before + [components[k]];
    forall x, y | x in losers && y in more
      ensures x.index != y.index
    {
      var d :| d in before && x in d;
      var h :| 0 <= h < k && before[h] == d;
      assert components[h] in components && components[k] in components && Apart(components[h], components[k]);
      InAll(all, d, x);
      InAll(all, components[k], y);
      if x.index == y.index {
        SamePosition(all, x, y);
      }
    }
    PositionsConcat(losers, more);
    LosersJoin(before, components[k], losers, more);
  }

  lemma {:induction false} LosersJoin(before: seq<Candidates>, d: Candidates, losers: Candidates, more: Candidates)
    requires forall c :: c in losers <==> exists d :: d in before && c in d && !Best(d, c)
    requires forall c :: c in more <==> c in d && !Best(d, c)
    ensures forall c :: c in losers + more <==> exists e :: e in before + [d] && c in e && !Best(e, c)
  {
    hide Best;
    forall c
      ensures c in losers + more <==> exists e :: e in before + [d] && c in e && !Best(e, c)
    {
      if c in losers {
        var e :| e in before && c in e && !Best(e, c);
        assert e in before + [d];
      }
      if c in more {
        assert d in before + [d];
      }
    }
  }

  lemma {:induction false} LosersAreLosers(s: seq<Segment>, active: Option<seq<string>>, key: string,
          components: seq<Candidates>, losers: Candidates, c: Candidate)
    requires Partial(ByKey(s, active, key, |s|), components, []) && LosersOf(components, losers)
    ensures c in losers <==> Loser(s, active, key, c)
  {
    hide Best, IsComponent, Positions, ByKey, Accepted, SortedBy;
    var all := ByKey(s, active, key, |s|);
    ByKeyExact(s, active, key, |s|);
    if d :| d in components && c in d {
      BestIsAccepted(s, active, key, d, c);
      forall e | e in components && c in e
        ensures Best(e, c) <==> Accepted(s, active, c.index)
      {
        BestIsAccepted(s, active, key, e, c);
      }
    }
    assert IsCandidate(s, active, key, c) ==> c in all;
  }

  /** All components of one key. */
  method SettleKey(s: seq<Segment>, active: Option<seq<string>>, key: string, candidates: Candidates)
    returns (tie: bool, losers: Candidates)
    requires candidates == ByKey(s, active, key, |s|)
    ensures tie <==> TiedAt(s, active, key)
    ensures !tie ==> Positions(losers) && forall c :: c in losers <==> Loser(s, active, key, c)
  {
    hide Best, IsComponent, Positions, ByKey, Accepted, Tied, TiedAt, Partial, LosersOf, Loser;
    ByKeyExact(s, active, key, |s|);
    var components := OverlappingComponents(candidates);
    losers := [];
    NoLosers();
    for k := 0 to |components|
      invariant LosersOf(components[..k], losers)
      invariant forall h :: 0 <= h < k ==> !Tied(components[h])
    {
      ComponentAt(candidates, components, k);
      var more;
      tie, more := SettleComponent(components[k]);
      if tie {
        TiedComponentMeansTie(s, active, key, components[k]);
        return;
      }
      MoreLosers(candidates, components, k, losers, more);
      losers := losers + more;
    }
    assert components[..|components|] == components;
    tie := false;
    if TiedAt(s, active, key) {
      TieIsSeenInAComponent(s, active, key, components);
    }
    forall c
      ensures c in losers <==> Loser(s, active, key, c)
    {
      LosersAreLosers(s, active, key, components, losers, c);
    }
    LosersPositions(components, losers);
  }

  lemma {:induction false} NoLosers()
    ensures LosersOf([], [])
  {
  }

  lemma {:induction false} LosersPositions(components: seq<Candidates>, losers: Candidates)
    requires LosersOf(components, losers)
    ensures Positions(losers)
  {
  }

  lemma {:induction false} ComponentAt(all: Candidates, components: seq<Candidates>, k: nat)
    requires Partial(all, components, []) && k < |components|
    ensures IsComponent(all, components[k]) && components[k] != [] && Positions(components[k])
  {
    assert components[k] in components;
  }

  datatype Resolution =
    | Resolved(accepted: seq<nat>, suppressed: Candidates, inapplicable: seq<nat>)
    | ConflictOn(key: string)

  /** The positions below n that satisfy keep, in order. */
  function Positioned(n: nat, keep: nat -> bool): seq<nat> {
    if n == 0 then [] else Positioned(n - 1, keep) + if keep(n - 1) then [n - 1] else []
  }

  ghost function AcceptedPositions(s: seq<Segment>, active: Option<seq<string>>): seq<nat> {
    Positioned(|s|, (i: nat) => i < |s| && Accepted(s, active, i))
  }

  function InapplicablePositions(s: seq<Segment>, active: Option<seq<string>>, n: nat): seq<nat>
    requires n <= |s|
  {
    if n == 0 then []
    else InapplicablePositions(s, active, n - 1) + if Applies(s[n - 1], active) then [] else [n - 1]
  }

  /** The table of participants by key, with the keys in order of appearance. */
  ghost predicate Table(s: seq<Segment>, active: Option<seq<string>>, n: nat, keys: seq<string>, keyed: map<string,
          Candidates>)
    requires n <= |s|
  {
    && Distinct(keys) && (forall key :: key in keys <==> key in keyed)
    && forall key :: ByKey(s, active, key, n) == if key in keyed then keyed[key] else []
  }

  method CollectKeyed(s: seq<Segment>, active: Option<seq<string>>)
    returns (keys: seq<string>, keyed: map<string, Candidates>, inapplicable: seq<nat>)
    ensures Table(s, active, |s|, keys, keyed) && inapplicable == InapplicablePositions(s, active, |s|)
  {
    hide Table, ByKey, Applies, Distinct;
    keys, keyed, inapplicable := [], map[], [];
    EmptyTable(s, active);
    for index := 0 to |s|
      invariant Table(s, active, index, keys, keyed) && inapplicable == InapplicablePositions(s, active, index)
    {
      var segment := s[index];
      if !Applies(segment, active) {
        inapplicable := inapplicable + [index];
        KeepTable(s, active, index, keys, keyed);
      } else if segment.conflictKey == None {
        KeepTable(s, active, index, keys, keyed);
      } else {
        var key := segment.conflictKey.value;
        ExtendTable(s, active, index, key, keys, keyed);
        keys, keyed := AddCandidate(keys, keyed, key, Candidate(index, segment));
      }
    }
  }

  /** keyed.setdefault(key, []).append(candidate) */
  method AddCandidate(keys: seq<string>, keyed: map<string, Candidates>, key: string, c: Candidate)
    returns (keys': seq<string>, keyed': map<string, Candidates>)
    ensures keys' == if key in keyed then keys else keys + [key]
    ensures keyed' == keyed[key := (if key in keyed then keyed[key] else []) + [c]]
  {
    keys', keyed' := keys, keyed;
    if key !in keyed {
      keys', keyed' := keys + [key], keyed[key := []];
    }
    keyed' := keyed'[key := keyed'[key] + [c]];
  }

  lemma {:induction false} EmptyTable(s: seq<Segment>, active: Option<seq<string>>)
    ensures Table(s, active, 0, [], map[])
  {
  }

  lemma {:induction false} KeepTable(s: seq<Segment>, active: Option<seq<string>>, n: nat, keys: seq<string>,
          keyed: map<string, Candidates>)
    requires n < |s| && Table(s, active, n, keys, keyed) && (Applies(s[n], active) ==> s[n].conflictKey == None)
    ensures Table(s, active, n + 1, keys, keyed)
  {
    hide Applies;
  }

  lemma {:induction false} ExtendTable(s: seq<Segment>, active: Option<seq<string>>, n: nat, key: string,
          keys: seq<string>, keyed: map<string, Candidates>)
    requires n < |s| && Table(s, active, n, keys, keyed) && Applies(s[n], active) && s[n].conflictKey == Some(key)
    ensures var before := if key in keyed then keyed[key] else [];
            Table(s, active, n + 1, if key in keyed then keys else keys + [key], keyed[key := before + [Candidate(n, s[n])]])
  {
    hide Applies;
  }

  /** A segment that takes part somewhere and loses there. */
  ghost predicate Suppressed(s: seq<Segment>, active: Option<seq<string>>, c: Candidate) {
    c.index < |s| && c.segment == s[c.index] && Applies(c.segment, active) && !Accepted(s, active, c.index)
  }

  lemma {:induction false} SuppressedIsLoser(s: seq<Segment>, active: Option<seq<string>>, c: Candidate)
    ensures Suppressed(s, active, c) <==> c.segment.conflictKey.Some? && Loser(s, active, c.segment.conflictKey.value, c)
    ensures forall key :: Loser(s, active, key, c) ==> c.segment.conflictKey == Some(key)
  {
    hide Applies, Linked, Beats;
  }

  lemma {:induction false} LoserHasKey(s: seq<Segment>, active: Option<seq<string>>, key: string, c: Candidate)
    requires Loser(s, active, key, c)
    ensures c in ByKey(s, active, key, |s|) && c.segment.conflictKey == Some(key)
  {
    hide Accepted, ByKey;
    ByKeyExact(s, active, key, |s|);
  }

  lemma {:induction false} TieHasKey(s: seq<Segment>, active: Option<seq<string>>, key: string)
    requires TiedAt(s, active, key)
    ensures ByKey(s, active, key, |s|) != []
  {
    hide ByKey, Top, Linked;
    ByKeyExact(s, active, key, |s|);
    var x, y :| Linked(s, active, key, x, y) && Top(s, active, key, x) && Top(s, active, key, y) && x.content != y.content;
    LinkedTakes(s, active, key, x, y);
    var i := LinkedSource(s, active, key, x, y);
    assert IsCandidate(s, active, key, Candidate(i, x));
  }

  /** The keys settled so far. */
  ghost predicate Settled(s: seq<Segment>, active: Option<seq<string>>, keys: seq<string>, suppressed: Candidates) {
    && Positions(suppressed)
    && (forall c :: c in suppressed <==> Suppressed(s, active, c) && c.segment.conflictKey.value in keys)
    && (forall key :: key in keys ==> !TiedAt(s, active, key))
  }

  lemma {:induction false} NothingSettled(s: seq<Segment>, active: Option<seq<string>>)
    ensures Settled(s, active, [], [])
  {
    hide Suppressed;
    forall c
      ensures Suppressed(s, active, c) ==> c.segment.conflictKey.Some?
    {
      SuppressedIsLoser(s, active, c);
    }
  }

  lemma {:induction false} SettleMore(s: seq<Segment>, active: Option<seq<string>>, keys: seq<string>,
          suppressed: Candidates,
                                      key: string, losers: Candidates)
    requires Settled(s, active, keys, suppressed) && key !in keys && !TiedAt(s, active, key)
    requires Positions(losers) && forall c :: c in losers <==> Loser(s, active, key, c)
    ensures Settled(s, active, keys + [key], suppressed + losers)
  {
    hide Loser, Accepted, TiedAt, Suppressed;
    forall c
      ensures Suppressed(s, active, c) ==> c.segment.conflictKey.Some?
      ensures c in losers <==> Suppressed(s, active, c) && c.segment.conflictKey == Some(key)
    {
      SuppressedIsLoser(s, active, c);
    }
    forall x, y | x in suppressed && y in losers
      ensures x.index != y.index
    {
      SuppressedAt(s, active, x);
      SuppressedAt(s, active, y);
    }
    PositionsConcat(suppressed, losers);
  }

  lemma {:induction false} SuppressedAt(s: seq<Segment>, active: Option<seq<string>>, c: Candidate)
    requires Suppressed(s, active, c)
    ensures c.index < |s| && c.segment == s[c.index]
  {
  }

  /** Everything a resolution promises. */
  ghost predicate Right(s: seq<Segment>, active: Option<seq<string>>, r: Resolution) {
    match r
    case ConflictOn(key) => TiedAt(s, active, key)
    case Resolved(accepted, suppressed, inapplicable) =>
      && (forall key :: !TiedAt(s, active, key))
      && accepted == AcceptedPositions(s, active)
      && Positions(suppressed) && (forall c :: c in suppressed <==> Suppressed(s, active, c))
      && inapplicable == InapplicablePositions(s, active, |s|)
  }

  method Resolve(s: seq<Segment>, active: Option<seq<string>>) returns (r: Resolution)
    ensures Right(s, active, r)
  {
    hide Table, TiedAt, Settled, Suppressed, Positions, ByKey, Distinct, Accepted;
    var keys, keyed, inapplicable := CollectKeyed(s, active);
    var suppressed := [];
    NothingSettled(s, active);
    for k := 0 to |keys|
      invariant Settled(s, active, keys[..k], suppressed)
    {
      TableAt(s, active, keys, keyed, k);
      var tie, losers := SettleKey(s, active, keys[k], keyed[keys[k]]);
      if tie {
        return ConflictOn(keys[k]);
      }
      SettleMore(s, active, keys[..k], suppressed, keys[k], losers);
      assert keys[..k + 1] == keys[..k] + [keys[k]];
      suppressed := suppressed + losers;
    }
    assert keys[..|keys|] == keys;
    AllSettled(s, active, keys, keyed, suppressed);
    var accepted := TakeAccepted(s, active, suppressed, inapplicable);
    r := Resolved(accepted, suppressed, inapplicable);
  }

  lemma {:induction false} TableAt(s: seq<Segment>, active: Option<seq<string>>, keys: seq<string>,
          keyed: map<string, Candidates>, k: nat)
    requires Table(s, active, |s|, keys, keyed) && k < |keys|
    ensures keys[k] in keyed && keyed[keys[k]] == ByKey(s, active, keys[k], |s|) && keys[k] !in keys[..k]
  {
    hide ByKey;
  }

  lemma {:induction false} AllSettled(s: seq<Segment>, active: Option<seq<string>>, keys: seq<string>,
          keyed: map<string, Candidates>, suppressed: Candidates)
    requires Table(s, active, |s|, keys, keyed) && Settled(s, active, keys, suppressed)
    ensures forall key :: !TiedAt(s, active, key)
    ensures Positions(suppressed) && forall c :: c in suppressed <==> Suppressed(s, active, c)
  {
    hide TiedAt, Suppressed, ByKey, Distinct, Positions, Loser;
    forall key
      ensures !TiedAt(s, active, key)
    {
      if TiedAt(s, active, key) {
        TieHasKey(s, active, key);
      }
    }
    forall c
      ensures c in suppressed <==> Suppressed(s, active, c)
    {
      SuppressedIsLoser(s, active, c);
      if Suppressed(s, active, c) {
        LoserHasKey(s, active, c.segment.conflictKey.value, c);
      }
    }
  }

  lemma {:induction false} InapplicableExact(s: seq<Segment>, active: Option<seq<string>>, n: nat)
    requires n <= |s|
    ensures forall i: nat :: i in InapplicablePositions(s, active, n) <==> i < n && !Applies(s[i], active)
  {
    hide Applies;
    if n > 0 {
      InapplicableExact(s, active, n - 1);
      var last := if Applies(s[n - 1], active) then [] else [n - 1];
      assert InapplicablePositions(s, active, n) == InapplicablePositions(s, active, n - 1) + last;
    }
  }

  predicate Holds(suppressed: Candidates, index: nat) {
    exists c :: c in suppressed && c.index == index
  }

  method TakeAccepted(s: seq<Segment>, active: Option<seq<string>>, suppressed: Candidates, inapplicable: seq<nat>)
    returns (accepted: seq<nat>)
    requires forall c :: c in suppressed <==> Suppressed(s, active, c)
    requires inapplicable == InapplicablePositions(s, active, |s|)
    ensures accepted == AcceptedPositions(s, active)
  {
    hide Suppressed, InapplicablePositions, Accepted, Holds;
    accepted := [];
    for index := 0 to |s|
      invariant accepted == Positioned(index, (i: nat) => i < |s| && Accepted(s, active, i))
    {
      NeitherIsAccepted(s, active, suppressed, inapplicable, index);
      if !Holds(suppressed, index) && index !in inapplicable {
        accepted := accepted + [index];
      }
    }
  }

  lemma {:induction false} NeitherIsAccepted(s: seq<Segment>, active: Option<seq<string>>, suppressed: Candidates,
          inapplicable: seq<nat>, i: nat)
    requires forall c :: c in suppressed <==> Suppressed(s, active, c)
    requires inapplicable == InapplicablePositions(s, active, |s|) && i < |s|
    ensures Accepted(s, active, i) <==> !Holds(suppressed, i) && i !in inapplicable
  {
    hide InapplicablePositions, Linked, Beats;
    InapplicableExact(s, active, |s|);
    var c := Candidate(i, s[i]);
    assert c in suppressed <==> Suppressed(s, active, c);
  }
}
