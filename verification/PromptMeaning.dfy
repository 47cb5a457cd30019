/** What the tables behind a prompt segment admit, and which segment wins, said of the
    fields of the segments (agent/app/prompt/prompt_metadata.py, prompt_segment.py,
    prompt_resolver.py). */
module PromptMeaning {
  import opened Ordering
  import opened Text
  import opened PromptResolver

  /*---------------------------------- creation ---------------------------------*/

  /** The authorities that a source may claim. */
  function Claimable(source: Source): set<Authority> {
    if source.SecurityRuntime? then {Security, Core, RuntimeAuthority, Project, User, Context}
    else if source.StaticSystem? then {Core, RuntimeAuthority, Project, User, Context}
    else if source.Runtime? || source.ToolContract? then {RuntimeAuthority, Project, User, Context}
    else if source.WorkspaceFile? || source.UpstreamProject? then {Project, User, Context}
    else if source.UserTask? then {User, Context}
    else {Context}
  }

  /** Only the application and its security runtime bind hard, and what is remembered binds
      nobody. */
  function Bindings(source: Source): set<Binding> {
    if source in {StaticSystem, SecurityRuntime} then {Hard, Required, Default, Reference}
    else if source in {Memory, History} then {Reference}
    else {Required, Default, Reference}
  }

  function Trusts(source: Source): set<Trust> {
    if source.Runtime? then {Trusted, UserContext, Untrusted}
    else if source in {UserTask, Memory, History} then {UserContext}
    else {Trusted}
  }

  /** What a source is given when it claims nothing: the most it may claim, but the
      application binds by default only and runtime facts bind nobody. */
  predicate Given(source: Source, a: Authority, b: Binding, t: Trust) {
    && a in Claimable(source) && (forall x :: x in Claimable(source) ==> !Higher(x, a))
    && b == (match source
             case SecurityRuntime => Hard
             case StaticSystem => Default
             case Runtime => Reference
             case Memory => Reference
             case History => Reference
             case _ => Required)
    && t == if source in {UserTask, Memory, History} then UserContext else Trusted
  }

  predicate Higher(a: Authority, b: Authority) {
    a != b
    && (a.Security? || (a.Core? && !b.Security?) || (a.RuntimeAuthority? && b in {Project, User, Context})
        || (a.Project? && b in {User, Context}) || (a.User? && b.Context?))
  }

  predicate Stronger(a: Binding, b: Binding) {
    a != b && (a.Hard? || (a.Required? && !b.Hard?) || (a.Default? && b.Reference?))
  }

  /** Target by target, what is let through. */
  predicate Admitted(d: Draft, t: Trust) {
    match d.target
    case SystemPrompt =>
      d.source in {StaticSystem, SecurityRuntime, WorkspaceFile, UpstreamProject, Runtime} && t.Trusted? && !d.isSchema
    case Tools => d.source in {ToolContract, Runtime} && t.Trusted? && d.isSchema
    case Messages =>
      d.source in {UserTask, Memory, History, Runtime} && d.role.UserRole? && t.UserContext? && !d.isSchema
    case ResolutionOnly =>
      d.source in {UserTask, Runtime} && (d.source.UserTask? ==> d.role.UserRole? && t.UserContext?) && !d.isSchema
  }

  /** A conflict key names an instruction of a named origin, for the system prompt or for
      the resolution. */
  ghost predicate Keyed(d: Draft) {
    d.conflictKey.Some? ==>
      && d.kind.Instruction? && (d.target.SystemPrompt? || d.target.ResolutionOnly?)
      && d.sourceRef.Some? && !OnlyBlanks(d.sourceRef.value)
      && var key := Strip(d.conflictKey.value);
         && key != ""
         && forall i :: 0 <= i < |key| ==> Spells(key[i])
  }

  predicate Spells(c: char) {
    'a' <= c <= 'z' || 'A' <= c <= 'Z' || '0' <= c <= '9' || c == '.' || c == '_' || c == ':' || c == '-'
  }

  lemma {:induction false} KeyExact(key: string)
    ensures ValidKey(key) <==> key != "" && forall i :: 0 <= i < |key| ==> Spells(key[i])
  {
    if ValidKey(key) {
      forall i | 0 <= i < |key|
        ensures Spells(key[i])
      {
        assert key[i] in key;
      }
    }
  }

  ghost predicate TrustIs(d: Draft, t: Trust) {
    match d.trust
    case Some(given) => t == given
    case None => exists a, b :: Given(d.source, a, b, t)
  }

  lemma {:induction false} GivenExact(source: Source)
    ensures var p := PolicyOf(source); Given(source, p.defaultAuthority, p.defaultBinding, p.defaultTrust)
    ensures forall a, b, t :: Given(source, a, b, t) ==>
              a == PolicyOf(source).defaultAuthority && b == PolicyOf(source).defaultBinding && t == PolicyOf(source).defaultTrust
  {
  }

  lemma {:induction false} CapsExact(source: Source)
    ensures forall a :: a in Claimable(source) <==> AuthorityRank(a) <= AuthorityRank(PolicyOf(source).maxAuthority)
    ensures forall b :: b in Bindings(source) <==> BindingRank(b) <= BindingRank(PolicyOf(source).maxBinding)
    ensures Trusts(source) == PolicyOf(source).allowedTrust
  {
  }

  lemma {:induction false} RoutesExact(d: Draft)
    ensures Routed(d) <==> Admitted(d, TrustOf(d))
  {
    hide PolicyOf;
  }

  lemma {:induction false} TrustExact(d: Draft, t: Trust)
    ensures TrustIs(d, t) <==> t == TrustOf(d)
  {
    GivenExact(d.source);
    hide Given, PolicyOf;
    if d.trust.None? {
      var p := PolicyOf(d.source);
      assert Given(d.source, p.defaultAuthority, p.defaultBinding, p.defaultTrust);
    }
  }

  lemma {:induction false} KeysExact(d: Draft)
    ensures KeyAllowed(d) && (d.conflictKey.Some? ==> ValidKey(Strip(d.conflictKey.value))) <==> Keyed(d)
  {
    if d.sourceRef.Some? {
      StripBlank(d.sourceRef.value);
    }
    if d.conflictKey.Some? {
      KeyExact(Strip(d.conflictKey.value));
    }
    hide Strip, OnlyBlanks, ValidKey, Spells;
  }

  /** A segment is created exactly if the maker may use the source, what it claims stays
      within what the source may claim, its key is in order and its target lets it through. */
  lemma {:induction false} CreationExact(d: Draft)
    ensures CreateSegment(d).Ok? <==>
              && (d.capability <==> d.source.SecurityRuntime?)
              && (d.authority.Some? ==> d.authority.value in Claimable(d.source))
              && (d.binding.Some? ==> d.binding.value in Bindings(d.source))
              && (d.trust.Some? ==> d.trust.value in Trusts(d.source))
              && Keyed(d) && exists t :: TrustIs(d, t) && Admitted(d, t)
    ensures CreateSegment(d).Ok? ==>
              var s := CreateSegment(d).value;
              && s.content == d.content && s.source == d.source && s.scope == d.scope
              && s.conflictKey == (match d.conflictKey case Some(key) => Some(Strip(key)) case None => None)
              && exists a, b, t :: && Given(d.source, a, b, t)
                                   && s.authority == (if d.authority.Some? then d.authority.value else a)
                                   && s.binding == (if d.binding.Some? then d.binding.value else b)
  {
    CapsExact(d.source);
    RoutesExact(d);
    KeysExact(d);
    TrustExact(d, TrustOf(d));
    GivenExact(d.source);
    forall t
      ensures TrustIs(d, t) <==> t == TrustOf(d)
    {
      TrustExact(d, t);
    }
    var p := PolicyOf(d.source);
    assert Given(d.source, p.defaultAuthority, p.defaultBinding, p.defaultTrust);
    hide Given, Claimable, Bindings, Trusts, PolicyOf, Admitted, Routed, Keyed, TrustIs, AuthorityRank, BindingRank;
    hide KeyAllowed, ValidKey, Strip, TrustOf;
  }

  /*----------------------------------- scopes ----------------------------------*/

  /** t is the text without outer blanks, with / for \, and without slashes at its end. */
  ghost predicate Names(text: string, t: string) {
    && |t| <= |Strip(text)|
    && (forall i :: 0 <= i < |t| ==> t[i] == if Strip(text)[i] == '\\' then '/' else Strip(text)[i])
    && (forall i :: |t| <= i < |Strip(text)| ==> Strip(text)[i] == '/' || Strip(text)[i] == '\\')
    && (t != "" ==> t[|t| - 1] != '/')
  }

  lemma {:induction false} SlashesAt(s: string)
    ensures |Slashes(s)| == |s| && forall i :: 0 <= i < |s| ==> Slashes(s)[i] == if s[i] == '\\' then '/' else s[i]
  {
    if s != "" {
      SlashesAt(s[1..]);
    }
  }

  lemma {:induction false} DropsSlashes(s: string)
    ensures DropLastSlashes(s) <= s
    ensures forall i :: |DropLastSlashes(s)| <= i < |s| ==> s[i] == '/'
    ensures var t := DropLastSlashes(s); t != "" ==> t[|t| - 1] != '/'
  {
    if s != "" && s[|s| - 1] == '/' {
      DropsSlashes(s[..|s| - 1]);
    }
  }

  /** The name of a scope: its text, or nothing. */
  ghost predicate Named(scope: Option<string>, t: string) {
    Names(match scope { case Some(text) => text case None => "" }, t)
  }

  lemma {:induction false} ScopeNamed(scope: Option<string>)
    ensures Named(scope, NormalScope(scope))
    ensures forall t :: Named(scope, t) ==> t == NormalScope(scope)
  {
    var text := if scope.Some? then scope.value else "";
    SlashesAt(Strip(text));
    DropsSlashes(Slashes(Strip(text)));
    forall t | Names(text, t)
      ensures t == NormalScope(scope)
    {
      NamesOnce(text, t, NormalScope(scope));
    }
  }

  lemma {:induction false} NamesOnce(text: string, a: string, b: string)
    requires Names(text, a) && Names(text, b)
    ensures a == b
  {
    hide Strip;
    assert forall i :: |b| <= i < |a| ==> a[i] == '/';
    assert forall i :: |a| <= i < |b| ==> b[i] == '/';
  }

  /** No scope, the scope "global" or the scope "*". */
  ghost predicate Everywhere(scope: Option<string>) {
    Named(scope, "") || Named(scope, "global") || Named(scope, "*")
  }

  ghost predicate SamePlace(a: Option<string>, b: Option<string>) {
    exists t :: Named(a, t) && Named(b, t)
  }

  lemma {:induction false} PlacesExact(a: Option<string>, b: Option<string>)
    ensures Universal(a) <==> Everywhere(a)
    ensures NormalScope(a) == NormalScope(b) <==> SamePlace(a, b)
    ensures ScopesOverlap(a, b) <==> Everywhere(a) || Everywhere(b) || SamePlace(a, b)
  {
    ScopeNamed(a);
    ScopeNamed(b);
    hide Named, NormalScope;
  }

  /*--------------------------------- resolution --------------------------------*/

  /** The segment applies: it does everywhere, or one of the active scopes is its own. */
  ghost predicate InForce(x: Segment, active: Option<seq<string>>) {
    match active
    case Some(scopes) => Everywhere(x.scope) || exists a :: a in scopes && SamePlace(Some(a), x.scope)
    case None => true
  }

  ghost predicate Contends(x: Segment, active: Option<seq<string>>, key: string) {
    InForce(x, active) && x.conflictKey == Some(key)
  }

  /** Both are in force under the key, and their scopes meet, or some segment in force under
      the key applies everywhere. */
  ghost predicate Rivals(s: seq<Segment>, active: Option<seq<string>>, key: string, x: Segment, y: Segment) {
    && x in s && y in s && Contends(x, active, key) && Contends(y, active, key)
    && (SamePlace(x.scope, y.scope) || exists u :: u in s && Contends(u, active, key) && Everywhere(u.scope))
  }

  /** The stronger binding wins, then the higher authority, then a scope of its own. */
  ghost predicate Outranks(x: Segment, y: Segment) {
    || Stronger(x.binding, y.binding)
    || (x.binding == y.binding && Higher(x.authority, y.authority))
    || (x.binding == y.binding && x.authority == y.authority && !Everywhere(x.scope) && Everywhere(y.scope))
  }

  lemma {:induction false} OutranksExact(x: Segment, y: Segment)
    ensures ScoreGt(x, y) <==> Outranks(x, y)
  {
    PlacesExact(x.scope, y.scope);
    PlacesExact(y.scope, x.scope);
    hide Everywhere, Universal;
  }

  lemma {:induction false} ForceExact(x: Segment, active: Option<seq<string>>)
    ensures Applies(x, active) <==> InForce(x, active)
  {
    PlacesExact(x.scope, x.scope);
    if active.Some? {
      forall a
        ensures NormalScope(Some(a)) == NormalScope(x.scope) <==> SamePlace(Some(a), x.scope)
      {
        PlacesExact(Some(a), x.scope);
      }
    }
    hide Everywhere, Universal, SamePlace, NormalScope;
  }

  lemma {:induction false} RivalsExact(s: seq<Segment>, active: Option<seq<string>>, key: string, x: Segment, y: Segment)
    ensures Linked(s, active, key, x, y) <==> Rivals(s, active, key, x, y)
  {
    PlacesExact(x.scope, y.scope);
    forall u
      ensures Takes(u, active, key) <==> Contends(u, active, key)
      ensures Universal(u.scope) <==> Everywhere(u.scope)
    {
      ForceExact(u, active);
      PlacesExact(u.scope, u.scope);
    }
    hide Everywhere, Universal, SamePlace, NormalScope, Takes, Contends;
  }

  /** A segment is accepted exactly if it is in force and no rival outranks it or equals it
      from an earlier position. */
  lemma {:induction false} AcceptedExact(s: seq<Segment>, active: Option<seq<string>>, i: nat)
    requires i < |s|
    ensures Accepted(s, active, i) <==>
              && InForce(s[i], active)
              && (s[i].conflictKey.Some? ==>
                    forall j :: 0 <= j < |s| && Rivals(s, active, s[i].conflictKey.value, s[i], s[j]) ==>
                      !Outranks(s[j], s[i]) && (Outranks(s[i], s[j]) || i <= j))
  {
    ForceExact(s[i], active);
    forall j | 0 <= j < |s|
      ensures s[i].conflictKey.Some? ==>
                (Linked(s, active, s[i].conflictKey.value, s[i], s[j]) <==> Rivals(s, active, s[i].conflictKey.value, s[i], s[j]))
      ensures Beats(Candidate(i, s[i]), Candidate(j, s[j])) <==> !Outranks(s[j], s[i]) && (Outranks(s[i], s[j]) || i <= j)
    {
      if s[i].conflictKey.Some? {
        RivalsExact(s, active, s[i].conflictKey.value, s[i], s[j]);
      }
      OutranksExact(s[i], s[j]);
      OutranksExact(s[j], s[i]);
      ScoreOrder(s[i], s[j], s[i]);
    }
    hide Linked, Rivals, Applies, InForce, Beats, Outranks;
  }

  /** A key cannot be decided exactly if two rivals of different content are outranked by
      no rival. */
  lemma {:induction false} TiesExact(s: seq<Segment>, active: Option<seq<string>>, key: string)
    ensures TiedAt(s, active, key) <==>
              exists x, y :: && Rivals(s, active, key, x, y) && x.content != y.content
                             && Unrivalled(s, active, key, x) && Unrivalled(s, active, key, y)
  {
    forall x, y
      ensures Linked(s, active, key, x, y) <==> Rivals(s, active, key, x, y)
      ensures ScoreGt(x, y) <==> Outranks(x, y)
    {
      RivalsExact(s, active, key, x, y);
      OutranksExact(x, y);
    }
    forall x, y | Rivals(s, active, key, x, y)
      ensures Top(s, active, key, x) <==> Unrivalled(s, active, key, x)
      ensures Top(s, active, key, y) <==> Unrivalled(s, active, key, y)
    {
      RivalsExact(s, active, key, x, y);
      LinkedTakes(s, active, key, x, y);
      hide Linked, Rivals, ScoreGt, Outranks, Takes;
    }
    hide Linked, Rivals, ScoreGt, Outranks, Top, Unrivalled;
  }

  lemma {:induction false} LinkedTakes(s: seq<Segment>, active: Option<seq<string>>, key: string, x: Segment, y: Segment)
    requires Linked(s, active, key, x, y)
    ensures x in s && y in s && Takes(x, active, key) && Takes(y, active, key)
  {
  }

  ghost predicate Unrivalled(s: seq<Segment>, active: Option<seq<string>>, key: string, x: Segment) {
    forall y :: Rivals(s, active, key, x, y) ==> !Outranks(y, x)
  }
}
