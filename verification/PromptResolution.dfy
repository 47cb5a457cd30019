/** What a resolution guarantees about the prompt, for every list of segments. */
module PromptResolution {
  import opened Ordering
  import opened PromptResolver

  lemma {:induction false} LinkedIsEquivalence(s: seq<Segment>, active: Option<seq<string>>, key: string, x: Segment,
          y: Segment, z: Segment)
    ensures Linked(s, active, key, x, y) ==> Linked(s, active, key, x, x) && Linked(s, active, key, y, x)
    ensures Linked(s, active, key, x, y) && Linked(s, active, key, y, z) ==> Linked(s, active, key, x, z)
  {
    hide Universal, NormalScope, Takes;
  }

  /*------------------------- one accepted per component ------------------------*/

  /** The best of the first n positions that are linked to i. */
  lemma {:induction false} BestLinkedBelow(s: seq<Segment>, active: Option<seq<string>>, key: string, i: nat, n: nat)
    returns (best: nat)
    requires i < n <= |s| && Linked(s, active, key, s[i], s[i])
    ensures best < n && Linked(s, active, key, s[i], s[best])
    ensures forall j :: 0 <= j < n && Linked(s, active, key, s[i], s[j]) ==> Beats(Candidate(best, s[best]), Candidate(j, s[j]))
    decreases n
  {
    hide Linked, Beats;
    var last := Candidate(n - 1, s[n - 1]);
    BeatsOrder(last, last, last);
    if n - 1 == i {
      best := EarliestBest(s, active, key, i, i);
    } else {
      best := BestLinkedBelow(s, active, key, i, n - 1);
      if Linked(s, active, key, s[i], s[n - 1]) && !Beats(Candidate(best, s[best]), last) {
        forall j | 0 <= j < n && Linked(s, active, key, s[i], s[j])
          ensures Beats(last, Candidate(j, s[j]))
        {
          BeatsOrder(last, Candidate(best, s[best]), Candidate(j, s[j]));
        }
        best := n - 1;
      }
    }
  }

  /** The best of position i itself and the linked ones before n. */
  lemma {:induction false} EarliestBest(s: seq<Segment>, active: Option<seq<string>>, key: string, i: nat, n: nat)
    returns (best: nat)
    requires n <= i < |s| && Linked(s, active, key, s[i], s[i])
    ensures best <= i && Linked(s, active, key, s[i], s[best])
    ensures forall j :: (0 <= j < n || j == i) && Linked(s, active, key, s[i], s[j]) ==> Beats(Candidate(best, s[best]), Candidate(j, s[j]))
    decreases n
  {
    hide Linked, Beats;
    if n == 0 {
      best := i;
      BeatsOrder(Candidate(i, s[i]), Candidate(i, s[i]), Candidate(i, s[i]));
    } else {
      best := EarliestBest(s, active, key, i, n - 1);
      var last := Candidate(n - 1, s[n - 1]);
      BeatsOrder(last, last, last);
      if Linked(s, active, key, s[i], s[n - 1]) && !Beats(Candidate(best, s[best]), last) {
        forall j | (0 <= j < n || j == i) && Linked(s, active, key, s[i], s[j])
          ensures Beats(last, Candidate(j, s[j]))
        {
          BeatsOrder(last, Candidate(best, s[best]), Candidate(j, s[j]));
        }
        best := n - 1;
      }
    }
  }

  /** Every participant is accepted itself or has exactly one accepted segment in
      its component. */
  lemma {:induction false} OneAcceptedPerComponent(s: seq<Segment>, active: Option<seq<string>>, key: string, i: nat)
      returns (winner: nat)
    requires i < |s| && Takes(s[i], active, key)
    ensures winner < |s| && Linked(s, active, key, s[i], s[winner]) && Accepted(s, active, winner)
    ensures forall j :: 0 <= j < |s| && Linked(s, active, key, s[i], s[j]) && Accepted(s, active, j) ==> j == winner
  {
    ItselfLinked(s, active, key, i);
    hide Beats, Linked;
    winner := BestLinkedBelow(s, active, key, i, |s|);
    LinkedTakes(s, active, key, s[i], s[winner]);
    forall j | 0 <= j < |s| && Linked(s, active, key, s[winner], s[j])
      ensures Beats(Candidate(winner, s[winner]), Candidate(j, s[j]))
    {
      LinkedIsEquivalence(s, active, key, s[i], s[winner], s[j]);
    }
    forall j | 0 <= j < |s| && Linked(s, active, key, s[i], s[j]) && Accepted(s, active, j)
      ensures j == winner
    {
      LinkedTakes(s, active, key, s[i], s[j]);
      LinkedIsEquivalence(s, active, key, s[i], s[j], s[i]);
      LinkedIsEquivalence(s, active, key, s[j], s[i], s[winner]);
      BeatsOrder(Candidate(j, s[j]), Candidate(winner, s[winner]), Candidate(j, s[j]));
    }
  }

  lemma {:induction false} ItselfLinked(s: seq<Segment>, active: Option<seq<string>>, key: string, i: nat)
    requires i < |s| && Takes(s[i], active, key)
    ensures Linked(s, active, key, s[i], s[i])
  {
    hide NormalScope, Universal;
  }

  /** No two accepted segments share a key with overlapping scopes. */
  lemma {:induction false} NoTwoAcceptedOverlap(s: seq<Segment>, active: Option<seq<string>>, i: nat, j: nat)
    requires i < |s| && j < |s| && Accepted(s, active, i) && Accepted(s, active, j)
    requires s[i].conflictKey.Some? && s[i].conflictKey == s[j].conflictKey && ScopesOverlap(s[i].scope, s[j].scope)
    ensures i == j
  {
    hide Beats, Universal, NormalScope, Applies;
    var key := s[i].conflictKey.value;
    assert Linked(s, active, key, s[i], s[j]) && Linked(s, active, key, s[j], s[i]);
    BeatsOrder(Candidate(i, s[i]), Candidate(j, s[j]), Candidate(i, s[i]));
  }

  /** Every position is exactly one of accepted, suppressed, inapplicable. */
  lemma {:induction false} Partition(s: seq<Segment>, active: Option<seq<string>>, r: Resolution, i: nat)
    requires Right(s, active, r) && r.Resolved? && i < |s|
    ensures i in r.accepted <==> i !in r.inapplicable && !Holds(r.suppressed, i)
    ensures i in r.inapplicable ==> !Holds(r.suppressed, i)
  {
    hide Linked, Beats, Applies, TiedAt, Positions;
    InapplicableExact(s, active, |s|);
    PositionedExact(|s|, (k: nat) => k < |s| && Accepted(s, active, k));
    var c := Candidate(i, s[i]);
    assert c in r.suppressed <==> Suppressed(s, active, c);
  }

  lemma {:induction false} PositionedExact(n: nat, keep: nat -> bool)
    ensures forall i: nat :: i in Positioned(n, keep) <==> i < n && keep(i)
    ensures forall k :: 0 < k < |Positioned(n, keep)| ==> Positioned(n, keep)[k - 1] < Positioned(n, keep)[k]
  {
    if n > 0 {
      PositionedExact(n - 1, keep);
      var init := Positioned(n - 1, keep);
      var last := if keep(n - 1) then [n - 1] else [];
      assert Positioned(n, keep) == init + last;
      assert init != [] ==> init[|init| - 1] in init;
    }
  }

  /*----------------------------- hard instructions -----------------------------*/

  /** Whatever is linked to a hard segment and is accepted is hard itself, so it
      does not come from a source capped below hard. */
  lemma {:induction false} HardPrevails(s: seq<Segment>, active: Option<seq<string>>, key: string, hard: nat, i: nat)
    requires hard < |s| && i < |s| && Linked(s, active, key, s[hard], s[i])
    requires s[hard].binding == Hard && Accepted(s, active, i) && WithinPolicy(s[i])
    ensures s[i].binding == Hard && !CappedBelowHard(s[i].source)
  {
    LinkedIsEquivalence(s, active, key, s[hard], s[i], s[hard]);
    LinkedTakes(s, active, key, s[hard], s[i]);
    hide Linked, Applies;
    assert Beats(Candidate(i, s[i]), Candidate(hard, s[hard]));
  }

  /*----------------------------- order independence ----------------------------*/

  lemma {:induction false} AcceptedIsTop(s: seq<Segment>, active: Option<seq<string>>, key: string, i: nat)
    requires i < |s| && Accepted(s, active, i) && s[i].conflictKey == Some(key)
    ensures Top(s, active, key, s[i])
  {
    hide Linked, ScoreGt, Applies;
    forall y | Linked(s, active, key, s[i], y)
      ensures !ScoreGt(y, s[i])
    {
      var j := LinkedIndex(s, active, key, s[i], y);
      assert Beats(Candidate(i, s[i]), Candidate(j, s[j]));
      ScoreOrder(s[i], s[j], s[i]);
    }
  }

  lemma {:induction false} TopIndex(s: seq<Segment>, active: Option<seq<string>>, key: string, x: Segment)
    returns (i: nat)
    requires Top(s, active, key, x)
    ensures i < |s| && s[i] == x && Takes(x, active, key)
  {
    i :| 0 <= i < |s| && s[i] == x;
  }

  lemma {:induction false} SameMembersSameLinks(s: seq<Segment>, t: seq<Segment>, active: Option<seq<string>>,
          key: string, x: Segment, y: Segment)
    requires forall z :: z in s <==> z in t
    ensures Linked(s, active, key, x, y) <==> Linked(t, active, key, x, y)
  {
    hide Takes, ScopesOverlap, Universal;
  }

  lemma {:induction false} SameMembersSameTop(s: seq<Segment>, t: seq<Segment>, active: Option<seq<string>>,
          key: string, x: Segment)
    requires forall z :: z in s <==> z in t
    ensures Top(s, active, key, x) <==> Top(t, active, key, x)
  {
    hide Linked, ScoreGt, Takes;
    forall y
      ensures Linked(s, active, key, x, y) <==> Linked(t, active, key, x, y)
    {
      SameMembersSameLinks(s, t, active, key, x, y);
    }
  }

  /** The accepted positions of a key with this content. */
  ghost function AcceptedWith(s: seq<Segment>, active: Option<seq<string>>, key: string, content: string): set<nat> {
    set i: nat | i < |s| && Accepted(s, active, i) && s[i].conflictKey == Some(key) && s[i].content == content
  }

  /** The component of a participant. */
  ghost function ClassOf(s: seq<Segment>, active: Option<seq<string>>, key: string, x: Segment): set<Segment> {
    set z | z in s && Linked(s, active, key, x, z)
  }

  /** The components with this content on top. */
  ghost function ClassesWith(s: seq<Segment>, active: Option<seq<string>>, key: string, content: string)
    : set<set<Segment>>
  {
    set x | x in s && Top(s, active, key, x) && x.content == content :: ClassOf(s, active, key, x)
  }

  ghost function Classes(s: seq<Segment>, active: Option<seq<string>>, key: string, positions: set<nat>)
    : set<set<Segment>>
  {
    set i | i in positions && i < |s| :: ClassOf(s, active, key, s[i])
  }

  lemma {:induction false} LinkedSameClass(s: seq<Segment>, active: Option<seq<string>>, key: string, x: Segment,
          y: Segment)
    requires Linked(s, active, key, x, y)
    ensures ClassOf(s, active, key, x) == ClassOf(s, active, key, y)
  {
    hide Linked;
    forall z
      ensures z in ClassOf(s, active, key, x) <==> z in ClassOf(s, active, key, y)
    {
      LinkedIsEquivalence(s, active, key, x, y, z);
      LinkedIsEquivalence(s, active, key, y, x, z);
      InClass(s, active, key, x, z);
      InClass(s, active, key, y, z);
    }
  }

  lemma {:induction false} InClass(s: seq<Segment>, active: Option<seq<string>>, key: string, x: Segment, z: Segment)
    ensures z in ClassOf(s, active, key, x) <==> Linked(s, active, key, x, z)
  {
  }

  /** As many classes as positions, if no two positions share one. */
  lemma {:induction false} ClassesApart(s: seq<Segment>, active: Option<seq<string>>, key: string, positions: set<nat>)
    requires forall i :: i in positions ==> i < |s|
    requires forall i, j :: i in positions && j in positions ==>
               (ClassOf(s, active, key, s[i]) == ClassOf(s, active, key, s[j]) ==> i == j)
    ensures |Classes(s, active, key, positions)| == |positions|
  {
    hide ClassOf;
    if positions == {} {
      assert Classes(s, active, key, positions) == {};
    } else {
      var i :| i in positions;
      var rest := positions - {i};
      ClassesApart(s, active, key, rest);
      assert Classes(s, active, key, positions) == Classes(s, active, key, rest) + {ClassOf(s, active, key, s[i])};
      assert ClassOf(s, active, key, s[i]) !in Classes(s, active, key, rest);
    }
  }

  lemma {:induction false} AcceptedApart(s: seq<Segment>, active: Option<seq<string>>, key: string, i: nat, j: nat)
    requires i < |s| && j < |s| && Accepted(s, active, i) && Accepted(s, active, j)
    requires s[i].conflictKey == s[j].conflictKey == Some(key)
    requires ClassOf(s, active, key, s[i]) == ClassOf(s, active, key, s[j])
    ensures i == j
  {
    ItselfLinked(s, active, key, j);
    InClass(s, active, key, s[j], s[j]);
    InClass(s, active, key, s[i], s[j]);
    hide Linked, ClassOf, Beats;
    var winner := OneAcceptedPerComponent(s, active, key, i);
    ItselfLinked(s, active, key, i);
  }

  /** Without a tie, a content is accepted once per component that has it on top. */
  lemma {:induction false} OncePerClass(s: seq<Segment>, active: Option<seq<string>>, key: string, content: string)
    requires !TiedAt(s, active, key)
    ensures |AcceptedWith(s, active, key, content)| == |ClassesWith(s, active, key, content)|
  {
    hide Accepted, Linked, Top, ClassOf, TiedAt;
    var positions := AcceptedWith(s, active, key, content);
    forall i, j | i in positions && j in positions && ClassOf(s, active, key, s[i]) == ClassOf(s, active, key, s[j])
      ensures i == j
    {
      AcceptedApart(s, active, key, i, j);
    }
    ClassesApart(s, active, key, positions);
    forall i | i in positions
      ensures ClassOf(s, active, key, s[i]) in ClassesWith(s, active, key, content)
    {
      AcceptedIsTop(s, active, key, i);
    }
    forall x | x in s && Top(s, active, key, x) && x.content == content
      ensures ClassOf(s, active, key, x) in Classes(s, active, key, positions)
    {
      var w := TopIsAccepted(s, active, key, x);
      LinkedSameClass(s, active, key, x, s[w]);
    }
    assert Classes(s, active, key, positions) == ClassesWith(s, active, key, content);
  }

  lemma {:induction false} TopIsAccepted(s: seq<Segment>, active: Option<seq<string>>, key: string, x: Segment)
    returns (w: nat)
    requires !TiedAt(s, active, key) && Top(s, active, key, x)
    ensures w < |s| && Linked(s, active, key, x, s[w]) && w in AcceptedWith(s, active, key, x.content)
  {
    hide Top, Accepted, Linked;
    var i := TopIndex(s, active, key, x);
    w := OneAcceptedPerComponent(s, active, key, i);
    LinkedTakes(s, active, key, s[i], s[w]);
    AcceptedIsTop(s, active, key, w);
    assert s[w].content == x.content;
  }

  lemma {:induction false} SameMembersSameClasses(s: seq<Segment>, t: seq<Segment>, active: Option<seq<string>>,
          key: string, content: string)
    requires forall z :: z in s <==> z in t
    ensures ClassesWith(s, active, key, content) == ClassesWith(t, active, key, content)
  {
    hide Linked, Top, ClassOf;
    forall x
      ensures Top(s, active, key, x) <==> Top(t, active, key, x)
      ensures ClassOf(s, active, key, x) == ClassOf(t, active, key, x)
    {
      SameMembersSameTop(s, t, active, key, x);
      SameMembersSameClass(s, t, active, key, x);
    }
  }

  lemma {:induction false} SameMembersSameClass(s: seq<Segment>, t: seq<Segment>, active: Option<seq<string>>,
          key: string, x: Segment)
    requires forall z :: z in s <==> z in t
    ensures ClassOf(s, active, key, x) == ClassOf(t, active, key, x)
  {
    hide Linked;
    forall z
      ensures z in ClassOf(s, active, key, x) <==> z in ClassOf(t, active, key, x)
    {
      SameMembersSameLinks(s, t, active, key, x, z);
      InClass(s, active, key, x, z);
      InClass(t, active, key, x, z);
    }
  }

  /** Neither the order of the segments nor a repetition decides whether a key is
      tied or how often each content is accepted. */
  lemma {:induction false} OrderIndependent(s: seq<Segment>, t: seq<Segment>, active: Option<seq<string>>,
          key: string, content: string)
    requires forall z :: z in s <==> z in t
    ensures TiedAt(s, active, key) <==> TiedAt(t, active, key)
    ensures !TiedAt(s, active, key) ==>
              |AcceptedWith(s, active, key, content)| == |AcceptedWith(t, active, key, content)|
  {
    SameMembersSameTie(s, t, active, key);
    SameMembersSameTie(t, s, active, key);
    hide TiedAt, ClassesWith, AcceptedWith;
    if !TiedAt(s, active, key) {
      OncePerClass(s, active, key, content);
      OncePerClass(t, active, key, content);
      SameMembersSameClasses(s, t, active, key, content);
    }
  }

  lemma {:induction false} SameMembersSameTie(s: seq<Segment>, t: seq<Segment>, active: Option<seq<string>>,
          key: string)
    requires forall z :: z in s <==> z in t
    ensures TiedAt(s, active, key) ==> TiedAt(t, active, key)
  {
    hide Linked, Top;
    if x, y :| Linked(s, active, key, x, y) && Top(s, active, key, x) && Top(s, active, key, y) && x.content != y.content {
      SameMembersSameLinks(s, t, active, key, x, y);
      SameMembersSameTop(s, t, active, key, x);
      SameMembersSameTop(s, t, active, key, y);
    }
  }

  /*-------------------------------- resolving again ----------------------------*/

  function Pick(s: seq<Segment>, positions: seq<nat>): (t: seq<Segment>)
    requires forall k :: 0 <= k < |positions| ==> positions[k] < |s|
    ensures |t| == |positions| && forall k :: 0 <= k < |t| ==> t[k] == s[positions[k]]
  {
    seq(|positions|, k requires 0 <= k < |positions| => s[positions[k]])
  }

  predicate Clashes(x: Segment, y: Segment) {
    x.conflictKey.Some? && x.conflictKey == y.conflictKey && ScopesOverlap(x.scope, y.scope)
  }

  ghost predicate Separate(t: seq<Segment>) {
    forall k, l :: 0 <= k < |t| && 0 <= l < |t| && Clashes(t[k], t[l]) ==> k == l
  }

  /** In a list of which no two members of a key overlap, everything stays. */
  lemma {:induction false} SeparateIsSettled(t: seq<Segment>, active: Option<seq<string>>)
    requires forall k :: 0 <= k < |t| ==> Applies(t[k], active)
    requires Separate(t)
    ensures forall key :: !TiedAt(t, active, key)
    ensures forall k :: 0 <= k < |t| ==> Accepted(t, active, k)
  {
    hide Beats, Applies, ScoreGt;
    forall key, k, l | 0 <= k < |t| && 0 <= l < |t| && Linked(t, active, key, t[k], t[l])
      ensures k == l
    {
      LinkedInSeparate(t, active, key, k, l);
    }
    forall k | 0 <= k < |t|
      ensures Beats(Candidate(k, t[k]), Candidate(k, t[k]))
    {
      BeatsOrder(Candidate(k, t[k]), Candidate(k, t[k]), Candidate(k, t[k]));
    }
    forall key
      ensures !TiedAt(t, active, key)
    {
      forall x, y | Linked(t, active, key, x, y)
        ensures x == y
      {
        var k := LinkedSource(t, active, key, x, y);
        var l := LinkedIndex(t, active, key, x, y);
      }
    }
  }

  lemma {:induction false} LinkedInSeparate(t: seq<Segment>, active: Option<seq<string>>, key: string, k: nat, l: nat)
    requires k < |t| && l < |t| && Linked(t, active, key, t[k], t[l])
    requires Separate(t)
    ensures k == l
  {
    hide NormalScope, Applies;
    assert ScopesOverlap(t[k].scope, t[l].scope) ==> Clashes(t[k], t[l]);
    forall u | u in t && Takes(u, active, key) && Universal(u.scope)
      ensures k == l
    {
      var m :| 0 <= m < |t| && t[m] == u;
      assert Clashes(t[k], t[m]) && Clashes(t[m], t[l]);
    }
  }

  /** Resolving the accepted segments once more accepts all of them. */
  lemma {:induction false} ResolvingAgain(s: seq<Segment>, active: Option<seq<string>>, r: Resolution,
          again: Resolution)
    requires Right(s, active, r) && r.Resolved?
    requires forall k :: 0 <= k < |r.accepted| ==> r.accepted[k] < |s|
    requires Right(Pick(s, r.accepted), active, again)
    ensures again.Resolved? && again.suppressed == [] && again.inapplicable == []
    ensures |again.accepted| == |r.accepted| && forall k :: 0 <= k < |r.accepted| ==> again.accepted[k] == k
  {
    assert again.Resolved? && again.suppressed != [] ==> again.suppressed[0] in again.suppressed;
    assert again.Resolved? && again.inapplicable != [] ==> again.inapplicable[0] in again.inapplicable;
    var t := Pick(s, r.accepted);
    PositionedExact(|s|, (k: nat) => k < |s| && Accepted(s, active, k));
    forall k | 0 <= k < |r.accepted|
      ensures Accepted(s, active, r.accepted[k])
    {
      assert r.accepted[k] in r.accepted;
    }
    SeparateAccepted(s, active, r.accepted, t);
    SeparateIsSettled(t, active);
    hide TiedAt, Applies, Linked;
    if again.Resolved? {
      InapplicableExact(t, active, |t|);
      AllPositioned(|t|, (k: nat) => k < |t| && Accepted(t, active, k));
    }
  }

  lemma {:induction false} AllPositioned(n: nat, keep: nat -> bool)
    requires forall k: nat :: k < n ==> keep(k)
    ensures |Positioned(n, keep)| == n && forall k :: 0 <= k < n ==> Positioned(n, keep)[k] == k
  {
    if n > 0 {
      AllPositioned(n - 1, keep);
    }
  }

  lemma {:induction false} SeparateAccepted(s: seq<Segment>, active: Option<seq<string>>, positions: seq<nat>,
          t: seq<Segment>)
    requires forall k :: 0 <= k < |positions| ==> positions[k] < |s| && Accepted(s, active, positions[k])
    requires forall k :: 0 < k < |positions| ==> positions[k - 1] < positions[k]
    requires t == Pick(s, positions)
    ensures forall k :: 0 <= k < |t| ==> Applies(t[k], active)
    ensures Separate(t)
  {
    hide Applies, Linked, Beats, ScopesOverlap;
    forall k | 0 <= k < |t|
      ensures Applies(t[k], active)
    {
    }
    forall k, l | 0 <= k < |t| && 0 <= l < |t| && Clashes(t[k], t[l])
      ensures k == l
    {
      NoTwoAcceptedOverlap(s, active, positions[k], positions[l]);
      Increasing(positions, k, l);
      Increasing(positions, l, k);
    }
  }

  lemma {:induction false} Increasing(positions: seq<nat>, k: nat, l: nat)
    requires forall m :: 0 < m < |positions| ==> positions[m - 1] < positions[m]
    requires k < |positions| && l < |positions|
    ensures k < l ==> positions[k] < positions[l]
    decreases l
  {
    if k < l - 1 {
      Increasing(positions, k, l - 1);
    }
  }
}
