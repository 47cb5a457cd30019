/** The merge diamond: a clean merge is each side with the other side's own edits
    carried over, and does not depend on which side is called current. */
module MergeDiamond {
  import opened Ordering
  import opened Merge

  /** How much an edit lengthens the text. */
  function Growth(e: Edit): int {
    |e.replacement| - (e.end - e.start)
  }

  /** Total growth of those edits that come before e. */
  function Shift(edits: seq<Edit>, e: Edit): int {
    if edits == [] then 0
    else (if KeyBefore(edits[0], e) then Growth(edits[0]) else 0) + Shift(edits[1..], e)
  }

  function Moved(e: Edit, delta: int): Edit {
    Edit(e.start + delta, e.end + delta, e.replacement)
  }

  /** The edits of one side that the other side does not share, moved to where
      their lines are after the other side's edits. */
  function Rebased(edits: seq<Edit>, over: seq<Edit>): seq<Edit> {
    MovedAll(Filter(edits, (e: Edit) => e !in over), over)
  }

  function MovedAll(own: seq<Edit>, over: seq<Edit>): seq<Edit> {
    if own == [] then [] else [Moved(own[0], Shift(over, own[0]))] + MovedAll(own[1..], over)
  }

  /*------------------------------- chains and tails ----------------------------*/

  lemma {:induction false} Regroup(a: Text, b: Text, c: Text, d: Text)
    ensures (a + b) + c + d == a + (b + c + d)
  {
  }

  lemma {:induction false} ApplyHead(base: Text, edits: seq<Edit>, pos: int)
    requires edits != [] && Chain(base, edits, pos)
    ensures 0 <= pos <= edits[0].start <= edits[0].end <= |base| && Chain(base, edits[1..], edits[0].end)
    ensures ApplyFrom(base, edits, pos)
         == base[pos..edits[0].start] + edits[0].replacement + ApplyFrom(base, edits[1..], edits[0].end)
  {
  }

  lemma {:induction false} PutInFront(text: Text, e: Edit, rest: seq<Edit>, pos: int)
    requires 0 <= pos <= e.start <= e.end <= |text| && Chain(text, rest, e.end)
    ensures Chain(text, [e] + rest, pos)
    ensures ApplyFrom(text, [e] + rest, pos) == text[pos..e.start] + e.replacement + ApplyFrom(text, rest, e.end)
  {
    assert ([e] + rest)[1..] == rest;
  }

  lemma {:induction false} ChainEarlier(base: Text, edits: seq<Edit>, pos: int, from: int)
    requires Chain(base, edits, pos) && 0 <= from <= pos
    ensures Chain(base, edits, from)
    ensures ApplyFrom(base, edits, from) == base[from..pos] + ApplyFrom(base, edits, pos)
  {
    if edits == [] {
      assert base[from..] == base[from..pos] + base[pos..];
    } else {
      StartEarlier(base, edits, pos, from);
    }
  }

  lemma {:induction false} StartEarlier(base: Text, edits: seq<Edit>, pos: int, from: int)
    requires edits != [] && Chain(base, edits, pos) && 0 <= from <= pos
    ensures Chain(base, edits, from)
    ensures ApplyFrom(base, edits, from) == base[from..pos] + ApplyFrom(base, edits, pos)
  {
    hide ApplyFrom;
    var e := edits[0];
    ApplyHead(base, edits, pos);
    ApplyHead(base, edits, from);
    assert base[from..e.start] == base[from..pos] + base[pos..e.start];
    Regroup(base[from..pos], base[pos..e.start], e.replacement, ApplyFrom(base, edits[1..], e.end));
  }

  /** The edits of the list that satisfy keep still form a chain. */
  lemma {:induction false} FilteredChain(base: Text, edits: seq<Edit>, pos: int, keep: Edit -> bool)
    requires Chain(base, edits, pos)
    ensures Chain(base, Filter(edits, keep), pos)
  {
    if edits != [] {
      FilteredChain(base, edits[1..], edits[0].end, keep);
      if !keep(edits[0]) {
        ChainEarlier(base, Filter(edits[1..], keep), edits[0].end, pos);
      }
    }
  }

  /** The edits outside keep, each moved by the growth of the kept ones passed so far. */
  function Carried(edits: seq<Edit>, keep: Edit -> bool, delta: int): seq<Edit> {
    if edits == [] then []
    else if keep(edits[0]) then Carried(edits[1..], keep, delta + Growth(edits[0]))
    else [Moved(edits[0], delta)] + Carried(edits[1..], keep, delta)
  }

  /** Applying the kept edits first and the carried rest afterwards is applying
      all of them at once.  prefix is what stands before position pos by then. */
  lemma {:induction false} ApplyInTwoSteps(base: Text, edits: seq<Edit>, pos: int, keep: Edit -> bool, prefix: Text)
    requires Chain(base, edits, pos) && Chain(base, Filter(edits, keep), pos)
    ensures var text := prefix + ApplyFrom(base, Filter(edits, keep), pos);
            var rest := Carried(edits, keep, |prefix| - pos);
            && Chain(text, rest, |prefix|)
            && ApplyFrom(text, rest, |prefix|) == ApplyFrom(base, edits, pos)
    decreases |edits|
  {
    if edits == [] {
      assert (prefix + base[pos..])[|prefix|..] == base[pos..];
    } else {
      var e := edits[0];
      FilteredChain(base, edits[1..], e.end, keep);
      if keep(e) {
        StepOverKept(base, edits, pos, keep, prefix);
      } else {
        StepOverCarried(base, edits, pos, keep, prefix);
      }
    }
  }

  lemma {:induction false} StepOverKept(base: Text, edits: seq<Edit>, pos: int, keep: Edit -> bool, prefix: Text)
    requires edits != [] && keep(edits[0])
    requires Chain(base, edits, pos) && Chain(base, Filter(edits, keep), pos) && Chain(base, Filter(edits[1..], keep), edits[0].end)
    ensures var text := prefix + ApplyFrom(base, Filter(edits, keep), pos);
            var rest := Carried(edits, keep, |prefix| - pos);
            && Chain(text, rest, |prefix|)
            && ApplyFrom(text, rest, |prefix|) == ApplyFrom(base, edits, pos)
    decreases |edits|, 0
  {
    hide Chain, ApplyFrom, Carried, Filter;
    var e := edits[0];
    KeptHead(edits, keep, |prefix| - pos);
    ApplyHead(base, edits, pos);
    ApplyHead(base, Filter(edits, keep), pos);
    var done := base[pos..e.start] + e.replacement;
    var tail := ApplyFrom(base, Filter(edits[1..], keep), e.end);
    assert prefix + (done + tail) == (prefix + done) + tail;
    ApplyInTwoSteps(base, edits[1..], e.end, keep, prefix + done);
    var rest := Carried(edits, keep, |prefix| - pos);
    assert |prefix + done| - e.end == |prefix| - pos + Growth(e);
    ChainEarlier(prefix + done + tail, rest, |prefix + done|, |prefix|);
    Middle(prefix, done, tail, |done|);
  }

  lemma {:induction false} KeptHead(edits: seq<Edit>, keep: Edit -> bool, delta: int)
    requires edits != [] && keep(edits[0])
    ensures Filter(edits, keep) == [edits[0]] + Filter(edits[1..], keep)
    ensures Filter(edits, keep) != [] && Filter(edits, keep)[0] == edits[0] && Filter(edits, keep)[1..] == Filter(edits[1..], keep)
    ensures Carried(edits, keep, delta) == Carried(edits[1..], keep, delta + Growth(edits[0]))
  {
  }

  lemma {:induction false} StepOverCarried(base: Text, edits: seq<Edit>, pos: int, keep: Edit -> bool, prefix: Text)
    requires edits != [] && !keep(edits[0])
    requires Chain(base, edits, pos) && Chain(base, Filter(edits, keep), pos) && Chain(base, Filter(edits[1..], keep), edits[0].end)
    ensures var text := prefix + ApplyFrom(base, Filter(edits, keep), pos);
            var rest := Carried(edits, keep, |prefix| - pos);
            && Chain(text, rest, |prefix|)
            && ApplyFrom(text, rest, |prefix|) == ApplyFrom(base, edits, pos)
    decreases |edits|, 0
  {
    hide Chain, ApplyFrom, Carried, Moved;
    var e := edits[0];
    var kept := Filter(edits[1..], keep);
    assert Filter(edits, keep) == kept;
    ApplyHead(base, edits, pos);
    var all := base[pos..e.end];
    var tail := ApplyFrom(base, kept, e.end);
    ChainEarlier(base, kept, e.end, pos);
    assert prefix + (all + tail) == prefix + all + tail;
    ApplyInTwoSteps(base, edits[1..], e.end, keep, prefix + all);
    assert |prefix + all| - e.end == |prefix| - pos;
    AddCarried(base, edits, pos, prefix, tail, Carried(edits[1..], keep, |prefix| - pos));
    CarriedHead(edits, keep, |prefix| - pos);
  }

  lemma {:induction false} CarriedHead(edits: seq<Edit>, keep: Edit -> bool, delta: int)
    requires edits != [] && !keep(edits[0])
    ensures Carried(edits, keep, delta) == [Moved(edits[0], delta)] + Carried(edits[1..], keep, delta)
  {
  }

  /** The carried head edit goes in front of the carried rest. */
  lemma {:induction false} AddCarried(base: Text, edits: seq<Edit>, pos: int, prefix: Text, tail: Text, rest: seq<Edit>)
    requires edits != [] && Chain(base, edits, pos)
    requires var e := edits[0];
             var text := prefix + base[pos..e.end] + tail;
             var from := |prefix| + e.end - pos;
             Chain(text, rest, from) && ApplyFrom(text, rest, from) == ApplyFrom(base, edits[1..], e.end)
    ensures var text := prefix + base[pos..edits[0].end] + tail;
            var moved := [Moved(edits[0], |prefix| - pos)] + rest;
            && Chain(text, moved, |prefix|)
            && ApplyFrom(text, moved, |prefix|) == ApplyFrom(base, edits, pos)
  {
    hide ApplyFrom, Chain;
    var e := edits[0];
    ApplyHead(base, edits, pos);
    var all := base[pos..e.end];
    PutInFront(prefix + all + tail, Moved(e, |prefix| - pos), rest, |prefix|);
    Middle(prefix, all, tail, e.start - pos);
    SliceOfSlice(base, pos, e.start, e.end);
  }

  lemma {:induction false} Middle(prefix: Text, all: Text, tail: Text, n: nat)
    requires n <= |all|
    ensures (prefix + all + tail)[|prefix|..|prefix| + n] == all[..n]
  {
  }

  lemma {:induction false} SliceOfSlice(base: Text, low: int, mid: int, high: int)
    requires 0 <= low <= mid <= high <= |base|
    ensures base[low..high][..mid - low] == base[low..mid]
  {
  }

  /*------------------------- carried edits are rebased edits --------------------*/

  lemma {:induction false} ShiftConcat(a: seq<Edit>, b: seq<Edit>, e: Edit)
    ensures Shift(a + b, e) == Shift(a, e) + Shift(b, e)
  {
    if a == [] {
      assert a + b == b;
    } else {
      assert (a + b)[1..] == a[1..] + b;
      ShiftConcat(a[1..], b, e);
    }
  }

  function TotalGrowth(edits: seq<Edit>): int {
    if edits == [] then 0 else TotalGrowth(edits[..|edits| - 1]) + Growth(edits[|edits| - 1])
  }

  lemma {:induction false} ShiftOfEarlier(edits: seq<Edit>, e: Edit)
    requires forall c :: c in edits ==> KeyBefore(c, e)
    ensures Shift(edits, e) == TotalGrowth(edits)
  {
    if edits != [] {
      var n := |edits| - 1;
      ShiftOfEarlier(edits[..n], e);
      assert edits == edits[..n] + [edits[n]];
      ShiftConcat(edits[..n], [edits[n]], e);
    }
  }

  lemma {:induction false} ShiftOfLater(edits: seq<Edit>, e: Edit)
    requires forall c :: c in edits ==> c == e || KeyBefore(e, c)
    ensures Shift(edits, e) == 0
  {
    if edits != [] {
      assert edits[0] in edits;
      assert forall c :: c in edits[1..] ==> c in edits;
      ShiftOfLater(edits[1..], e);
    }
  }

  /** Every edit is carried by the growth of the kept edits before it. */
  lemma {:induction false} CarriedIsMoved(done: seq<Edit>, rest: seq<Edit>, keep: Edit -> bool)
    requires SortedBy(done + rest, KeyBefore)
    ensures Carried(rest, keep, TotalGrowth(Filter(done, keep)))
         == MovedAll(Own(rest, keep), Filter(done + rest, keep))
    decreases |rest|
  {
    hide KeyBefore, Growth, Shift, SortedBy, Filter, TotalGrowth, Moved, MovedAll, Carried, Own;
    if rest == [] {
      NothingCarried(keep, TotalGrowth(Filter(done, keep)), Filter(done + rest, keep));
    } else {
      assert (done + [rest[0]]) + rest[1..] == done + rest;
      CarriedIsMoved(done + [rest[0]], rest[1..], keep);
      GrowthPassed(done, rest[0], keep);
      ShiftAt(done, rest, keep);
      CarriedStep(rest, keep, TotalGrowth(Filter(done, keep)), Filter(done + rest, keep));
    }
  }

  /** The edits outside keep. */
  function Own(edits: seq<Edit>, keep: Edit -> bool): seq<Edit> {
    Filter(edits, (e: Edit) => !keep(e))
  }

  lemma {:induction false} NothingCarried(keep: Edit -> bool, delta: int, over: seq<Edit>)
    ensures Carried([], keep, delta) == MovedAll(Own([], keep), over)
  {
  }

  lemma {:induction false} CarriedStep(rest: seq<Edit>, keep: Edit -> bool, delta: int, over: seq<Edit>)
    requires rest != [] && Shift(over, rest[0]) == delta
    requires Carried(rest[1..], keep, delta + if keep(rest[0]) then Growth(rest[0]) else 0)
          == MovedAll(Own(rest[1..], keep), over)
    ensures Carried(rest, keep, delta) == MovedAll(Own(rest, keep), over)
  {
    hide Growth, Shift, Moved;
    if !keep(rest[0]) {
      assert Own(rest, keep) == [rest[0]] + Own(rest[1..], keep);
      assert Own(rest, keep)[1..] == Own(rest[1..], keep);
    }
  }

  lemma {:induction false} GrowthPassed(done: seq<Edit>, e: Edit, keep: Edit -> bool)
    ensures TotalGrowth(Filter(done + [e], keep)) == TotalGrowth(Filter(done, keep)) + if keep(e) then Growth(e) else 0
  {
    hide Growth, Filter;
    FilterAppend(done, e, keep);
    var f := Filter(done, keep);
    if keep(e) {
      assert (f + [e])[..|f|] == f;
    } else {
      assert Filter(done + [e], keep) == f;
    }
  }

  lemma {:induction false} EditsAround(done: seq<Edit>, rest: seq<Edit>)
    requires SortedBy(done + rest, KeyBefore) && rest != []
    ensures forall c :: c in done ==> KeyBefore(c, rest[0])
    ensures forall c :: c in rest ==> c == rest[0] || KeyBefore(rest[0], c)
  {
    hide KeyBefore;
    var all := done + rest;
    forall c | c in done
      ensures KeyBefore(c, rest[0])
    {
      var i :| 0 <= i < |done| && done[i] == c;
      assert KeyBefore(all[i], all[|done|]);
    }
    forall c | c in rest
      ensures c == rest[0] || KeyBefore(rest[0], c)
    {
      var i :| 0 <= i < |rest| && rest[i] == c;
      assert i > 0 ==> KeyBefore(all[|done|], all[|done| + i]);
    }
  }

  lemma {:induction false} ShiftAt(done: seq<Edit>, rest: seq<Edit>, keep: Edit -> bool)
    requires SortedBy(done + rest, KeyBefore) && rest != []
    ensures Shift(Filter(done + rest, keep), rest[0]) == TotalGrowth(Filter(done, keep))
  {
    hide KeyBefore, Growth, Shift, SortedBy;
    FilterConcat(done, rest, keep);
    ShiftConcat(Filter(done, keep), Filter(rest, keep), rest[0]);
    EditsAround(done, rest);
    ShiftOfEarlier(Filter(done, keep), rest[0]);
    ShiftOfLater(Filter(rest, keep), rest[0]);
  }

  /*---------------------------------- the diamond ------------------------------*/

  lemma {:induction false} FirstIsTheSame(s: seq<Edit>, t: seq<Edit>)
    requires s != [] && SortedBy(s, KeyBefore) && SortedBy(t, KeyBefore)
    requires forall e :: e in s <==> e in t
    ensures t != [] && s[0] == t[0]
  {
    assert s[0] in t && t[0] in s;
    TailSorted(s, KeyBefore);
    TailSorted(t, KeyBefore);
    assert s == [s[0]] + s[1..] && t == [t[0]] + t[1..];
    assert forall e :: e in s ==> e == s[0] || KeyBefore(s[0], e);
    assert forall e :: e in t ==> e == t[0] || KeyBefore(t[0], e);
  }

  lemma {:induction false} OrderedSameMembers(s: seq<Edit>, t: seq<Edit>)
    requires SortedBy(s, KeyBefore) && SortedBy(t, KeyBefore)
    requires forall e :: e in s <==> e in t
    ensures s == t
  {
    assert t != [] ==> t[0] in t;
    if s != [] {
      FirstIsTheSame(s, t);
      TailSorted(s, KeyBefore);
      TailSorted(t, KeyBefore);
      assert s == [s[0]] + s[1..] && t == [t[0]] + t[1..];
      forall e
        ensures e in s[1..] <==> e in t[1..]
      {
        assert e in s[1..] ==> KeyBefore(s[0], e);
        assert e in t[1..] ==> KeyBefore(t[0], e);
        assert e in s <==> e in t;
      }
      OrderedSameMembers(s[1..], t[1..]);
    }
  }

  lemma {:induction false} ScriptIsOrdered(edits: seq<Edit>)
    requires SortedBy(edits, Separated) && forall e :: e in edits ==> Proper(e)
    ensures SortedBy(edits, KeyBefore)
  {
    forall i, j | 0 <= i < j < |edits|
      ensures KeyBefore(edits[i], edits[j])
    {
      assert edits[i] in edits && edits[j] in edits;
      assert Separated(edits[i], edits[j]);
    }
  }

  /** The combined edits that stem from one side are that side's script. */
  lemma {:induction false} SideOfCombined(current: seq<Edit>, proposed: seq<Edit>, side: seq<Edit>)
    requires Clean(current, proposed) && (side == current || side == proposed)
    ensures Filter(Ascending(current, proposed), (e: Edit) => e in side) == side
  {
    var asc := Ascending(current, proposed);
    AscendingOrdered(current, proposed);
    AscendingMembers(current, proposed);
    FilterSorted(asc, (e: Edit) => e in side, KeyBefore);
    ScriptIsOrdered(side);
    OrderedSameMembers(Filter(asc, (e: Edit) => e in side), side);
  }

  lemma {:induction false} OwnOfCombined(current: seq<Edit>, proposed: seq<Edit>, side: seq<Edit>, other: seq<Edit>)
    requires Clean(current, proposed)
    requires (side == current && other == proposed) || (side == proposed && other == current)
    ensures Filter(Ascending(current, proposed), (e: Edit) => e !in side) == Filter(other, (e: Edit) => e !in side)
  {
    var asc := Ascending(current, proposed);
    AscendingOrdered(current, proposed);
    AscendingMembers(current, proposed);
    ScriptIsOrdered(other);
    FilterSorted(asc, (e: Edit) => e !in side, KeyBefore);
    FilterSorted(other, (e: Edit) => e !in side, KeyBefore);
    OrderedSameMembers(Filter(asc, (e: Edit) => e !in side), Filter(other, (e: Edit) => e !in side));
  }

  /** One edge of the diamond: the merged text is one side with the other side's
      own edits rebased onto it. */
  lemma {:induction false} MergedFromSide(base: Text, current: seq<Edit>, proposed: seq<Edit>, side: seq<Edit>,
          other: seq<Edit>)
    requires Clean(current, proposed) && Chain(base, current, 0) && Chain(base, proposed, 0)
    requires (side == current && other == proposed) || (side == proposed && other == current)
    ensures Chain(base, Ascending(current, proposed), 0)
    ensures Chain(Apply(base, side), Rebased(other, side), 0)
    ensures Apply(Apply(base, side), Rebased(other, side)) == Apply(base, Ascending(current, proposed))
  {
    hide Ascending, Clean, KeyBefore, Shift, MovedAll, Carried, Filter, Chain, ApplyFrom, SortedBy;
    AscendingChain(base, current, proposed);
    AscendingOrdered(current, proposed);
    SideOfCombined(current, proposed, side);
    OwnOfCombined(current, proposed, side, other);
    CarriedFromStart(Ascending(current, proposed), side);
    SideThenRest(base, Ascending(current, proposed), side, Rebased(other, side));
  }

  lemma {:induction false} SideThenRest(base: Text, asc: seq<Edit>, side: seq<Edit>, rest: seq<Edit>)
    requires Chain(base, asc, 0) && Chain(base, side, 0)
    requires Filter(asc, (e: Edit) => e in side) == side && Carried(asc, (e: Edit) => e in side, 0) == rest
    ensures Chain(Apply(base, side), rest, 0) && Apply(Apply(base, side), rest) == Apply(base, asc)
  {
    hide Chain, ApplyFrom, Filter, Carried;
    ApplyInTwoSteps(base, asc, 0, (e: Edit) => e in side, []);
    assert [] + ApplyFrom(base, side, 0) == Apply(base, side);
  }

  lemma {:induction false} CarriedFromStart(asc: seq<Edit>, side: seq<Edit>)
    requires SortedBy(asc, KeyBefore)
    ensures Carried(asc, (e: Edit) => e in side, 0)
         == MovedAll(Filter(asc, (e: Edit) => e !in side), Filter(asc, (e: Edit) => e in side))
  {
    CarriedIsMoved([], asc, (e: Edit) => e in side);
    assert [] + asc == asc;
    SameOwn(asc, side);
  }

  lemma {:induction false} SameOwn(asc: seq<Edit>, side: seq<Edit>)
    ensures Own(asc, (e: Edit) => e in side) == Filter(asc, (e: Edit) => e !in side)
  {
    if asc != [] {
      SameOwn(asc[1..], side);
    }
  }

  lemma {:induction false} DifferScripts(diff: (Text, Text) -> seq<Edit>, base: Text, target: Text)
    requires Differ(diff)
    ensures ValidScript(base, diff(base, target), target)
    ensures Chain(base, diff(base, target), 0) && Apply(base, diff(base, target)) == target
    ensures SortedBy(diff(base, target), Separated) && forall e :: e in diff(base, target) ==> Proper(e)
  {
  }

  /** The early returns give what the general path gives. */
  lemma {:induction false} EarlyReturnsAgree(base: Text, current: Text, proposed: Text, diff: (Text, Text) -> seq<Edit>)
    requires Differ(diff)
    ensures MergeSpec(base, current, proposed, diff) == MergeEdits(base, diff(base, current), diff(base, proposed))
  {
    var c, p := diff(base, current), diff(base, proposed);
    DifferScripts(diff, base, current);
    DifferScripts(diff, base, proposed);
    if current == base || proposed == base || proposed == current {
      ScriptIsFree(c);
      ScriptIsFree(p);
      assert Clean(c, p);
      MergedIsApplied(base, c, p);
      AscendingMembers(c, p);
      AscendingOrdered(c, p);
      ScriptIsOrdered(c);
      ScriptIsOrdered(p);
      if current == base {
        OrderedSameMembers(Ascending(c, p), p);
      } else {
        OrderedSameMembers(Ascending(c, p), c);
      }
    }
  }

  /** The merge diamond.  A clean merge equals current with the proposed side's
      own edits rebased onto it, and equals proposed with the current side's own
      edits rebased onto it. */
  lemma {:induction false} Diamond(base: Text, current: Text, proposed: Text, diff: (Text, Text) -> seq<Edit>)
    requires Differ(diff) && MergeSpec(base, current, proposed, diff).Merged?
    ensures var c, p := diff(base, current), diff(base, proposed);
            var merged := MergeSpec(base, current, proposed, diff).content;
            && Chain(current, Rebased(p, c), 0) && Apply(current, Rebased(p, c)) == merged
            && Chain(proposed, Rebased(c, p), 0) && Apply(proposed, Rebased(c, p)) == merged
  {
    var c, p := diff(base, current), diff(base, proposed);
    DifferScripts(diff, base, current);
    DifferScripts(diff, base, proposed);
    EarlyReturnsAgree(base, current, proposed, diff);
    ConflictsExact(c, p);
    MergedIsApplied(base, c, p);
    MergedFromSide(base, c, p, c, p);
    MergedFromSide(base, c, p, p, c);
  }

  lemma {:induction false} ClashSymmetric(current: seq<Edit>, proposed: seq<Edit>)
    ensures Clashing(current, proposed) ==> Clashing(proposed, current)
  {
    if c, p :| c in current && p in proposed && Clash(c, p) {
      OverlapsSymmetric(c, p);
      assert Clash(p, c);
    }
  }

  /** Swapping the two sides changes neither whether they merge nor the result. */
  lemma {:induction false} MergeSymmetric(base: Text, current: Text, proposed: Text, diff: (Text, Text) -> seq<Edit>)
    requires Differ(diff)
    ensures var one, two := MergeSpec(base, current, proposed, diff), MergeSpec(base, proposed, current, diff);
            (one.Merged? <==> two.Merged?) && (one.Merged? ==> one == two)
  {
    hide Differ, ValidScript, Chain, MergeSpec, MergeEdits, SortedBy, Proper;
    var c, p := diff(base, current), diff(base, proposed);
    DifferScripts(diff, base, current);
    DifferScripts(diff, base, proposed);
    EarlyReturnsAgree(base, current, proposed, diff);
    EarlyReturnsAgree(base, proposed, current, diff);
    SwappedEdits(base, c, p);
  }

  lemma {:induction false} SwappedEdits(base: Text, c: seq<Edit>, p: seq<Edit>)
    requires Chain(base, c, 0) && SortedBy(c, Separated) && forall e :: e in c ==> Proper(e)
    requires Chain(base, p, 0) && SortedBy(p, Separated) && forall e :: e in p ==> Proper(e)
    ensures MergeEdits(base, c, p).Merged? <==> MergeEdits(base, p, c).Merged?
    ensures MergeEdits(base, c, p).Merged? ==> MergeEdits(base, c, p) == MergeEdits(base, p, c)
  {
    hide Chain, SortedBy, Proper, Combined, SpliceAll, AllHunks, Clashing;
    ConflictsExact(c, p);
    ConflictsExact(p, c);
    ClashSymmetric(c, p);
    ClashSymmetric(p, c);
    if !Clashing(c, p) {
      MergedIsApplied(base, c, p);
      MergedIsApplied(base, p, c);
      SameAscending(c, p);
    }
  }

  lemma {:induction false} SameAscending(c: seq<Edit>, p: seq<Edit>)
    requires Clean(c, p) && Clean(p, c)
    ensures Ascending(c, p) == Ascending(p, c)
  {
    hide Clean, Ascending, SortedBy;
    AscendingOrdered(c, p);
    AscendingOrdered(p, c);
    AscendingMembers(c, p);
    AscendingMembers(p, c);
    OrderedSameMembers(Ascending(c, p), Ascending(p, c));
  }
}
