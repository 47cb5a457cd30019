/** Line-based three-way merge (agent/app/execution/merge.py, merge_text): the
    edits of both sides are checked for overlaps and spliced into the base. */
module Merge {
  import opened Ordering

  type Line = string

  type Text = seq<Line>

  datatype Edit = Edit(start: int, end: int, replacement: Text)

  datatype Hunk = Hunk(baseStart: int, baseEnd: int, currentText: Text, proposedText: Text)

  datatype MergeResult = Merged(content: Text) | Conflicting(hunks: seq<Hunk>)

  /*------------------------------- edit scripts --------------------------------*/

  /** Edits from left to right, in range and not crossing each other. */
  predicate Chain(base: Text, edits: seq<Edit>, pos: int) {
    0 <= pos <= |base|
    && (edits == []
        || (pos <= edits[0].start <= edits[0].end <= |base| && Chain(base, edits[1..], edits[0].end)))
  }

  /** The base from pos on, with the edits applied from left to right. */
  function ApplyFrom(base: Text, edits: seq<Edit>, pos: int): Text
    requires Chain(base, edits, pos)
  {
    if edits == [] then base[pos..]
    else base[pos..edits[0].start] + edits[0].replacement + ApplyFrom(base, edits[1..], edits[0].end)
  }

  function Apply(base: Text, edits: seq<Edit>): Text
    requires Chain(base, edits, 0)
  {
    ApplyFrom(base, edits, 0)
  }

  predicate Separated(a: Edit, b: Edit) { a.end < b.start }

  predicate Proper(e: Edit) {
    e.start <= e.end && (e.start < e.end || e.replacement != [])
  }

  /** What difflib guarantees about the edits it lists. */
  ghost predicate ValidScript(base: Text, edits: seq<Edit>, target: Text) {
    && Chain(base, edits, 0) && Apply(base, edits) == target
    && SortedBy(edits, Separated) && forall e :: e in edits ==> Proper(e)
  }

  /** A differ yields a valid script, and no edits for equal texts. */
  ghost predicate Differ(diff: (Text, Text) -> seq<Edit>) {
    && (forall base, target :: ValidScript(base, diff(base, target), target))
    && (forall base :: diff(base, base) == [])
  }

  /** One edit that replaces everything: the coarsest script there is. */
  function WholeTextDiff(base: Text, target: Text): seq<Edit> {
    if base == target then [] else [Edit(0, |base|, target)]
  }

  lemma {:induction false} WholeTextScript(base: Text, target: Text)
    ensures ValidScript(base, WholeTextDiff(base, target), target)
  {
    var edits := WholeTextDiff(base, target);
    if base == target {
      assert base[0..] == base;
    } else {
      assert edits[1..] == [];
      assert ApplyFrom(base, edits, 0) == base[0..0] + target + base[|base|..];
    }
  }

  /** The differ contract can be met. */
  lemma {:induction false} DifferExists()
    ensures Differ(WholeTextDiff)
  {
    forall base, target
      ensures ValidScript(base, WholeTextDiff(base, target), target)
    {
      WholeTextScript(base, target);
    }
  }

  /*---------------------------------- the merge --------------------------------*/

  predicate Overlaps(first: Edit, second: Edit) {
    if first.start == first.end && second.start == second.end then first.start == second.start
    else if first.start == first.end then second.start < first.start < second.end
    else if second.start == second.end then first.start < second.start < first.end
    else Max(first.start, second.start) < Min(first.end, second.end)
  }

  predicate Clash(theirs: Edit, ours: Edit) {
    theirs != ours && Overlaps(theirs, ours)
  }

  function HunkOf(theirs: Edit, ours: Edit): Hunk {
    Hunk(Min(theirs.start, ours.start) + 1, Max(theirs.end, ours.end), theirs.replacement, ours.replacement)
  }

  function RowHunks(theirs: Edit, proposed: seq<Edit>): seq<Hunk> {
    if proposed == [] then []
    else
      var n := |proposed| - 1;
      RowHunks(theirs, proposed[..n]) + if Clash(theirs, proposed[n]) then [HunkOf(theirs, proposed[n])] else []
  }

  function AllHunks(current: seq<Edit>, proposed: seq<Edit>): seq<Hunk> {
    if current == [] then []
    else AllHunks(current[..|current| - 1], proposed) + RowHunks(current[|current| - 1], proposed)
  }

  /** Descending order of (start, end). */
  predicate KeyGeq(a: Edit, b: Edit) {
    a.start > b.start || (a.start == b.start && a.end >= b.end)
  }

  /** Slice assignment; positions beyond the end are clipped. */
  function Splice(text: Text, e: Edit): Text {
    var low := Max(0, Min(e.start, |text|));
    var high := Max(low, Min(e.end, |text|));
    text[..low] + e.replacement + text[high..]
  }

  /** Splices in the given order. */
  function SpliceAll(text: Text, edits: seq<Edit>): Text {
    if edits == [] then text else Splice(SpliceAll(text, edits[..|edits| - 1]), edits[|edits| - 1])
  }

  /** Both sides' edits, shared ones once, last position first. */
  function Combined(current: seq<Edit>, proposed: seq<Edit>): seq<Edit> {
    Sort(Unique(current + proposed), KeyGeq)
  }

  function MergeEdits(base: Text, current: seq<Edit>, proposed: seq<Edit>): MergeResult {
    var hunks := AllHunks(current, proposed);
    if hunks != [] then Conflicting(Unique(hunks)) else Merged(SpliceAll(base, Combined(current, proposed)))
  }

  function MergeSpec(base: Text, current: Text, proposed: Text, diff: (Text, Text) -> seq<Edit>): MergeResult {
    if current == base then Merged(proposed)
    else if proposed == base || proposed == current then Merged(current)
    else MergeEdits(base, diff(base, current), diff(base, proposed))
  }

  method MergeText(base: Text, current: Text, proposed: Text, diff: (Text, Text) -> seq<Edit>)
      returns (r: MergeResult)
    ensures r == MergeSpec(base, current, proposed, diff)
  {
    if current == base {
      return Merged(proposed);
    }
    if proposed == base || proposed == current {
      return Merged(current);
    }
    var currentEdits, proposedEdits := diff(base, current), diff(base, proposed);
    var conflicts := FindConflicts(currentEdits, proposedEdits);
    if conflicts != [] {
      return Conflicting(Unique(conflicts));
    }
    var combined := Sort(Unique(currentEdits + proposedEdits), KeyGeq);
    var merged := base;
    for i := 0 to |combined|
      invariant merged == SpliceAll(base, combined[..i])
    {
      assert combined[..i + 1][..i] == combined[..i];
      merged := Splice(merged, combined[i]);
    }
    assert combined[..|combined|] == combined;
    return Merged(merged);
  }

  method FindConflicts(current: seq<Edit>, proposed: seq<Edit>) returns (conflicts: seq<Hunk>)
    ensures conflicts == AllHunks(current, proposed)
  {
    conflicts := [];
    for i := 0 to |current|
      invariant conflicts == AllHunks(current[..i], proposed)
    {
      assert current[..i + 1][..i] == current[..i];
      for j := 0 to |proposed|
        invariant conflicts == AllHunks(current[..i], proposed) + RowHunks(current[i], proposed[..j])
      {
        assert proposed[..j + 1][..j] == proposed[..j];
        if current[i] != proposed[j] && Overlaps(current[i], proposed[j]) {
          conflicts := conflicts + [HunkOf(current[i], proposed[j])];
        }
      }
      assert proposed[..|proposed|] == proposed;
    }
    assert current[..|current|] == current;
  }

  /*----------------------- conflicts are reported exactly ----------------------*/

  ghost predicate Clashing(current: seq<Edit>, proposed: seq<Edit>) {
    exists c, p :: c in current && p in proposed && Clash(c, p)
  }

  lemma {:induction false} RowHunksExact(theirs: Edit, proposed: seq<Edit>)
    ensures RowHunks(theirs, proposed) == [] <==> forall p :: p in proposed ==> !Clash(theirs, p)
  {
    if proposed != [] {
      var n := |proposed| - 1;
      RowHunksExact(theirs, proposed[..n]);
      assert proposed == proposed[..n] + [proposed[n]];
    }
  }

  /** A merge is refused exactly when different edits of the two sides overlap. */
  lemma {:induction false} ConflictsExact(current: seq<Edit>, proposed: seq<Edit>)
    ensures AllHunks(current, proposed) == [] <==> !Clashing(current, proposed)
  {
    hide Clashing, Clash, RowHunks;
    if current == [] {
      NothingClashes(proposed);
    } else {
      var n := |current| - 1;
      ConflictsExact(current[..n], proposed);
      RowHunksExact(current[n], proposed);
      assert current == current[..n] + [current[n]];
      ClashingSnoc(current[..n], current[n], proposed);
    }
  }

  lemma {:induction false} NothingClashes(proposed: seq<Edit>)
    ensures !Clashing([], proposed)
  {
  }

  lemma {:induction false} ClashingSnoc(init: seq<Edit>, last: Edit, proposed: seq<Edit>)
    ensures Clashing(init + [last], proposed) <==> Clashing(init, proposed) || exists p :: p in proposed && Clash(last, p)
  {
    hide Clash;
    var all := init + [last];
    if c, p :| c in init && p in proposed && Clash(c, p) {
      assert c in all;
    }
    if p :| p in proposed && Clash(last, p) {
      assert last in all;
    }
  }

  /*------------------------ the combined edits form a chain --------------------*/

  predicate KeyBefore(a: Edit, b: Edit) { a.end <= b.start && KeyGeq(b, a) && !KeyGeq(a, b) }

  /** Non-overlapping edits in key order do not cross. */
  lemma {:induction false} FreeEditsAreOrdered(a: Edit, b: Edit)
    requires Proper(a) && Proper(b) && a != b && !Overlaps(a, b) && KeyGeq(b, a)
    ensures KeyBefore(a, b)
  {
  }

  lemma {:induction false} OverlapsSymmetric(a: Edit, b: Edit)
    ensures Overlaps(a, b) <==> Overlaps(b, a)
  {
  }

  ghost predicate FreeEdits(edits: seq<Edit>) {
    forall a, b :: a in edits && b in edits && a != b ==> !Overlaps(a, b)
  }

  /** The edits of one script never overlap each other. */
  lemma {:induction false} ScriptIsFree(edits: seq<Edit>)
    requires SortedBy(edits, Separated) && forall e :: e in edits ==> Proper(e)
    ensures FreeEdits(edits)
  {
    forall a, b | a in edits && b in edits && a != b
      ensures !Overlaps(a, b)
    {
      var i :| 0 <= i < |edits| && edits[i] == a;
      var j :| 0 <= j < |edits| && edits[j] == b;
      assert i < j ==> Separated(a, b);
      assert j < i ==> Separated(b, a);
    }
  }

  lemma {:induction false} KeyGeqTotalPreorder()
    ensures TotalPreorder(KeyGeq)
  {
  }

  function Reversed<T>(s: seq<T>): (r: seq<T>)
    ensures |r| == |s| && forall i :: 0 <= i < |s| ==> r[i] == s[|s| - 1 - i]
  {
    seq(|s|, i requires 0 <= i < |s| => s[|s| - 1 - i])
  }

  /** The combined edits from left to right. */
  function Ascending(current: seq<Edit>, proposed: seq<Edit>): seq<Edit> {
    Reversed(Combined(current, proposed))
  }

  lemma {:induction false} ReversedMembers<T>(s: seq<T>)
    ensures forall x :: x in Reversed(s) <==> x in s
  {
    forall x
      ensures x in Reversed(s) <==> x in s
    {
      if x in s {
        var i :| 0 <= i < |s| && s[i] == x;
        assert Reversed(s)[|s| - 1 - i] == x;
      }
    }
  }

  lemma {:induction false} AscendingMembers(current: seq<Edit>, proposed: seq<Edit>)
    ensures forall e :: e in Ascending(current, proposed) <==> e in current || e in proposed
  {
    hide Reversed, Sort, Unique;
    SortMembers(Unique(current + proposed), KeyGeq);
    ReversedMembers(Combined(current, proposed));
  }

  /** What both scripts of a clean merge satisfy. */
  ghost predicate Clean(current: seq<Edit>, proposed: seq<Edit>) {
    && SortedBy(current, Separated) && (forall e :: e in current ==> Proper(e))
    && SortedBy(proposed, Separated) && (forall e :: e in proposed ==> Proper(e))
    && !Clashing(current, proposed)
  }

  lemma {:induction false} CombinedIsFree(current: seq<Edit>, proposed: seq<Edit>, a: Edit, b: Edit)
    requires Clean(current, proposed) && a != b
    requires (a in current || a in proposed) && (b in current || b in proposed)
    ensures !Overlaps(a, b)
  {
    ScriptIsFree(current);
    ScriptIsFree(proposed);
    OverlapsSymmetric(a, b);
    if a in current && b in proposed {
      assert !Clash(a, b);
    }
    if b in current && a in proposed {
      assert !Clash(b, a);
    }
  }

  lemma {:induction false} CombinedOrdered(current: seq<Edit>, proposed: seq<Edit>)
    ensures Distinct(Combined(current, proposed)) && SortedBy(Combined(current, proposed), KeyGeq)
  {
    hide KeyGeq, Sort, Unique, Distinct, SortedBy;
    UniqueDistinct(current + proposed);
    SortDistinct(Unique(current + proposed), KeyGeq);
    KeyGeqTotalPreorder();
    SortSorted(Unique(current + proposed), KeyGeq);
  }

  lemma {:induction false} AscendingOrdered(current: seq<Edit>, proposed: seq<Edit>)
    requires Clean(current, proposed)
    ensures SortedBy(Ascending(current, proposed), KeyBefore)
  {
    hide KeyGeq, KeyBefore, Combined, Clean;
    var d := Combined(current, proposed);
    var asc := Ascending(current, proposed);
    CombinedOrdered(current, proposed);
    forall i, j | 0 <= i < j < |asc|
      ensures KeyBefore(asc[i], asc[j])
    {
      assert asc[i] == d[|d| - 1 - i] && asc[j] == d[|d| - 1 - j];
      AscendingPair(current, proposed, asc[i], asc[j]);
    }
  }

  lemma {:induction false} AscendingPair(current: seq<Edit>, proposed: seq<Edit>, a: Edit, b: Edit)
    requires Clean(current, proposed) && a != b && KeyGeq(b, a)
    requires a in Ascending(current, proposed) && b in Ascending(current, proposed)
    ensures KeyBefore(a, b)
  {
    hide Ascending, KeyGeq, KeyBefore, SortedBy, Clashing, Overlaps, Proper;
    AscendingMembers(current, proposed);
    CombinedIsFree(current, proposed, a, b);
    FreeEditsAreOrdered(a, b);
  }

  /** Ordered edits within the base form a chain. */
  lemma {:induction false} OrderedIsChain(base: Text, edits: seq<Edit>, pos: int)
    requires SortedBy(edits, KeyBefore) && 0 <= pos <= |base|
    requires forall e :: e in edits ==> pos <= e.start <= e.end <= |base|
    ensures Chain(base, edits, pos)
  {
    if edits != [] {
      forall e | e in edits[1..]
        ensures edits[0].end <= e.start
      {
        var i :| 0 <= i < |edits[1..]| && edits[1..][i] == e;
        assert KeyBefore(edits[0], edits[i + 1]);
      }
      TailSorted(edits, KeyBefore);
      OrderedIsChain(base, edits[1..], edits[0].end);
    }
  }

  lemma {:induction false} ChainInRange(base: Text, edits: seq<Edit>, pos: int)
    requires Chain(base, edits, pos)
    ensures forall e :: e in edits ==> pos <= e.start <= e.end <= |base|
  {
    if edits != [] {
      ChainInRange(base, edits[1..], edits[0].end);
      assert edits == [edits[0]] + edits[1..];
    }
  }

  lemma {:induction false} AscendingChain(base: Text, current: seq<Edit>, proposed: seq<Edit>)
    requires Clean(current, proposed) && Chain(base, current, 0) && Chain(base, proposed, 0)
    ensures Chain(base, Ascending(current, proposed), 0)
  {
    AscendingOrdered(current, proposed);
    AscendingMembers(current, proposed);
    ChainInRange(base, current, 0);
    ChainInRange(base, proposed, 0);
    OrderedIsChain(base, Ascending(current, proposed), 0);
  }

  /*---------------- back-to-front splicing is left-to-right applying -----------*/

  lemma {:induction false} SpliceBackwards(base: Text, edits: seq<Edit>, pos: int)
    requires Chain(base, edits, pos)
    ensures SpliceAll(base, Reversed(edits)) == base[..pos] + ApplyFrom(base, edits, pos)
  {
    hide Splice;
    if edits == [] {
      assert base == base[..pos] + base[pos..];
    } else {
      SpliceBackwards(base, edits[1..], edits[0].end);
      assert Reversed(edits)[..|edits| - 1] == Reversed(edits[1..]);
      SpliceFirst(base, edits[0], pos, ApplyFrom(base, edits[1..], edits[0].end));
    }
  }

  lemma {:induction false} SpliceFirst(base: Text, e: Edit, pos: int, rest: Text)
    requires 0 <= pos <= e.start <= e.end <= |base|
    ensures Splice(base[..e.end] + rest, e) == base[..pos] + (base[pos..e.start] + e.replacement + rest)
  {
    var t := base[..e.end] + rest;
    assert t[..e.start] == base[..e.start] && t[e.end..] == rest;
    assert base[..e.start] == base[..pos] + base[pos..e.start];
  }

  lemma {:induction false} MergedIsApplied(base: Text, current: seq<Edit>, proposed: seq<Edit>)
    requires Clean(current, proposed) && Chain(base, current, 0) && Chain(base, proposed, 0)
    ensures Chain(base, Ascending(current, proposed), 0)
    ensures MergeEdits(base, current, proposed) == Merged(Apply(base, Ascending(current, proposed)))
  {
    hide Chain, ApplyFrom, SpliceAll, Combined, AllHunks, Clean;
    AscendingChain(base, current, proposed);
    CleanHasNoHunks(current, proposed);
    SpliceBackwards(base, Ascending(current, proposed), 0);
    var d := Combined(current, proposed);
    assert Reversed(Reversed(d)) == d;
    var text := ApplyFrom(base, Ascending(current, proposed), 0);
    assert base[..0] + text == text;
  }

  lemma {:induction false} CleanHasNoHunks(current: seq<Edit>, proposed: seq<Edit>)
    requires Clean(current, proposed)
    ensures AllHunks(current, proposed) == []
  {
    ConflictsExact(current, proposed);
  }
}
