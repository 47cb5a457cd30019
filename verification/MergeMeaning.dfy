/** When a three-way merge is refused, and what it reports, said of the lines of the base
    (agent/app/execution/merge.py). */
module MergeMeaning {
  import opened Ordering
  import opened Merge
  import opened MergeDiamond

  /** The edit replaces this line of the base. */
  predicate Replaces(e: Edit, line: int) {
    e.start <= line < e.end
  }

  predicate Inserts(e: Edit) {
    e.start == e.end
  }

  /** Both replace some line, or both insert at one place, or one inserts between two lines
      that the other replaces. */
  ghost predicate Collide(a: Edit, b: Edit) {
    || (exists line :: Replaces(a, line) && Replaces(b, line))
    || (Inserts(a) && Inserts(b) && a.start == b.start)
    || (Inserts(a) && Replaces(b, a.start - 1) && Replaces(b, a.start))
    || (Inserts(b) && Replaces(a, b.start - 1) && Replaces(a, b.start))
  }

  lemma {:induction false} OverlapsExact(a: Edit, b: Edit)
    requires a.start <= a.end && b.start <= b.end
    ensures Overlaps(a, b) <==> Collide(a, b)
  {
    if Max(a.start, b.start) < Min(a.end, b.end) {
      assert Replaces(a, Max(a.start, b.start)) && Replaces(b, Max(a.start, b.start));
    }
  }

  /** The first and last line either edit is about, and what each side wants there. */
  predicate Reports(h: Hunk, a: Edit, b: Edit) {
    && h.baseStart == (if a.start < b.start then a.start else b.start) + 1
    && h.baseEnd == (if a.end > b.end then a.end else b.end)
    && h.currentText == a.replacement && h.proposedText == b.replacement
  }

  lemma {:induction false} RowReports(theirs: Edit, proposed: seq<Edit>)
    ensures forall h :: h in RowHunks(theirs, proposed) <==> exists p :: p in proposed && Clash(theirs, p) && h == HunkOf(theirs, p)
  {
    if proposed != [] {
      var n := |proposed| - 1;
      RowReports(theirs, proposed[..n]);
      assert proposed == proposed[..n] + [proposed[n]];
    }
  }

  lemma {:induction false} AllReports(current: seq<Edit>, proposed: seq<Edit>)
    ensures forall h :: h in AllHunks(current, proposed)
                   <==> exists c, p :: c in current && p in proposed && Clash(c, p) && h == HunkOf(c, p)
  {
    hide Clash, HunkOf, RowHunks;
    if current != [] {
      var n := |current| - 1;
      AllReports(current[..n], proposed);
      RowReports(current[n], proposed);
      assert current == current[..n] + [current[n]];
    }
  }

  /** Different edits of the two sides that collide. */
  ghost predicate AtOdds(current: seq<Edit>, proposed: seq<Edit>, c: Edit, p: Edit) {
    c in current && p in proposed && c != p && Collide(c, p)
  }

  /** A merge is refused exactly if different edits of the two sides collide, and then it
      reports every such pair, once, and nothing else. */
  lemma {:induction false} RefusalExact(base: Text, current: Text, proposed: Text, diff: (Text, Text) -> seq<Edit>)
    requires Differ(diff)
    ensures var ours, theirs := diff(base, proposed), diff(base, current);
            var r := MergeSpec(base, current, proposed, diff);
            && (r.Conflicting? <==> exists c, p :: AtOdds(theirs, ours, c, p))
            && (r.Conflicting? ==>
                  && Distinct(r.hunks)
                  && (forall h :: h in r.hunks ==> exists c, p :: AtOdds(theirs, ours, c, p) && Reports(h, c, p))
                  && (forall c, p :: AtOdds(theirs, ours, c, p) ==> exists h :: h in r.hunks && Reports(h, c, p)))
  {
    var ours, theirs := diff(base, proposed), diff(base, current);
    EarlyReturnsAgree(base, current, proposed, diff);
    ProperEdits(diff, base, current);
    ProperEdits(diff, base, proposed);
    AllReports(theirs, ours);
    UniqueDistinct(AllHunks(theirs, ours));
    hide Differ, MergeSpec, AllHunks, Unique, Distinct, SpliceAll, Combined, Overlaps, Collide;
    forall c, p | c in theirs && p in ours
      ensures Clash(c, p) <==> AtOdds(theirs, ours, c, p)
      ensures Reports(HunkOf(c, p), c, p)
    {
      OverlapsExact(c, p);
    }
    var hunks := AllHunks(theirs, ours);
    hide HunkOf, Reports, Clash, AtOdds;
    if c, p :| AtOdds(theirs, ours, c, p) {
      OddsAreEdits(theirs, ours, c, p);
      assert HunkOf(c, p) in hunks;
    }
    forall c, p | AtOdds(theirs, ours, c, p)
      ensures HunkOf(c, p) in hunks && Reports(HunkOf(c, p), c, p)
    {
      OddsAreEdits(theirs, ours, c, p);
    }
    if hunks != [] {
      assert hunks[0] in hunks;
    }
  }

  lemma {:induction false} OddsAreEdits(current: seq<Edit>, proposed: seq<Edit>, c: Edit, p: Edit)
    requires AtOdds(current, proposed, c, p)
    ensures c in current && p in proposed
  {
  }

  lemma {:induction false} ProperEdits(diff: (Text, Text) -> seq<Edit>, base: Text, target: Text)
    requires Differ(diff)
    ensures forall e :: e in diff(base, target) ==> e.start <= e.end
  {
    assert ValidScript(base, diff(base, target), target);
  }
}
