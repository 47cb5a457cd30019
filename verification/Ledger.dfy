/** The bounded log of workspace changes
    (agent/app/execution/workspace_changes.py, WorkspaceChangeLedger), next to the
    unbounded history it stands for. */
module Ledger {
  import opened Ordering
  import opened Text

  const MAX_PATCH_CHARS := 200000

  const MAX_TOTAL_PATCH_CHARS := 500000

  const MAX_CHANGE_FILES := 500

  const MAX_RETAINED_EVENTS := 2000

  const MAX_TOTAL_CONTENT_CHARS := 500000

  datatype Change = Change(path: string, operation: string, previousPath: string,
                           beforeHash: Option<string>, afterHash: Option<string>,
                           beforeContent: string, afterContent: string, patch: string, truncated: bool)

  datatype Event = Event(runId: string, path: string, operation: string, previousPath: string,
                         beforeHash: string, afterHash: string,
                         beforeContent: string, afterContent: string, patch: string, truncated: bool, revision: nat)

  /*------------------------------ recording changes ----------------------------*/

  predicate Matters(c: Change) {
    c.beforeHash != c.afterHash || c.operation == "RENAMED" || c.operation == "COPIED" || c.previousPath != ""
  }

  function OrEmpty(s: Option<string>): string {
    if s.Some? then s.value else ""
  }

  /** The event of one change under what is left of the two budgets. */
  function EventOf(c: Change, run: string, revision: nat, patchBudget: nat, contentBudget: nat): Event {
    var patch := Truncate(c.patch, Min(MAX_PATCH_CHARS, patchBudget));
    var tooLong := |c.beforeContent| + |c.afterContent| > contentBudget;
    Event(run, c.path, if c.operation == "" then "MODIFIED" else c.operation, c.previousPath,
          OrEmpty(c.beforeHash), OrEmpty(c.afterHash),
          if tooLong then "" else c.beforeContent, if tooLong then "" else c.afterContent,
          patch, c.truncated || |patch| < |c.patch| || tooLong, revision)
  }

  function EventsOf(changes: seq<Change>, run: string, revision: nat, patchBudget: nat,
          contentBudget: nat): (events: seq<Event>)
    ensures |events| == |changes|
  {
    if changes == [] then []
    else
      var e := EventOf(changes[0], run, revision, patchBudget, contentBudget);
      [e] + EventsOf(changes[1..], run, revision, patchBudget - |e.patch|, contentBudget - |e.beforeContent| - |e.afterContent|)
  }

  function PatchChars(events: seq<Event>): nat {
    if events == [] then 0 else |events[0].patch| + PatchChars(events[1..])
  }

  function ContentChars(events: seq<Event>): nat {
    if events == [] then 0 else |events[0].beforeContent| + |events[0].afterContent| + ContentChars(events[1..])
  }

  /** What an event keeps of its change: the whole contents or none of them, a prefix
      of the patch, and a mark whenever something is missing. */
  predicate Faithful(c: Change, e: Event) {
    && e.path == c.path && e.patch <= c.patch && |e.patch| <= MAX_PATCH_CHARS
    && ((e.beforeContent == c.beforeContent && e.afterContent == c.afterContent) || (e.beforeContent == "" && e.afterContent == ""))
    && (e.truncated <==> c.truncated || e.patch != c.patch || e.beforeContent != c.beforeContent || e.afterContent != c.afterContent)
  }

  lemma {:induction false} EventFits(c: Change, run: string, revision: nat, patchBudget: nat, contentBudget: nat)
    ensures var e := EventOf(c, run, revision, patchBudget, contentBudget);
            && |e.patch| <= patchBudget && |e.beforeContent| + |e.afterContent| <= contentBudget
            && Faithful(c, e) && e.runId == run && e.revision == revision
  {
  }

  /** The budgets hold over all events of a revision, and cuts are always marked. */
  lemma {:induction false} EventsStayInBudget(changes: seq<Change>, run: string, revision: nat, patchBudget: nat,
          contentBudget: nat)
    ensures var events := EventsOf(changes, run, revision, patchBudget, contentBudget);
            && PatchChars(events) <= patchBudget && ContentChars(events) <= contentBudget
            && forall i :: 0 <= i < |changes| ==> Faithful(changes[i], events[i]) && events[i].runId == run && events[i].revision == revision
  {
    hide EventOf, Faithful;
    if changes != [] {
      var e := EventOf(changes[0], run, revision, patchBudget, contentBudget);
      EventFits(changes[0], run, revision, patchBudget, contentBudget);
      EventsStayInBudget(changes[1..], run, revision, patchBudget - |e.patch|, contentBudget - |e.beforeContent| - |e.afterContent|);
    }
  }

  predicate HasPath(e: Event) { Strip(e.path) != "" }

  /** The events that one record call appends. */
  function Recorded(changes: seq<Change>, run: string, revision: nat): seq<Event> {
    var normalized := Filter(changes, Matters);
    var kept := if |normalized| <= MAX_CHANGE_FILES then normalized else normalized[..MAX_CHANGE_FILES];
    Filter(EventsOf(kept, run, revision, MAX_TOTAL_PATCH_CHARS, MAX_TOTAL_CONTENT_CHARS), HasPath)
  }

  lemma {:induction false} RecordedEvents(changes: seq<Change>, run: string, revision: nat)
    ensures |Recorded(changes, run, revision)| <= MAX_CHANGE_FILES
    ensures forall e :: e in Recorded(changes, run, revision) ==> e.runId == run && e.revision == revision
  {
    hide EventsOf, Faithful;
    var normalized := Filter(changes, Matters);
    var kept := if |normalized| <= MAX_CHANGE_FILES then normalized else normalized[..MAX_CHANGE_FILES];
    EventsStayInBudget(kept, run, revision, MAX_TOTAL_PATCH_CHARS, MAX_TOTAL_CONTENT_CHARS);
  }

  /** What makes a change count: another hash, a rename or copy, or a previous path. */
  predicate Differs(c: Change) {
    c.beforeHash != c.afterHash || c.operation == "RENAMED" || c.operation == "COPIED" || c.previousPath != ""
  }

  /** kept are the first 500 changes that count. */
  ghost predicate FirstThatCount(changes: seq<Change>, kept: seq<Change>) {
    exists all, places ::
      && StandsAt(changes, all, places)
      && (forall k: nat :: k in places <==> k < |changes| && Differs(changes[k]))
      && kept == if |all| <= 500 then all else all[..500]
  }

  /** The event of a change: the patch is cut at 200000 characters and at what is left of
      500000 for all patches, the contents are dropped if they are longer than what is left
      of 500000 for all contents, and either is marked. */
  ghost predicate EventFor(c: Change, e: Event, run: string, revision: nat, patchesSoFar: nat, contentsSoFar: nat) {
    var room := Min(200000, 500000 - patchesSoFar);
    var fits := contentsSoFar + |c.beforeContent| + |c.afterContent| <= 500000;
    && e.runId == run && e.revision == revision && e.path == c.path && e.previousPath == c.previousPath
    && e.operation == (if c.operation == "" then "MODIFIED" else c.operation)
    && e.beforeHash == (match c.beforeHash case Some(h) => h case None => "")
    && e.afterHash == (match c.afterHash case Some(h) => h case None => "")
    && 0 <= room && e.patch == (if |c.patch| <= room then c.patch else c.patch[..room])
    && e.beforeContent == (if fits then c.beforeContent else "") && e.afterContent == (if fits then c.afterContent else "")
    && (e.truncated <==> c.truncated || |c.patch| > room || !fits)
  }

  ghost predicate EventsFor(kept: seq<Change>, events: seq<Event>, run: string, revision: nat) {
    && |events| == |kept|
    && forall i :: 0 <= i < |kept| ==>
         EventFor(kept[i], events[i], run, revision, PatchChars(events[..i]), ContentChars(events[..i]))
  }

  /** recorded are the events whose path is not blank. */
  ghost predicate WithPath(events: seq<Event>, recorded: seq<Event>) {
    exists places ::
      && StandsAt(events, recorded, places)
      && forall k: nat :: k in places <==> k < |events| && !OnlyBlanks(events[k].path)
  }

  /** recorded is what is entered for the changes: the events of the first 500 that count. */
  ghost predicate RecordFor(changes: seq<Change>, recorded: seq<Event>, run: string, revision: nat) {
    exists kept, events ::
      FirstThatCount(changes, kept) && EventsFor(kept, events, run, revision) && WithPath(events, recorded)
  }

  lemma {:induction false} OneEvent(c: Change, run: string, revision: nat, patchesSoFar: nat, contentsSoFar: nat)
    requires patchesSoFar <= MAX_TOTAL_PATCH_CHARS && contentsSoFar <= MAX_TOTAL_CONTENT_CHARS
    ensures EventFor(c, EventOf(c, run, revision, MAX_TOTAL_PATCH_CHARS - patchesSoFar, MAX_TOTAL_CONTENT_CHARS - contentsSoFar),
                     run, revision, patchesSoFar, contentsSoFar)
  {
  }

  lemma {:induction false} OneEventMore(events: seq<Event>, e: Event)
    ensures PatchChars(events + [e]) == PatchChars(events) + |e.patch|
    ensures ContentChars(events + [e]) == ContentChars(events) + |e.beforeContent| + |e.afterContent|
  {
    if events == [] {
      assert events + [e] == [e] && [e][1..] == [];
    } else {
      assert (events + [e])[1..] == events[1..] + [e];
      OneEventMore(events[1..], e);
    }
  }

  /** The events of the changes behind those of before. */
  lemma {:induction false} EventsAreFor(before: seq<Event>, changes: seq<Change>, run: string, revision: nat)
    requires PatchChars(before) <= MAX_TOTAL_PATCH_CHARS && ContentChars(before) <= MAX_TOTAL_CONTENT_CHARS
    ensures var events := EventsOf(changes, run, revision, MAX_TOTAL_PATCH_CHARS - PatchChars(before),
                                   MAX_TOTAL_CONTENT_CHARS - ContentChars(before));
            forall i :: 0 <= i < |changes| ==>
              EventFor(changes[i], events[i], run, revision, PatchChars(before + events[..i]), ContentChars(before + events[..i]))
    decreases |changes|
  {
    hide EventOf, EventFor, PatchChars, ContentChars;
    if changes != [] {
      var patchLeft, contentLeft := MAX_TOTAL_PATCH_CHARS - PatchChars(before), MAX_TOTAL_CONTENT_CHARS - ContentChars(before);
      var e := EventOf(changes[0], run, revision, patchLeft, contentLeft);
      var events := EventsOf(changes, run, revision, patchLeft, contentLeft);
      EventFits(changes[0], run, revision, patchLeft, contentLeft);
      OneEvent(changes[0], run, revision, PatchChars(before), ContentChars(before));
      OneEventMore(before, e);
      EventsAreFor(before + [e], changes[1..], run, revision);
      var rest := EventsOf(changes[1..], run, revision, patchLeft - |e.patch|, contentLeft - |e.beforeContent| - |e.afterContent|);
      assert events == [e] + rest;
      hide *;
      EventsJoin(before, e, rest, changes, run, revision);
    }
  }

  lemma {:induction false} EventsJoin(before: seq<Event>, e: Event, rest: seq<Event>, changes: seq<Change>, run: string,
          revision: nat)
    requires |changes| == |rest| + 1 && EventFor(changes[0], e, run, revision, PatchChars(before), ContentChars(before))
    requires forall i :: 0 <= i < |rest| ==>
               EventFor(changes[1..][i], rest[i], run, revision, PatchChars(before + [e] + rest[..i]),
                        ContentChars(before + [e] + rest[..i]))
    ensures var events := [e] + rest;
            forall i :: 0 <= i < |changes| ==>
              EventFor(changes[i], events[i], run, revision, PatchChars(before + events[..i]), ContentChars(before + events[..i]))
  {
    hide *;
    var events := [e] + rest;
    forall i | 0 <= i < |changes|
      ensures EventFor(changes[i], events[i], run, revision, PatchChars(before + events[..i]), ContentChars(before + events[..i]))
    {
      if i == 0 {
        assert before + events[..0] == before;
      } else {
        assert before + events[..i] == before + [e] + rest[..i - 1];
      }
    }
  }

  lemma {:induction false} NamedPath(e: Event)
    ensures HasPath(e) <==> !OnlyBlanks(e.path)
  {
    StripBlank(e.path);
  }

  /** Which events a record call appends: one for each of the first 500 changes that count,
      in order, under the budgets, but for those with a blank path. */
  lemma {:induction false} RecordedExact(changes: seq<Change>, run: string, revision: nat)
    ensures RecordFor(changes, Recorded(changes, run, revision), run, revision)
  {
    var all := Filter(changes, Matters);
    var kept := if |all| <= MAX_CHANGE_FILES then all else all[..MAX_CHANGE_FILES];
    var events := EventsOf(kept, run, revision, MAX_TOTAL_PATCH_CHARS, MAX_TOTAL_CONTENT_CHARS);
    CountedFirst(changes);
    NamedOnly(events);
    AllEventsFor(kept, run, revision);
    hide Filter, EventsOf, EventsFor, FirstThatCount, WithPath;
  }

  lemma {:induction false} AllEventsFor(kept: seq<Change>, run: string, revision: nat)
    ensures EventsFor(kept, EventsOf(kept, run, revision, MAX_TOTAL_PATCH_CHARS, MAX_TOTAL_CONTENT_CHARS), run, revision)
  {
    assert PatchChars([]) == 0 && ContentChars([]) == 0;
    hide PatchChars, ContentChars, EventsOf, EventFor;
    EventsAreFor([], kept, run, revision);
    var events := EventsOf(kept, run, revision, MAX_TOTAL_PATCH_CHARS, MAX_TOTAL_CONTENT_CHARS);
    assert forall i :: 0 <= i < |kept| ==> [] + events[..i] == events[..i];
  }

  lemma {:induction false} CountedFirst(changes: seq<Change>)
    ensures var all := Filter(changes, Matters);
            FirstThatCount(changes, if |all| <= MAX_CHANGE_FILES then all else all[..MAX_CHANGE_FILES])
  {
    var places := FilterPlaces(changes, Matters);
    hide Filter, StandsAt;
    assert forall k: nat :: k in places <==> k < |changes| && Differs(changes[k]);
  }

  lemma {:induction false} NamedOnly(events: seq<Event>)
    ensures WithPath(events, Filter(events, HasPath))
  {
    var places := FilterPlaces(events, HasPath);
    forall k: nat
      ensures k in places <==> k < |events| && !OnlyBlanks(events[k].path)
    {
      if k < |events| {
        NamedPath(events[k]);
      }
    }
    hide Filter, StandsAt, HasPath, OnlyBlanks;
  }

  method BuildEvents(changes: seq<Change>, run: string, revision: nat) returns (recorded: seq<Event>)
    ensures recorded == EventsOf(changes, run, revision, MAX_TOTAL_PATCH_CHARS, MAX_TOTAL_CONTENT_CHARS)
  {
    hide EventOf;
    var patchBudget: nat, contentBudget: nat := MAX_TOTAL_PATCH_CHARS, MAX_TOTAL_CONTENT_CHARS;
    recorded := [];
    for i := 0 to |changes|
      invariant recorded + EventsOf(changes[i..], run, revision, patchBudget, contentBudget)
             == EventsOf(changes, run, revision, MAX_TOTAL_PATCH_CHARS, MAX_TOTAL_CONTENT_CHARS)
    {
      var e := EventOf(changes[i], run, revision, patchBudget, contentBudget);
      assert changes[i..][1..] == changes[i + 1..];
      EventFits(changes[i], run, revision, patchBudget, contentBudget);
      recorded := recorded + [e];
      patchBudget, contentBudget := patchBudget - |e.patch|, contentBudget - |e.beforeContent| - |e.afterContent|;
    }
  }

  method BuildRecorded(changes: seq<Change>, run: string, revision: nat) returns (recorded: seq<Event>)
    ensures recorded == Recorded(changes, run, revision)
  {
    hide EventsOf;
    var normalized := Filter(changes, Matters);
    var kept := if |normalized| <= MAX_CHANGE_FILES then normalized else normalized[..MAX_CHANGE_FILES];
    var values := BuildEvents(kept, run, revision);
    recorded := Filter(values, HasPath);
  }

  /*--------------------------- the log and its history -------------------------*/

  /** deque(maxlen=n) after appending everything. */
  function LastOf<T>(s: seq<T>, n: nat): seq<T> {
    if |s| <= n then s else s[|s| - n..]
  }

  lemma {:induction false} LastOfAppend<T>(s: seq<T>, t: seq<T>, n: nat)
    ensures LastOf(LastOf(s, n) + t, n) == LastOf(s + t, n)
  {
  }

  predicate NotLater(a: Event, b: Event) { a.revision <= b.revision }

  /** Revisions grow, and all events of one revision come from one run. */
  ghost predicate History(full: seq<Event>, current: nat) {
    && SortedBy(full, NotLater)
    && (forall e :: e in full ==> 0 < e.revision <= current)
    && forall a, b :: a in full && b in full && a.revision == b.revision ==> a.runId == b.runId
  }

  predicate Later(e: Event, low: int) { e.revision > low }

  predicate ForeignIn(e: Event, run: string, low: int, high: int) {
    low < e.revision <= high && e.runId != run
  }

  function Foreign(events: seq<Event>, run: string, low: int, high: int): seq<Event> {
    Filter(events, (e: Event) => ForeignIn(e, run, low, high))
  }

  /** The places of what other runs did in these revisions. */
  ghost predicate PlacesOfOthers(log: seq<Event>, places: seq<nat>, run: string, low: int, high: int) {
    forall k: nat :: k in places <==> k < |log| && low < log[k].revision <= high && log[k].runId != run
  }

  /** told is what the log holds there, in the order of the log. */
  ghost predicate ForeignExactly(log: seq<Event>, told: seq<Event>, run: string, low: int, high: int) {
    exists places :: StandsAt(log, told, places) && PlacesOfOthers(log, places, run, low, high)
  }

  lemma {:induction false} ForeignMeans(log: seq<Event>, run: string, low: int, high: int)
    ensures ForeignExactly(log, Foreign(log, run, low, high), run, low, high)
  {
    var places := FilterPlaces(log, (e: Event) => ForeignIn(e, run, low, high));
    hide Filter, StandsAt;
  }

  /** Among them is every such event, and no other. */
  lemma {:induction false} ForeignMembers(log: seq<Event>, told: seq<Event>, run: string, low: int, high: int)
    requires ForeignExactly(log, told, run, low, high)
    ensures forall e :: e in told <==> e in log && low < e.revision <= high && e.runId != run
  {
    var places :| StandsAt(log, told, places) && PlacesOfOthers(log, places, run, low, high);
    hide StandsAt, PlacesOfOthers;
    forall e
      ensures e in told <==> e in log && low < e.revision <= high && e.runId != run
    {
      if e in told {
        var k := PlaceOf(log, told, places, e);
        OneOfOthers(log, places, run, low, high, k);
      }
      if e in log {
        var k :| 0 <= k < |log| && log[k] == e;
        OneOfOthers(log, places, run, low, high, k);
        if k in places {
          FoundAt(log, told, places, k);
        }
      }
    }
  }

  lemma {:induction false} OneOfOthers(log: seq<Event>, places: seq<nat>, run: string, low: int, high: int, k: nat)
    requires PlacesOfOthers(log, places, run, low, high) && k < |log|
    ensures k in places <==> low < log[k].revision <= high && log[k].runId != run
  {
  }

  lemma {:induction false} PlaceOf(log: seq<Event>, told: seq<Event>, places: seq<nat>, e: Event) returns (k: nat)
    requires StandsAt(log, told, places) && e in told
    ensures k in places && k < |log| && log[k] == e
  {
    var i :| 0 <= i < |told| && told[i] == e;
    k := places[i];
  }

  lemma {:induction false} FoundAt(log: seq<Event>, told: seq<Event>, places: seq<nat>, k: nat)
    requires StandsAt(log, told, places) && k in places
    ensures k < |log| && log[k] in told
  {
    var i :| 0 <= i < |places| && places[i] == k;
    assert told[i] == log[k];
  }

  function LaterCount(events: seq<Event>, low: int): nat {
    |Filter(events, (e: Event) => Later(e, low))|
  }

  lemma {:induction false} HistoryGrows(full: seq<Event>, current: nat, more: seq<Event>, run: string)
    requires History(full, current)
    requires forall e :: e in more ==> e.runId == run && e.revision == current + 1
    ensures History(full + more, current + 1)
  {
  }

  lemma {:induction false} SplitHistory(full: seq<Event>, n: nat)
    requires SortedBy(full, NotLater)
    ensures var kept := LastOf(full, n); var dropped := full[..|full| - |kept|];
            && full == dropped + kept
            && (forall a, b :: a in dropped && b in kept ==> a.revision <= b.revision)
            && (dropped != [] ==> |kept| == n)
  {
    var kept := LastOf(full, n);
    var dropped := full[..|full| - |kept|];
    forall a, b | a in dropped && b in kept
      ensures a.revision <= b.revision
    {
      var i :| 0 <= i < |dropped| && dropped[i] == a;
      var j :| 0 <= j < |kept| && kept[j] == b;
      assert NotLater(full[i], full[|dropped| + j]);
    }
  }

  /** If at most n events are later than low, none of them has been dropped. */
  lemma {:induction false} LaterAreRetained(full: seq<Event>, low: int, n: nat)
    requires SortedBy(full, NotLater) && LaterCount(full, low) <= n
    ensures var kept := LastOf(full, n); forall e :: e in full[..|full| - |kept|] ==> !Later(e, low)
  {
    hide SortedBy;
    var kept := LastOf(full, n);
    var dropped := full[..|full| - |kept|];
    SplitHistory(full, n);
    FilterConcat(dropped, kept, (x: Event) => Later(x, low));
    forall e | e in dropped
      ensures !Later(e, low)
    {
      assert Later(e, low) ==> e in Filter(dropped, (x: Event) => Later(x, low));
      if Later(e, low) {
        FilterAll(kept, (x: Event) => Later(x, low));
      }
    }
  }

  /** Then the bounded log answers like the full history. */
  lemma {:induction false} BoundedAnswersLikeFull(full: seq<Event>, run: string, low: int, high: int)
    requires SortedBy(full, NotLater) && LaterCount(full, low) <= MAX_RETAINED_EVENTS
    ensures Foreign(LastOf(full, MAX_RETAINED_EVENTS), run, low, high) == Foreign(full, run, low, high)
  {
    hide SortedBy, Filter;
    var kept := LastOf(full, MAX_RETAINED_EVENTS);
    var dropped := full[..|full| - |kept|];
    SplitHistory(full, MAX_RETAINED_EVENTS);
    LaterAreRetained(full, low, MAX_RETAINED_EVENTS);
    FilterConcat(dropped, kept, (e: Event) => ForeignIn(e, run, low, high));
    FilterNone(dropped, (e: Event) => ForeignIn(e, run, low, high));
  }

  /** Consecutive windows of revisions join without loss or repetition. */
  lemma {:induction false} WindowsJoin(full: seq<Event>, run: string, low: int, mid: int, high: int)
    requires SortedBy(full, NotLater) && low <= mid <= high
    ensures Foreign(full, run, low, mid) + Foreign(full, run, mid, high) == Foreign(full, run, low, high)
  {
    if full != [] {
      TailSorted(full, NotLater);
      WindowsJoin(full[1..], run, low, mid, high);
      if full[0].revision > mid {
        FilterNone(full, (e: Event) => ForeignIn(e, run, low, mid));
      }
    }
  }

  lemma {:induction false} NothingNewBelow(full: seq<Event>, more: seq<Event>, run: string, low: int, high: int)
    requires forall e :: e in more ==> e.revision > high
    ensures Foreign(full + more, run, low, high) == Foreign(full, run, low, high)
  {
    FilterConcat(full, more, (e: Event) => ForeignIn(e, run, low, high));
    FilterNone(more, (e: Event) => ForeignIn(e, run, low, high));
  }

  /*-------------------------------- staleness check ----------------------------*/

  predicate Gap(events: seq<Event>, revision: int) {
    events != [] && revision < events[0].revision - 1
  }

  predicate ForeignAfter(events: seq<Event>, run: string, revision: int) {
    exists e :: e in events && e.revision > revision && e.runId != run
  }

  /** Nothing of another run behind this revision. */
  ghost predicate OwnSince(log: seq<Event>, run: string, revision: int) {
    forall e :: e in log && e.revision > revision ==> e.runId == run
  }

  /** A negative answer is right about the whole history, even when part of a
      revision has been dropped. */
  lemma {:induction false} NoFalseNegative(full: seq<Event>, current: nat, run: string, revision: int)
    requires History(full, current) && revision >= 0
    requires var kept := LastOf(full, MAX_RETAINED_EVENTS);
             OwnSince(kept, run, revision) && (kept != [] ==> kept[0].revision <= revision + 1)
    ensures OwnSince(full, run, revision)
  {
    var kept := LastOf(full, MAX_RETAINED_EVENTS);
    var dropped := full[..|full| - |kept|];
    SplitHistory(full, MAX_RETAINED_EVENTS);
    hide LastOf, SortedBy;
    forall e | e in full && e.revision > revision
      ensures e.runId == run
    {
      if e in dropped {
        assert kept[0] in kept && kept[0] in full;
        assert e.revision <= kept[0].revision <= revision + 1;
      }
    }
  }

  /*----------------------------------- the ledger ------------------------------*/

  type Key = string

  type Cursor = (Key, string)

  function At<V>(m: map<Key, V>, key: Key, default: V): V {
    if key in m then m[key] else default
  }

  /** The fields of the ledger, and next to them what a log without bound would
      hold and what each run has been told. */
  datatype State = State(revisions: map<Key, nat>, events: map<Key, seq<Event>>, cursors: map<Cursor, nat>,
                         full: map<Key, seq<Event>>, begun: map<Cursor, nat>, told: map<Cursor, seq<Event>>,
                         lossless: set<Cursor>)

  ghost predicate KeySound(l: State, key: Key) {
    && History(At(l.full, key, []), At(l.revisions, key, 0))
    && At(l.events, key, []) == LastOf(At(l.full, key, []), MAX_RETAINED_EVENTS)
  }

  /** A run without a missed eviction has been told exactly the foreign events
      between its first revision and its cursor. */
  ghost predicate CursorSound(l: State, c: Cursor) {
    c in l.cursors ==>
      && c in l.begun && c in l.told && l.begun[c] <= l.cursors[c] <= At(l.revisions, c.0, 0)
      && (c in l.lossless ==> l.told[c] == Foreign(At(l.full, c.0, []), c.1, l.begun[c], l.cursors[c]))
  }

  ghost predicate Sound(l: State) {
    (forall key :: KeySound(l, key)) && (forall c :: CursorSound(l, c))
  }

  function BeginStep(l: State, key: Key, run: string): State {
    var c, revision := (key, run), At(l.revisions, key, 0);
    if c in l.cursors then l
    else l.(cursors := l.cursors[c := revision], begun := l.begun[c := revision], told := l.told[c := []],
            lossless := l.lossless + {c})
  }

  function RecordStep(l: State, key: Key, run: string, changes: seq<Change>): State {
    var revision := At(l.revisions, key, 0) + 1;
    if Filter(changes, Matters) == [] then l
    else
      var more := Recorded(changes, run, revision);
      l.(revisions := l.revisions[key := revision],
         events := l.events[key := LastOf(At(l.events, key, []) + more, MAX_RETAINED_EVENTS)],
         full := l.full[key := At(l.full, key, []) + more])
  }

  function Answer(l: State, key: Key, run: string): seq<Event> {
    var current := At(l.revisions, key, 0);
    if (key, run) !in l.cursors || current <= l.cursors[(key, run)] then []
    else Foreign(At(l.events, key, []), run, l.cursors[(key, run)], current)
  }

  /** A poll; it stays lossless if no more than the retained number of events is
      newer than the previous poll. */
  ghost function ConsumeStep(l: State, key: Key, run: string): State
    requires (key, run) in l.cursors ==> (key, run) in l.told
  {
    var c, current := (key, run), At(l.revisions, key, 0);
    if c !in l.cursors then BeginStep(l, key, run)
    else
      var fits := LaterCount(At(l.full, key, []), l.cursors[c]) <= MAX_RETAINED_EVENTS;
      l.(cursors := l.cursors[c := current], told := l.told[c := l.told[c] + Answer(l, key, run)],
         lossless := if fits then l.lossless else l.lossless - {c})
  }

  lemma {:induction false} EmptyWindow(full: seq<Event>, run: string, revision: nat)
    ensures Foreign(full, run, revision, revision) == []
  {
    FilterNone(full, (e: Event) => ForeignIn(e, run, revision, revision));
  }

  /** A record call counts one revision and appends its events to the log, unless nothing
      counts. The log keeps the last 2000 events. */
  lemma {:induction false} RecordExact(l: State, key: Key, run: string, changes: seq<Change>)
    requires KeySound(l, key)
    ensures (forall c :: c in changes ==> !Differs(c)) ==> RecordStep(l, key, run, changes) == l
    ensures (exists c :: c in changes && Differs(c)) ==>
              exists recorded ::
                && RecordFor(changes, recorded, run, At(l.revisions, key, 0) + 1)
                && LogGrows(l, key, recorded, RecordStep(l, key, run, changes))
  {
    NothingCounts(changes);
    var revision := At(l.revisions, key, 0) + 1;
    RecordedExact(changes, run, revision);
    hide Differs, RecordFor, History, Filter, Recorded, LogGrows, LastOf;
    if c :| c in changes && Differs(c) {
      RecordAdds(l, key, run, changes);
      hide RecordStep;
      assert LogGrows(l, key, Recorded(changes, run, revision), RecordStep(l, key, run, changes));
    }
  }

  /** The recorded events are appended to the log under the next revision, the log keeps its
      last 2000, and no other key is touched. */
  ghost predicate LogGrows(l: State, key: Key, recorded: seq<Event>, l': State) {
    var full := At(l.full, key, []) + recorded;
    var log := if |full| <= 2000 then full else full[|full| - 2000..];
    && l'.revisions == l.revisions[key := At(l.revisions, key, 0) + 1]
    && l'.full == l.full[key := full] && l'.events == l.events[key := log]
    && l' == l.(revisions := l'.revisions, full := l'.full, events := l'.events)
  }

  lemma {:induction false} RecordAdds(l: State, key: Key, run: string, changes: seq<Change>)
    requires At(l.events, key, []) == LastOf(At(l.full, key, []), MAX_RETAINED_EVENTS) && Filter(changes, Matters) != []
    ensures LogGrows(l, key, Recorded(changes, run, At(l.revisions, key, 0) + 1), RecordStep(l, key, run, changes))
  {
    hide Recorded, Filter, At;
    var more := Recorded(changes, run, At(l.revisions, key, 0) + 1);
    LastGrows(At(l.full, key, []), At(l.events, key, []), more, At(l.full, key, []) + more);
    hide LastOf;
  }

  lemma {:induction false} LastGrows(full: seq<Event>, log: seq<Event>, more: seq<Event>, all: seq<Event>)
    requires log == LastOf(full, MAX_RETAINED_EVENTS) && all == full + more
    ensures LastOf(log + more, MAX_RETAINED_EVENTS) == if |all| <= 2000 then all else all[|all| - 2000..]
  {
    LastOfAppend(full, more, MAX_RETAINED_EVENTS);
  }

  lemma {:induction false} NothingCounts(changes: seq<Change>)
    ensures Filter(changes, Matters) == [] <==> forall c :: c in changes ==> !Differs(c)
  {
    var all := Filter(changes, Matters);
    if all != [] {
      assert all[0] in all;
    }
  }

  lemma {:induction false} NothingBetween(log: seq<Event>, run: string, low: int, high: int)
    requires high <= low
    ensures Foreign(log, run, low, high) == []
  {
    FilterNone(log, (e: Event) => ForeignIn(e, run, low, high));
  }

  lemma {:induction false} BeginSound(l: State, key: Key, run: string)
    requires Sound(l)
    ensures Sound(BeginStep(l, key, run))
  {
    hide History, LastOf, Foreign;
    var l' := BeginStep(l, key, run);
    EmptyWindow(At(l.full, key, []), run, At(l.revisions, key, 0));
    forall k
      ensures KeySound(l', k)
    {
      assert KeySound(l, k);
    }
    forall c
      ensures CursorSound(l', c)
    {
      assert CursorSound(l, c);
    }
  }

  lemma {:induction false} RecordSound(l: State, key: Key, run: string, changes: seq<Change>)
    requires Sound(l)
    ensures Sound(RecordStep(l, key, run, changes))
  {
    hide KeySound, CursorSound, RecordStep;
    forall k
      ensures KeySound(RecordStep(l, key, run, changes), k)
    {
      RecordKeySound(l, key, run, changes, k);
    }
    forall c
      ensures CursorSound(RecordStep(l, key, run, changes), c)
    {
      RecordCursorSound(l, key, run, changes, c);
    }
  }

  lemma {:induction false} RecordKeySound(l: State, key: Key, run: string, changes: seq<Change>, k: Key)
    requires KeySound(l, k)
    ensures KeySound(RecordStep(l, key, run, changes), k)
  {
    hide History, LastOf, Recorded;
    var revision := At(l.revisions, key, 0) + 1;
    var more := Recorded(changes, run, revision);
    RecordedEvents(changes, run, revision);
    if k == key {
      HistoryGrows(At(l.full, key, []), revision - 1, more, run);
      LastOfAppend(At(l.full, key, []), more, MAX_RETAINED_EVENTS);
    }
  }

  lemma {:induction false} RecordCursorSound(l: State, key: Key, run: string, changes: seq<Change>, c: Cursor)
    requires CursorSound(l, c)
    ensures CursorSound(RecordStep(l, key, run, changes), c)
  {
    hide Foreign, Recorded, LastOf;
    var revision := At(l.revisions, key, 0) + 1;
    RecordedEvents(changes, run, revision);
    if c in l.cursors && c.0 == key {
      NothingNewBelow(At(l.full, key, []), Recorded(changes, run, revision), c.1, l.begun[c], l.cursors[c]);
    }
  }

  lemma {:induction false} ConsumeSound(l: State, key: Key, run: string)
    requires Sound(l)
    ensures (key, run) in l.cursors ==> (key, run) in l.told
    ensures Sound(ConsumeStep(l, key, run))
  {
    hide History, LastOf, Foreign, LaterCount, Answer;
    assert CursorSound(l, (key, run));
    if (key, run) !in l.cursors {
      BeginSound(l, key, run);
    } else {
      var l' := ConsumeStep(l, key, run);
      forall k
        ensures KeySound(l', k)
      {
        assert KeySound(l, k);
      }
      forall c
        ensures CursorSound(l', c)
      {
        assert CursorSound(l, c);
        if c == (key, run) {
          AnswerJoins(l, key, run);
        }
      }
    }
  }

  lemma {:induction false} AnswerJoins(l: State, key: Key, run: string)
    requires Sound(l) && (key, run) in l.cursors
    ensures (key, run) in l.begun
    ensures var c, full, current := (key, run), At(l.full, key, []), At(l.revisions, key, 0);
            LaterCount(full, l.cursors[c]) <= MAX_RETAINED_EVENTS ==>
              Foreign(full, run, l.begun[c], l.cursors[c]) + Answer(l, key, run) == Foreign(full, run, l.begun[c], current)
  {
    hide LastOf, Foreign, LaterCount;
    var c, full, current := (key, run), At(l.full, key, []), At(l.revisions, key, 0);
    assert KeySound(l, key) && CursorSound(l, c);
    if LaterCount(full, l.cursors[c]) <= MAX_RETAINED_EVENTS {
      BoundedAnswersLikeFull(full, run, l.cursors[c], current);
      WindowsJoin(full, run, l.begun[c], l.cursors[c], current);
      EmptyWindow(full, run, current);
    }
  }

  /*---------------------------------- whole runs -------------------------------*/

  datatype Op = Begin(key: Key, run: string) | Write(key: Key, run: string, changes: seq<Change>) | Poll(key: Key, run: string)

  ghost function Step(l: State, op: Op): State
    requires Sound(l)
  {
    assert op.Poll? ==> CursorSound(l, (op.key, op.run));
    match op
    case Begin(key, run) => BeginStep(l, key, run)
    case Write(key, run, changes) => RecordStep(l, key, run, changes)
    case Poll(key, run) => ConsumeStep(l, key, run)
  }

  lemma {:induction false} StepSound(l: State, op: Op)
    requires Sound(l)
    ensures Sound(Step(l, op))
  {
    match op
    case Begin(key, run) => BeginSound(l, key, run);
    case Write(key, run, changes) => RecordSound(l, key, run, changes);
    case Poll(key, run) => ConsumeSound(l, key, run);
  }

  /** At most 2000 events of the log are later than this revision. */
  ghost predicate StillRetained(full: seq<Event>, revision: int) {
    |full| <= 2000 || full[|full| - 2001].revision <= revision
  }

  lemma {:induction false} CountsRetained(full: seq<Event>, low: int)
    requires SortedBy(full, NotLater)
    ensures LaterCount(full, low) <= MAX_RETAINED_EVENTS <==> StillRetained(full, low)
  {
    if |full| > 2000 {
      var n := |full| - 2001;
      if full[n].revision <= low {
        assert full == full[..n + 1] + full[n + 1..];
        FilterConcat(full[..n + 1], full[n + 1..], (e: Event) => Later(e, low));
        forall e | e in full[..n + 1]
          ensures !Later(e, low)
        {
          var k :| 0 <= k < n + 1 && full[k] == e;
          assert k < n ==> NotLater(full[k], full[n]);
        }
        FilterNone(full[..n + 1], (e: Event) => Later(e, low));
      } else {
        assert full == full[..n] + full[n..];
        FilterConcat(full[..n], full[n..], (e: Event) => Later(e, low));
        forall e | e in full[n..]
          ensures Later(e, low)
        {
          var k :| 0 <= k < |full[n..]| && full[n..][k] == e;
          assert k > 0 ==> NotLater(full[n], full[n + k]);
        }
        FilterAll(full[n..], (e: Event) => Later(e, low));
      }
    }
  }

  /** A run is lossless from its first call on, until it polls after more than 2000 events. */
  lemma {:induction false} LosslessExact(l: State, op: Op, c: Cursor)
    requires Sound(l)
    ensures var mine := !op.Write? && (op.key, op.run) == c;
            c in Step(l, op).lossless
            <==> || (c in l.lossless && (mine && op.Poll? && c in l.cursors ==> StillRetained(At(l.full, c.0, []), l.cursors[c])))
                 || (mine && c !in l.cursors)
  {
    assert KeySound(l, c.0);
    if c in l.cursors {
      CountsRetained(At(l.full, c.0, []), l.cursors[c]);
    }
    hide LaterCount, StillRetained, Recorded, LastOf, Answer, History, KeySound, CursorSound;
  }

  const EMPTY := State(map[], map[], map[], map[], map[], map[], {})

  lemma {:induction false} EmptySound()
    ensures Sound(EMPTY)
  {
    forall key
      ensures KeySound(EMPTY, key)
    {
    }
    forall c
      ensures CursorSound(EMPTY, c)
    {
    }
  }

  ghost predicate Reaches(l: State, ops: seq<Op>, l': State)
    requires Sound(l)
    decreases |ops|
  {
    if ops == [] then l' == l
    else
      StepSound(l, ops[0]);
      Reaches(Step(l, ops[0]), ops[1..], l')
  }

  /** In any interleaving of runs, a run that polls often enough has been told
      exactly the foreign events since it began, each once and in order. */
  lemma {:induction false} NothingLostNothingTwice(l: State, ops: seq<Op>, l': State, key: Key, run: string)
    requires Sound(l) && Reaches(l, ops, l') && (key, run) in l'.lossless && (key, run) in l'.cursors
    ensures (key, run) in l'.told && (key, run) in l'.begun
    ensures var full, told, low, high := At(l'.full, key, []), l'.told[(key, run)], l'.begun[(key, run)], l'.cursors[(key, run)];
            && ForeignExactly(full, told, run, low, high)
            && forall e :: e in told <==> e in full && low < e.revision <= high && e.runId != run
    decreases |ops|
  {
    hide Foreign, Step, ForeignExactly;
    if ops == [] {
      assert CursorSound(l, (key, run));
      var full, low, high := At(l.full, key, []), l.begun[(key, run)], l.cursors[(key, run)];
      ForeignMeans(full, run, low, high);
      ForeignMembers(full, l.told[(key, run)], run, low, high);
    } else {
      StepSound(l, ops[0]);
      NothingLostNothingTwice(Step(l, ops[0]), ops[1..], l', key, run);
    }
  }

  /*----------------------------------- the ledger ------------------------------*/

  class WorkspaceChangeLedger {
    var revisions: map<Key, nat>
    var events: map<Key, seq<Event>>
    var cursors: map<Cursor, nat>
    ghost var full: map<Key, seq<Event>>
    ghost var begun: map<Cursor, nat>
    ghost var told: map<Cursor, seq<Event>>
    ghost var lossless: set<Cursor>

    constructor ()
      ensures View() == EMPTY && Sound(View())
    {
      revisions, events, cursors := map[], map[], map[];
      full, begun, told, lossless := map[], map[], map[], {};
      EmptySound();
    }

    ghost function View(): State
      reads this
    {
      State(revisions, events, cursors, full, begun, told, lossless)
    }

    method BeginRun(key: Key, run: string) returns (revision: nat)
      requires Sound(View())
      modifies this`cursors, this`begun, this`told, this`lossless
      ensures View() == BeginStep(old(View()), key, run) && Sound(View())
      ensures revision == At(revisions, key, 0)
      ensures (key, run) in old(cursors) ==> cursors == old(cursors)
      ensures (key, run) !in old(cursors) ==> cursors == old(cursors)[(key, run) := revision]
    {
      hide Sound;
      BeginSound(View(), key, run);
      revision := At(revisions, key, 0);
      if (key, run) !in cursors {
        cursors := cursors[(key, run) := revision];
        begun, told := begun[(key, run) := revision], told[(key, run) := []];
        lossless := lossless + {(key, run)};
      }
    }

    /** Asked by a caller that holds the workspace lock: false means that nobody else
        has changed the workspace since the given revision. */
    method HasForeignChangeAfter(key: Key, run: string, revision: int) returns (foreign: bool, current: nat)
      requires Sound(View())
      ensures current == At(revisions, key, 0)
      ensures revision >= 0 && !foreign ==> OwnSince(At(full, key, []), run, revision)
      ensures var log := At(events, key, []);
              foreign <==> && 0 <= revision < current
                           && (!OwnSince(log, run, revision) || (log != [] && log[0].revision > revision + 1))
    {
      hide LastOf;
      assert KeySound(View(), key);
      current := At(revisions, key, 0);
      if revision < 0 || current <= revision {
        return false, current;
      }
      var log := At(events, key, []);
      if Gap(log, revision) {
        return true, current;
      }
      foreign := ForeignAfter(log, run, revision);
      if !foreign {
        NoFalseNegative(At(full, key, []), current, run, revision);
      }
    }

    method Record(key: Key, run: string, changes: seq<Change>) returns (revision: nat, recorded: seq<Event>)
      requires Sound(View())
      modifies this`revisions, this`events, this`full
      ensures View() == RecordStep(old(View()), key, run, changes) && Sound(View())
      ensures revision == At(revisions, key, 0)
      ensures recorded == if Filter(changes, Matters) == [] then [] else Recorded(changes, run, revision)
    {
      hide Sound, Recorded, LastOf, Filter;
      RecordSound(View(), key, run, changes);
      revision := At(revisions, key, 0);
      var normalized := Filter(changes, Matters);
      if normalized == [] {
        return revision, [];
      }
      revision := revision + 1;
      recorded := BuildRecorded(changes, run, revision);
      revisions := revisions[key := revision];
      events := events[key := LastOf(At(events, key, []) + recorded, MAX_RETAINED_EVENTS)];
      full := full[key := At(full, key, []) + recorded];
    }

    method ConsumeExternal(key: Key, run: string) returns (current: nat, answer: seq<Event>)
      requires Sound(View())
      modifies this`cursors, this`begun, this`told, this`lossless
      ensures (key, run) in old(cursors) ==> (key, run) in old(told)
      ensures View() == ConsumeStep(old(View()), key, run) && Sound(View())
      ensures current == At(revisions, key, 0) && answer == Answer(old(View()), key, run)
      ensures cursors == old(cursors)[(key, run) := current]
      ensures (key, run) !in old(cursors) ==> answer == []
      ensures (key, run) in old(cursors) ==>
                && ForeignExactly(At(events, key, []), answer, run, old(cursors)[(key, run)], current)
                && forall e :: e in answer <==> && e in At(events, key, []) && e.runId != run
                                                && old(cursors)[(key, run)] < e.revision <= current
    {
      hide Sound, Foreign, LaterCount, ForeignExactly;
      ConsumeSound(View(), key, run);
      current := At(revisions, key, 0);
      var cursor := (key, run);
      var previous := if cursor in cursors then cursors[cursor] else current;
      answer := if current <= previous then [] else Foreign(At(events, key, []), run, previous, current);
      if cursor in cursors {
        if current <= previous {
          NothingBetween(At(events, key, []), run, previous, current);
        }
        ForeignMeans(At(events, key, []), run, previous, current);
        ForeignMembers(At(events, key, []), answer, run, previous, current);
      }
      if cursor in cursors {
        lossless := if LaterCount(At(full, key, []), previous) <= MAX_RETAINED_EVENTS then lossless else lossless - {cursor};
        told := told[cursor := told[cursor] + answer];
      } else {
        begun, told, lossless := begun[cursor := current], told[cursor := []], lossless + {cursor};
      }
      cursors := cursors[cursor := current];
    }
  }
}
