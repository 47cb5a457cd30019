/** The message discipline of a model conversation: every assistant message with
    tool calls is followed by exactly its tool results
    (agent/app/harness/agent_loop.py, agent/app/context/planner.py). */
module Protocol {
  import opened Ordering

  datatype Message =
    | System(content: string)
    | User(content: string)
    | Assistant(content: string, calls: seq<string>)
    | Tool(callId: string, content: string)

  const RECENT_RAW_TOKENS := 10000

  const MIN_RECENT_MESSAGES := 5

  /*--------------------------------- well-formedness ---------------------------*/

  /** The first |ids| messages are the results of exactly these calls, in order. */
  predicate Answers(messages: seq<Message>, ids: seq<string>) {
    |ids| <= |messages|
    && forall i :: 0 <= i < |ids| ==> messages[i].Tool? && messages[i].callId == ids[i]
  }

  /** The first message is not a tool result, and has its own results behind it. */
  predicate Whole(history: seq<Message>)
    requires history != []
  {
    !history[0].Tool? && (history[0].Assistant? ==> Answers(history[1..], history[0].calls))
  }

  /** A message together with its results. */
  function Span(m: Message): nat {
    if m.Assistant? then 1 + |m.calls| else 1
  }

  /** Each assistant message is directly followed by the results of its calls, and
      tool results stand nowhere else. */
  predicate WellFormed(history: seq<Message>) {
    history == [] || (Whole(history) && WellFormed(history[Span(history[0])..]))
  }

  /** Every tool result belongs to the nearest message in front of it that is none, which is
      an assistant message that has called it, and every call has its result. */
  ghost predicate InDiscipline(history: seq<Message>) {
    && (forall i :: 0 <= i < |history| && history[i].Assistant? ==> Resulted(history, i))
    && (forall j :: 0 <= j < |history| && history[j].Tool? ==> Claimed(history, j))
  }

  ghost predicate Resulted(history: seq<Message>, i: nat)
    requires i < |history| && history[i].Assistant?
  {
    HasResults(history[i + 1..], history[i].calls)
  }

  ghost predicate HasResults(behind: seq<Message>, calls: seq<string>) {
    |calls| <= |behind| && forall k :: 0 <= k < |calls| ==> behind[k].Tool? && behind[k].callId == calls[k]
  }

  ghost predicate Claimed(history: seq<Message>, j: nat) {
    exists i :: 0 <= i < j < |history| && history[i].Assistant? && j <= i + |history[i].calls|
  }

  /** The recursive form says just that. */
  lemma {:induction false} WellFormedExact(history: seq<Message>)
    ensures WellFormed(history) <==> InDiscipline(history)
  {
    if history != [] {
      WholeInFront(history);
      if Whole(history) {
        WellFormedExact(history[Span(history[0])..]);
        RestDisciplined(history, Span(history[0]));
      }
      hide InDiscipline, Whole;
    }
  }

  lemma {:induction false} WholeInFront(history: seq<Message>)
    requires history != []
    ensures InDiscipline(history) ==> Whole(history)
    ensures Whole(history) ==> Span(history[0]) <= |history|
  {
    assert !Claimed(history, 0);
    if InDiscipline(history) && history[0].Assistant? {
      assert Resulted(history, 0);
      assert HasResults(history[1..], history[0].calls);
    }
  }

  lemma {:induction false} RestDisciplined(history: seq<Message>, n: nat)
    requires history != [] && Whole(history) && n == Span(history[0]) <= |history|
    ensures InDiscipline(history) <==> InDiscipline(history[n..])
  {
    FrontDisciplined(history);
    hide Whole, Span, Resulted, Claimed, InDiscipline;
    if InDiscipline(history[n..]) {
      JoinDisciplined(history, n);
    }
    if InDiscipline(history) {
      CutDisciplined(history, n);
    }
  }

  lemma {:induction false} SameBehind(history: seq<Message>, n: nat, i: nat)
    requires n + i < |history|
    ensures history[n..][i] == history[n + i]
    ensures history[n + i].Assistant? ==> (Resulted(history[n..], i) <==> Resulted(history, n + i))
    ensures Claimed(history[n..], i) ==> Claimed(history, n + i)
  {
    var rest := history[n..];
    assert history[n + i + 1..] == rest[i + 1..];
    if Claimed(rest, i) {
      var k :| 0 <= k < i && rest[k].Assistant? && i <= k + |rest[k].calls|;
      assert history[n + k] == rest[k];
    }
  }

  lemma {:induction false} JoinDisciplined(history: seq<Message>, n: nat)
    requires n <= |history| && InDiscipline(history[n..])
    requires forall i :: 0 <= i < n && history[i].Assistant? ==> Resulted(history, i)
    requires forall j :: 0 <= j < n && history[j].Tool? ==> Claimed(history, j)
    ensures InDiscipline(history)
  {
    hide Resulted, Claimed;
    forall i | n <= i < |history|
      ensures history[i].Assistant? ==> Resulted(history, i)
      ensures history[i].Tool? ==> Claimed(history, i)
    {
      SameBehind(history, n, i - n);
    }
  }

  lemma {:induction false} CutDisciplined(history: seq<Message>, n: nat)
    requires n <= |history| && InDiscipline(history)
    requires forall i :: 0 <= i < n && history[i].Assistant? ==> i + |history[i].calls| < n
    ensures InDiscipline(history[n..])
  {
    hide Resulted;
    var rest := history[n..];
    forall i | 0 <= i < |rest|
      ensures rest[i].Assistant? ==> Resulted(rest, i)
      ensures rest[i].Tool? ==> Claimed(rest, i)
    {
      SameBehind(history, n, i);
      if rest[i].Tool? {
        var k :| 0 <= k < n + i && history[k].Assistant? && n + i <= k + |history[k].calls|;
        assert rest[k - n] == history[k];
      }
    }
  }

  /** The first message and its results are in order. */
  lemma {:induction false} FrontDisciplined(history: seq<Message>)
    requires history != [] && Whole(history) && Span(history[0]) <= |history|
    ensures forall i :: 0 <= i < Span(history[0]) && history[i].Assistant? ==> i == 0 && Resulted(history, i)
    ensures forall j :: 0 <= j < Span(history[0]) && history[j].Tool? ==> Claimed(history, j)
    ensures forall i :: 0 <= i < Span(history[0]) && history[i].Assistant? ==> i + |history[i].calls| < Span(history[0])
  {
    forall i | 0 < i < Span(history[0])
      ensures history[i].Tool? && Claimed(history, i)
    {
      assert history[1..][i - 1] == history[i];
    }
  }

  predicate Plain(messages: seq<Message>) {
    forall m :: m in messages ==> m.System? || m.User?
  }

  lemma {:induction false} PlainIsWellFormed(messages: seq<Message>)
    requires Plain(messages)
    ensures WellFormed(messages)
  {
    if messages != [] {
      assert messages[0] in messages;
      PlainIsWellFormed(messages[1..]);
    }
  }

  /** System and user messages in front change nothing. */
  lemma {:induction false} PlainPrefix(prefix: seq<Message>, history: seq<Message>)
    requires Plain(prefix)
    ensures WellFormed(prefix + history) <==> WellFormed(history)
  {
    if prefix == [] {
      assert prefix + history == history;
    } else {
      assert prefix[0] in prefix;
      PlainPrefix(prefix[1..], history);
      assert (prefix + history)[1..] == prefix[1..] + history;
    }
  }

  lemma {:induction false} WholeExtends(a: seq<Message>, b: seq<Message>)
    requires a != [] && Whole(a)
    ensures Whole(a + b) && Span(a[0]) <= |a|
  {
    assert (a + b)[1..] == a[1..] + b;
  }

  lemma {:induction false} WellFormedConcat(a: seq<Message>, b: seq<Message>)
    requires WellFormed(a) && WellFormed(b)
    ensures WellFormed(a + b)
    decreases |a|
  {
    if a == [] {
      assert a + b == b;
    } else {
      var k := Span(a[0]);
      WholeExtends(a, b);
      WellFormedConcat(a[k..], b);
      assert (a + b)[k..] == a[k..] + b;
    }
  }

  predicate StartsGroup(b: seq<Message>) { b == [] || !b[0].Tool? }

  lemma {:induction false} AnswersShrink(a: seq<Message>, b: seq<Message>, ids: seq<string>)
    requires Answers(a + b, ids) && StartsGroup(b)
    ensures Answers(a, ids)
  {
    assert b != [] ==> (a + b)[|a|] == b[0];
    forall i | 0 <= i < |ids| && i < |a|
      ensures a[i].Tool? && a[i].callId == ids[i]
    {
      assert (a + b)[i] == a[i];
    }
  }

  lemma {:induction false} WholeShrinks(a: seq<Message>, b: seq<Message>)
    requires a != [] && Whole(a + b) && StartsGroup(b)
    ensures Whole(a) && Span(a[0]) <= |a|
  {
    assert (a + b)[1..] == a[1..] + b;
    if a[0].Assistant? {
      AnswersShrink(a[1..], b, a[0].calls);
    }
  }

  /** A cut that is not in front of a tool result leaves two well-formed halves. */
  lemma {:induction false} WellFormedCut(a: seq<Message>, b: seq<Message>)
    requires WellFormed(a + b) && StartsGroup(b)
    ensures WellFormed(a) && WellFormed(b)
    decreases |a|
  {
    if a == [] {
      assert a + b == b;
    } else {
      WholeShrinks(a, b);
      assert (a + b)[Span(a[0])..] == a[Span(a[0])..] + b;
      WellFormedCut(a[Span(a[0])..], b);
    }
  }

  lemma {:induction false} AppendPlain(history: seq<Message>, m: Message)
    requires m.System? || m.User? || (m.Assistant? && m.calls == [])
    ensures WellFormed(history + [m]) <==> WellFormed(history)
  {
    assert WellFormed([m]) by {
      assert [m][1..] == [];
    }
    if WellFormed(history) {
      WellFormedConcat(history, [m]);
    } else if WellFormed(history + [m]) {
      WellFormedCut(history, [m]);
    }
  }

  /** A turn whose results are complete and in order leaves the history as well
      formed as it was. */
  lemma {:induction false} AppendTurn(history: seq<Message>, content: string, ids: seq<string>, results: seq<Message>)
    requires |results| == |ids| && Answers(results, ids)
    ensures WellFormed(history + [Assistant(content, ids)] + results) <==> WellFormed(history)
  {
    var turn := [Assistant(content, ids)] + results;
    assert turn[1..] == results && turn[1 + |ids|..] == [];
    assert history + turn == history + [Assistant(content, ids)] + results;
    if WellFormed(history) {
      WellFormedConcat(history, turn);
    } else if WellFormed(history + turn) {
      WellFormedCut(history, turn);
    }
  }

  /** A turn that lacks a result does not. */
  lemma {:induction false} OrphanedTurn(history: seq<Message>, content: string, ids: seq<string>, results: seq<Message>)
    requires |results| < |ids|
    ensures !WellFormed(history + [Assistant(content, ids)] + results)
  {
    var turn := [Assistant(content, ids)] + results;
    assert history + turn == history + [Assistant(content, ids)] + results;
    assert turn[1..] == results;
    if WellFormed(history + turn) {
      WellFormedCut(history, turn);
    }
  }

  /*------------------------------- the history splitter ------------------------*/

  function Flatten(groups: seq<seq<Message>>): seq<Message> {
    if groups == [] then [] else Flatten(groups[..|groups| - 1]) + groups[|groups| - 1]
  }

  /** A group is one message and the tool results behind it. */
  function GroupsOf(messages: seq<Message>): (groups: seq<seq<Message>>)
    ensures messages != [] ==> groups != []
  {
    if messages == [] then []
    else
      var m := messages[|messages| - 1];
      var groups := GroupsOf(messages[..|messages| - 1]);
      if m.Tool? && groups != [] then groups[|groups| - 1 := groups[|groups| - 1] + [m]] else groups + [[m]]
  }

  /** No group is empty, a group goes on with tool results only, and only the first group
      can begin with one. */
  ghost predicate Grouped(groups: seq<seq<Message>>) {
    forall i :: 0 <= i < |groups| ==> OneGroup(groups[i]) && (i > 0 ==> !groups[i][0].Tool?)
  }

  ghost predicate OneGroup(group: seq<Message>) {
    group != [] && forall j :: 0 < j < |group| ==> group[j].Tool?
  }

  lemma {:induction false} FlattenSnoc(groups: seq<seq<Message>>, g: seq<Message>)
    ensures Flatten(groups + [g]) == Flatten(groups) + g
  {
    assert (groups + [g])[..|groups|] == groups;
  }

  lemma {:induction false} FlattenConcat(a: seq<seq<Message>>, b: seq<seq<Message>>)
    ensures Flatten(a + b) == Flatten(a) + Flatten(b)
  {
    if b == [] {
      assert a + b == a;
    } else {
      var n := |b| - 1;
      FlattenConcat(a, b[..n]);
      assert (a + b)[..|a + b| - 1] == a + b[..n];
    }
  }

  lemma {:induction false} ExtendLast(groups: seq<seq<Message>>, m: Message)
    requires groups != [] && Grouped(groups) && m.Tool?
    ensures var k := |groups| - 1;
            Flatten(groups[k := groups[k] + [m]]) == Flatten(groups) + [m] && Grouped(groups[k := groups[k] + [m]])
  {
    var k := |groups| - 1;
    var longer := groups[k := groups[k] + [m]];
    assert longer[..k] == groups[..k];
    assert forall i :: 0 <= i < k ==> longer[i] == groups[i];
    assert longer[k][0] == groups[k][0];
  }

  /** Grouping loses nothing, and only the first group can begin with a tool result. */
  lemma {:induction false} GroupsExact(messages: seq<Message>)
    ensures Flatten(GroupsOf(messages)) == messages && Grouped(GroupsOf(messages))
  {
    hide Flatten, Grouped;
    if messages == [] {
      NoGroups();
    } else {
      var n := |messages| - 1;
      GroupsExact(messages[..n]);
      var m, groups := messages[n], GroupsOf(messages[..n]);
      assert messages == messages[..n] + [m];
      if m.Tool? && groups != [] {
        ExtendLast(groups, m);
      } else {
        FlattenSnoc(groups, [m]);
        GroupedSnoc(groups, m);
      }
    }
  }

  lemma {:induction false} NoGroups()
    ensures Flatten([]) == [] && Grouped([])
  {
  }

  lemma {:induction false} GroupedSnoc(groups: seq<seq<Message>>, m: Message)
    requires Grouped(groups) && (groups != [] ==> !m.Tool?)
    ensures Grouped(groups + [[m]])
  {
    var more := groups + [[m]];
    assert forall i :: 0 <= i < |groups| ==> more[i] == groups[i];
  }

  function Tokens(groups: seq<seq<Message>>, estimate: seq<Message> -> nat): nat {
    if groups == [] then 0 else estimate(groups[0]) + Tokens(groups[1..], estimate)
  }

  /** The walk from the newest group backwards stops in front of group i. */
  predicate Stops(groups: seq<seq<Message>>, i: nat, estimate: seq<Message> -> nat, force: bool)
    requires i < |groups|
  {
    && |Flatten(groups[i + 1..])| >= MIN_RECENT_MESSAGES
    && (force || Tokens(groups[i + 1..], estimate) + estimate(groups[i]) > RECENT_RAW_TOKENS)
  }

  /** The retained groups start at cut: it is the first place where the walk stops. */
  ghost predicate IsCut(groups: seq<seq<Message>>, cut: nat, estimate: seq<Message> -> nat, force: bool) {
    && cut <= |groups|
    && (forall i :: cut <= i < |groups| ==> !Stops(groups, i, estimate, force))
    && (cut > 0 ==> Stops(groups, cut - 1, estimate, force))
  }

  /** What is kept starts at this group: with the group before it the kept messages would be
      at least five without it and cost more than 10000 tokens with it, or at least five if
      compaction is forced, and nowhere behind it is that so. */
  ghost predicate KeptFrom(groups: seq<seq<Message>>, cut: nat, estimate: seq<Message> -> nat, force: bool) {
    && cut <= |groups|
    && (cut > 0 ==> Enough(groups[cut - 1], groups[cut..], estimate, force))
    && forall i :: cut <= i < |groups| ==> !Enough(groups[i], groups[i + 1..], estimate, force)
  }

  ghost predicate Enough(next: seq<Message>, kept: seq<seq<Message>>, estimate: seq<Message> -> nat, force: bool) {
    |Flatten(kept)| >= 5 && (force || estimate(next) + Tokens(kept, estimate) > 10000)
  }

  lemma {:induction false} CutExact(groups: seq<seq<Message>>, cut: nat, estimate: seq<Message> -> nat, force: bool)
    ensures IsCut(groups, cut, estimate, force) <==> KeptFrom(groups, cut, estimate, force)
  {
    hide Flatten, Tokens;
    if IsCut(groups, cut, estimate, force) {
      forall i | cut <= i < |groups|
        ensures !Enough(groups[i], groups[i + 1..], estimate, force)
      {
        assert !Stops(groups, i, estimate, force);
      }
    }
    if KeptFrom(groups, cut, estimate, force) {
      forall i | cut <= i < |groups|
        ensures !Stops(groups, i, estimate, force)
      {
        assert !Enough(groups[i], groups[i + 1..], estimate, force);
      }
    }
  }

  /** split_for_compaction; split_rendered_for_compaction is the same without force. */
  method SplitForCompaction(messages: seq<Message>, estimate: seq<Message> -> nat, force: bool)
    returns (compactable: seq<Message>, retained: seq<Message>, ghost cut: nat)
    ensures |messages| <= MIN_RECENT_MESSAGES ==> compactable == [] && retained == messages
    ensures |messages| > MIN_RECENT_MESSAGES ==>
              IsCut(GroupsOf(messages), cut, estimate, force)
              && compactable == Flatten(GroupsOf(messages)[..cut]) && retained == Flatten(GroupsOf(messages)[cut..])
  {
    hide GroupsOf, Stops, Flatten;
    cut := 0;
    if |messages| <= MIN_RECENT_MESSAGES {
      return [], messages, 0;
    }
    var groups := BuildGroups(messages);
    var retainedGroups;
    cut, retainedGroups := RetainRecent(groups, estimate, force);
    retained := Joined(retainedGroups);
    GroupsExact(messages);
    assert groups == groups[..cut] + groups[cut..];
    FlattenConcat(groups[..cut], groups[cut..]);
    compactable := messages[..|messages| - |retained|];
  }

  method RetainRecent(groups: seq<seq<Message>>, estimate: seq<Message> -> nat, force: bool)
    returns (cut: nat, retainedGroups: seq<seq<Message>>)
    ensures IsCut(groups, cut, estimate, force) && retainedGroups == groups[cut..]
  {
    hide Flatten;
    var retainedTokens := 0;
    cut, retainedGroups := |groups|, [];
    while cut > 0
      invariant 0 <= cut <= |groups| && retainedGroups == groups[cut..]
      invariant retainedTokens == Tokens(groups[cut..], estimate)
      invariant forall k :: cut <= k < |groups| ==> !Stops(groups, k, estimate, force)
    {
      var tokens := estimate(groups[cut - 1]);
      var count := CountMessages(retainedGroups);
      if count >= MIN_RECENT_MESSAGES && (force || retainedTokens + tokens > RECENT_RAW_TOKENS) {
        break;
      }
      assert groups[cut - 1..][1..] == groups[cut..];
      retainedGroups := [groups[cut - 1]] + retainedGroups;
      retainedTokens := retainedTokens + tokens;
      cut := cut - 1;
    }
  }

  method BuildGroups(messages: seq<Message>) returns (groups: seq<seq<Message>>)
    ensures groups == GroupsOf(messages)
  {
    groups := [];
    for i := 0 to |messages|
      invariant groups == GroupsOf(messages[..i])
    {
      assert messages[..i + 1][..i] == messages[..i];
      if messages[i].Tool? && groups != [] {
        groups := groups[|groups| - 1 := groups[|groups| - 1] + [messages[i]]];
      } else {
        groups := groups + [[messages[i]]];
      }
    }
    assert messages[..|messages|] == messages;
  }

  method CountMessages(groups: seq<seq<Message>>) returns (count: nat)
    ensures count == |Flatten(groups)|
  {
    count := 0;
    for i := 0 to |groups|
      invariant count == |Flatten(groups[..i])|
    {
      assert groups[..i + 1][..i] == groups[..i];
      count := count + |groups[i]|;
    }
    assert groups[..|groups|] == groups;
  }

  method Joined(groups: seq<seq<Message>>) returns (messages: seq<Message>)
    ensures messages == Flatten(groups)
  {
    messages := [];
    for i := 0 to |groups|
      invariant messages == Flatten(groups[..i])
    {
      assert groups[..i + 1][..i] == groups[..i];
      messages := messages + groups[i];
    }
    assert groups[..|groups|] == groups;
  }

  lemma {:induction false} FlattenHead(groups: seq<seq<Message>>)
    requires groups != [] && groups[0] != []
    ensures Flatten(groups) != [] && Flatten(groups)[0] == groups[0][0]
  {
    assert groups == [groups[0]] + groups[1..];
    FlattenConcat([groups[0]], groups[1..]);
    assert [groups[0]][..0] == [];
  }

  /** The splitter cuts between groups: nothing is lost, a history is well formed
      exactly when both halves are, and at least five messages stay. */
  lemma {:induction false} CutKeepsGroups(messages: seq<Message>, cut: nat, estimate: seq<Message> -> nat, force: bool)
    requires IsCut(GroupsOf(messages), cut, estimate, force)
    ensures var groups := GroupsOf(messages);
            && Flatten(groups[..cut]) + Flatten(groups[cut..]) == messages
            && (WellFormed(messages) <==> WellFormed(Flatten(groups[..cut])) && WellFormed(Flatten(groups[cut..])))
            && (cut == 0 || |Flatten(groups[cut..])| >= MIN_RECENT_MESSAGES)
  {
    var groups := GroupsOf(messages);
    GroupsExact(messages);
    assert groups == groups[..cut] + groups[cut..];
    FlattenConcat(groups[..cut], groups[cut..]);
    hide GroupsOf, Tokens, WellFormed;
    var left, right := Flatten(groups[..cut]), Flatten(groups[cut..]);
    if cut == 0 {
      assert groups[..cut] == [] && groups[cut..] == groups;
      NothingIsWellFormed();
    } else {
      if cut < |groups| {
        assert groups[cut..][0] == groups[cut];
        FlattenHead(groups[cut..]);
      }
      assert StartsGroup(right);
      if WellFormed(messages) {
        WellFormedCut(left, right);
      } else if WellFormed(left) && WellFormed(right) {
        WellFormedConcat(left, right);
      }
      assert Stops(groups, cut - 1, estimate, force);
    }
  }

  /** Messages read into a broken transcript do not repair it. */
  lemma {:induction false} InboxRepairsNothing(transcript: seq<Message>, inbox: seq<Message>)
    requires Plain(inbox)
    ensures WellFormed(transcript + inbox) <==> WellFormed(transcript)
  {
    PlainIsWellFormed(inbox);
    assert inbox != [] ==> inbox[0] in inbox;
    if WellFormed(transcript) {
      WellFormedConcat(transcript, inbox);
    } else if WellFormed(transcript + inbox) {
      WellFormedCut(transcript, inbox);
    }
  }

  lemma {:induction false} NothingIsWellFormed()
    ensures WellFormed([])
  {
  }
}
