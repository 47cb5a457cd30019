/** The agent loop as seen by the model provider and by a child session
    (agent/app/harness/agent_loop.py, agent/app/subagent/continuable.py): which
    messages every model request carries, and what the emitted events rebuild. */
module AgentLoop {
  import opened Ordering
  import opened Text
  import opened Protocol
  import opened ToolScheduler

  datatype Event =
    | ProtocolMessage(message: Message)
    | Compacted(summary: string, compactedCount: nat, retainedCount: nat)

  /** A model request with what had been emitted before it. */
  datatype Request = Request(messages: seq<Message>, prefixLength: nat, before: seq<Event>)

  datatype Turn = Reply(content: string, calls: seq<Call>) | PausedReply | FailedReply

  datatype Outcome = Finished | Paused | Failed | Raised

  const ABORTED := "ABORTED_BEFORE_DISPATCH"

  /*------------------------ what a child session makes of it -------------------*/

  predicate Blank(s: string) { Strip(s) == "" }

  function FollowOne(transcript: seq<Message>, event: Event): Option<seq<Message>> {
    match event
    case ProtocolMessage(m) => Some(transcript + [m])
    case Compacted(summary, count, _) =>
      if Blank(summary) || count < 1 || count > |transcript| then None else Some(transcript[count..])
  }

  /** The transcript after the given events; None when the session gives up. */
  function Follow(transcript: seq<Message>, events: seq<Event>): Option<seq<Message>> {
    if events == [] then Some(transcript)
    else match Follow(transcript, events[..|events| - 1])
         case None => None
         case Some(t) => FollowOne(t, events[|events| - 1])
  }

  class ChildSession {
    var transcript: seq<Message>
    var summary: string

    constructor (transcript: seq<Message>)
      ensures this.transcript == transcript
    {
      this.transcript, this.summary := transcript, "";
    }

    /** _apply_compaction_event: false when the boundary or the summary is invalid. */
    method ApplyCompaction(newSummary: string, count: nat) returns (ok: bool)
      modifies this
      ensures FollowOne(old(transcript), Compacted(newSummary, count, 0)) == if ok then Some(transcript) else None
      ensures ok <==> !OnlyBlanks(newSummary) && 1 <= count <= |old(transcript)|
      ensures !ok ==> transcript == old(transcript) && summary == old(summary)
      ensures ok ==> summary == newSummary && transcript == old(transcript)[count..]
    {
      StripBlank(newSummary);
      hide OnlyBlanks, Strip;
      if Blank(newSummary) || count < 1 || count > |transcript| {
        return false;
      }
      summary := newSummary;
      transcript := transcript[count..];
      return true;
    }

    method FollowEvents(events: seq<Event>) returns (ok: bool)
      modifies this
      ensures Follow(old(transcript), events) == if ok then Some(transcript) else None
    {
      ok := true;
      for k := 0 to |events|
        invariant Follow(old(transcript), events[..k]) == Some(transcript)
      {
        assert events[..k + 1][..k] == events[..k];
        match events[k] {
          case ProtocolMessage(m) => transcript := transcript + [m];
          case Compacted(newSummary, count, _) =>
            ok := ApplyCompaction(newSummary, count);
            if !ok {
              GivesUp(old(transcript), events, k + 1);
              return;
            }
        }
      }
      assert events[..|events|] == events;
    }
  }

  lemma {:induction false} GivesUp(transcript: seq<Message>, events: seq<Event>, k: nat)
    requires k <= |events| && Follow(transcript, events[..k]) == None
    ensures Follow(transcript, events) == None
    decreases |events|
  {
    if k < |events| {
      assert events[..|events| - 1][..k] == events[..k];
      GivesUp(transcript, events[..|events| - 1], k);
    } else {
      assert events[..k] == events;
    }
  }

  ghost predicate Summarised(events: seq<Event>) {
    forall e :: e in events && e.Compacted? ==> !Blank(e.summary)
  }

  /** Whoever follows the events ends up with exactly this history. */
  ghost predicate Mirrors(initial: seq<Message>, events: seq<Event>, history: seq<Message>) {
    Summarised(events) ==> Follow(initial, events) == Some(history)
  }

  ghost predicate NoCompaction(events: seq<Event>) {
    forall e :: e in events ==> !e.Compacted?
  }

  /** What starts well formed stays so; what starts broken stays so at least until
      a compaction. */
  ghost predicate Tracks(initial: seq<Message>, events: seq<Event>, history: seq<Message>) {
    && (WellFormed(initial) ==> WellFormed(history))
    && (NoCompaction(events) && WellFormed(history) ==> WellFormed(initial))
  }

  lemma {:induction false} TracksOn(initial: seq<Message>, events: seq<Event>, history: seq<Message>,
          events': seq<Event>, history': seq<Message>)
    requires Tracks(initial, events, history)
    requires WellFormed(history') <==> WellFormed(history)
    requires NoCompaction(events') ==> NoCompaction(events)
    ensures Tracks(initial, events', history')
  {
  }

  lemma {:induction false} TracksCompaction(initial: seq<Message>, events: seq<Event>, history: seq<Message>,
          compaction: Event, kept: seq<Message>)
    requires Tracks(initial, events, history) && compaction.Compacted?
    requires WellFormed(history) ==> WellFormed(kept)
    ensures Tracks(initial, events + [compaction], kept)
  {
    assert compaction in events + [compaction];
  }

  lemma {:induction false} MessageIsNoCompaction(events: seq<Event>, m: Message)
    ensures NoCompaction(events + [ProtocolMessage(m)]) <==> NoCompaction(events)
  {
    var more := events + [ProtocolMessage(m)];
    assert forall e :: e in events ==> e in more;
  }

  lemma {:induction false} MirrorMessage(initial: seq<Message>, events: seq<Event>, history: seq<Message>, m: Message)
    requires Mirrors(initial, events, history)
    ensures Mirrors(initial, events + [ProtocolMessage(m)], history + [m])
  {
    var more := events + [ProtocolMessage(m)];
    assert more[..|events|] == events;
    assert forall e :: e in events ==> e in more;
  }

  lemma {:induction false} MirrorCompaction(initial: seq<Message>, events: seq<Event>, dropped: seq<Message>,
          kept: seq<Message>, summary: string)
    requires Mirrors(initial, events, dropped + kept) && dropped != []
    ensures Mirrors(initial, events + [Compacted(summary, |dropped|, |kept|)], kept)
  {
    var last := Compacted(summary, |dropped|, |kept|);
    var more := events + [last];
    assert more[..|events|] == events;
    assert forall e :: e in events ==> e in more;
    assert last in more;
    assert (dropped + kept)[|dropped|..] == kept;
  }

  /*------------------------------- tool results --------------------------------*/

  function Ids(calls: seq<Call>): (ids: seq<string>)
    ensures |ids| == |calls| && forall i :: 0 <= i < |ids| ==> ids[i] == calls[i].id
  {
    seq(|calls|, i requires 0 <= i < |calls| => calls[i].id)
  }

  function ToolMessage(item: Item): Message {
    match item
    case Completed(call, text) => Tool(call.id, text)
    case Aborted(call) => Tool(call.id, ABORTED)
  }

  function ToolMessages(items: seq<Item>): (messages: seq<Message>)
    ensures |messages| == |items|
    ensures forall i :: 0 <= i < |items| ==> messages[i] == ToolMessage(items[i])
  {
    seq(|items|, i requires 0 <= i < |items| => ToolMessage(items[i]))
  }

  function Spoken(texts: seq<string>): (messages: seq<Message>)
    ensures |messages| == |texts| && forall i :: 0 <= i < |texts| ==> messages[i] == User(texts[i])
  {
    seq(|texts|, i requires 0 <= i < |texts| => User(texts[i]))
  }

  lemma {:induction false} SpokenJoins(a: seq<string>, b: seq<string>)
    ensures Spoken(a + b) == Spoken(a) + Spoken(b)
  {
  }

  /** after is before with one more tool turn: the reply with its calls, and behind it, call
      by call, what the scheduler has delivered or that the call was not made. */
  ghost predicate OneTurnMore(before: seq<Message>, after: seq<Message>, content: string, calls: seq<Call>, items: seq<Item>) {
    var n := |before|;
    && |after| == n + 1 + |items| && |items| <= |calls| && after[..n] == before
    && after[n].Assistant? && after[n].content == content && |after[n].calls| == |calls|
    && (forall i :: 0 <= i < |calls| ==> after[n].calls[i] == calls[i].id)
    && forall i :: 0 <= i < |items| ==>
         after[n + 1..][i] == Tool(calls[i].id, if items[i].Completed? then items[i].text else "ABORTED_BEFORE_DISPATCH")
  }

  lemma {:induction false} TurnAppended(before: seq<Message>, content: string, calls: seq<Call>, items: seq<Item>)
    requires |items| <= |calls| && forall i :: 0 <= i < |items| ==> items[i].call == calls[i]
    ensures OneTurnMore(before, before + [Assistant(content, Ids(calls))] + ToolMessages(items), content, calls, items)
  {
    var after := before + [Assistant(content, Ids(calls))] + ToolMessages(items);
    assert after[|before| + 1..] == ToolMessages(items);
  }

  /** One item per call, in order, is one answer per call, in order. */
  lemma {:induction false} ItemsAnswer(calls: seq<Call>, items: seq<Item>)
    requires |items| == |calls| && forall i :: 0 <= i < |items| ==> items[i].call == calls[i]
    ensures Answers(ToolMessages(items), Ids(calls))
  {
  }

  /** The history loses its first messages, and one event says how many and how many are
      left. */
  ghost predicate CompactsTo(before: seq<Message>, after: seq<Message>, told: seq<Event>, events: seq<Event>) {
    && |events| == |told| + 1 && events[..|told|] == told
    && var e := events[|told|];
       && e.Compacted? && 0 < e.compactedCount <= |before|
       && after == before[e.compactedCount..] && e.retainedCount == |after|
  }

  lemma {:induction false} SuffixKept(before: seq<Message>, dropped: seq<Message>, kept: seq<Message>, told: seq<Event>,
          summary: string)
    requires before == dropped + kept && dropped != []
    ensures CompactsTo(before, kept, told, told + [Compacted(summary, |dropped|, |kept|)])
  {
    assert before[|dropped|..] == kept;
  }

  /*----------------------------------- the loop --------------------------------*/

  ghost predicate SentWell(r: Request, initial: seq<Message>, child: bool) {
    && r.prefixLength <= |r.messages| && Plain(r.messages[..r.prefixLength]) && Tracks(initial, r.before, r.messages)
    && (child ==> Mirrors(initial, r.before, r.messages[r.prefixLength..]))
  }

  /** The state between two steps of the loop. */
  ghost predicate InForm(prefix: seq<Message>, history: seq<Message>, events: seq<Event>, requests: seq<Request>,
                         initial: seq<Message>, child: bool)
  {
    && Plain(prefix) && Tracks(initial, events, history)
    && (child ==> Mirrors(initial, events, history))
    && forall r :: r in requests ==> SentWell(r, initial, child)
  }

  /** The tool calls of one reply, the world they meet, and how many of them were
      started before a pause or a failure. */
  datatype ToolCalls = ToolCalls(calls: seq<Call>, world: World, started: nat)

  /** Each of the first n calls ends with a result, run one by one. */
  ghost predicate Answered(calls: seq<Call>, world: World, n: nat) {
    n <= |calls| ==> AllPresent(calls, world, 0, n)
  }

  ghost predicate AllAnswered(calls: seq<Call>, world: World) {
    Answered(calls, world, |calls|)
  }

  /** Some call that was started raises or has no result. */
  ghost predicate SomeStartUnanswered(turns: seq<ToolCalls>) {
    exists i :: 0 <= i < |turns| && !Answered(turns[i].calls, turns[i].world, turns[i].started)
  }

  ghost predicate SomeTurnUnanswered(turns: seq<ToolCalls>) {
    exists i :: 0 <= i < |turns| && !AllAnswered(turns[i].calls, turns[i].world)
  }

  /** No call raises or lacks a result in this world. */
  ghost predicate Reliable(world: World) {
    forall calls: seq<Call>, i: nat, inline: nat :: i < |calls| ==> !Missing(calls, world, i, inline)
  }

  lemma {:induction false} ReliableAnswers(calls: seq<Call>, world: World, n: nat)
    requires Reliable(world)
    ensures Answered(calls, world, n)
  {
    hide Missing, SerialInline;
  }

  /** What one iteration says about its tool turn, if it had one. */
  ghost predicate TurnFailed(before: seq<ToolCalls>, after: seq<ToolCalls>, alone: bool, orphaned: bool) {
    if after == before then !orphaned
    else
      && after != [] && after[..|after| - 1] == before
      && var turn := after[|after| - 1];
         && turn.started <= |turn.calls|
         && (orphaned <==> !Answered(turn.calls, turn.world, turn.started))
         && (alone ==> (orphaned <==> !AllAnswered(turn.calls, turn.world)))
  }

  /** How a run leaves the history it was following. */
  ghost predicate Closes(initial: seq<Message>, events: seq<Event>, history: seq<Message>, orphaned: bool) {
    if orphaned then !WellFormed(history) else Tracks(initial, events, history)
  }

  class AgentLoopRunner {
    const supplied: bool
    const compacting: bool
    const child: bool
    const maxParallel: nat
    var prefixCount: nat
    var requestMessages: seq<Message>
    var events: seq<Event>
    var requests: seq<Request>
    ghost const initial: seq<Message>
    ghost var turns: seq<ToolCalls>

    constructor (supplied: bool, compacting: bool, child: bool, maxParallel: nat, prefix: seq<Message>,
            messages: seq<Message>)
      requires maxParallel >= 1 && Plain(prefix) && (child ==> supplied)
      ensures Valid() && initial == messages && this.child == child && events == [] && requests == [] && turns == []
      ensures requestMessages == prefix + messages && prefixCount == |prefix|
    {
      this.supplied, this.compacting, this.child, this.maxParallel := supplied, compacting, child, maxParallel;
      prefixCount, requestMessages := |prefix|, prefix + messages;
      events, requests, initial, turns := [], [], messages, [];
    }

    ghost predicate Shape()
      reads this
    {
      maxParallel >= 1 && (child ==> supplied) && prefixCount <= |requestMessages|
    }

    ghost function History(): seq<Message>
      reads this
      requires Shape()
    {
      requestMessages[prefixCount..]
    }

    ghost predicate Valid()
      reads this
    {
      Shape() && InForm(requestMessages[..prefixCount], History(), events, requests, initial, child)
    }

    /** _refresh_prompt: a new system and context prefix in front of the same history. */
    method RefreshPrompt(prefix: seq<Message>)
      requires Valid() && Plain(prefix)
      modifies this`prefixCount, this`requestMessages
      ensures Valid() && History() == old(History())
      ensures requestMessages == prefix + History() && prefixCount == |prefix|
    {
      var retained := requestMessages[prefixCount..];
      requestMessages := prefix + retained;
      prefixCount := |prefix|;
      assert requestMessages[prefixCount..] == retained && requestMessages[..prefixCount] == prefix;
    }

    /** Any prefix the prompt supplier may come up with. */
    method SupplyPrompt() returns (prefix: seq<Message>)
      ensures Plain(prefix)
    {
      prefix := *;
      if !Plain(prefix) {
        prefix := [];
      }
    }

    /** The prompt is rebuilt when the tools or the reminders have changed. */
    method MaybeRefresh()
      requires Valid()
      modifies this`prefixCount, this`requestMessages
      ensures Valid() && History() == old(History())
    {
      hide InForm;
      var changed: bool := *;
      if supplied && changed {
        var prefix := SupplyPrompt();
        RefreshPrompt(prefix);
      }
    }

    method AppendUser(content: string)
      requires Valid() && !child
      modifies this`requestMessages
      ensures Valid() && History() == old(History()) + [User(content)]
    {
      AppendPlain(History(), User(content));
      requestMessages := requestMessages + [User(content)];
      Appended(old(requestMessages), prefixCount, User(content));
      TracksOn(initial, events, old(History()), events, History());
      hide Tracks;
    }

    lemma {:induction false} Appended(messages: seq<Message>, n: nat, m: Message)
      requires n <= |messages|
      ensures (messages + [m])[..n] == messages[..n] && (messages + [m])[n..] == messages[n..] + [m]
    {
    }

    /** Steers waiting in the run control; a child run never sees any. */
    method ClaimSteers(control: RunControl?) returns (steers: seq<string>)
      ensures child || control == null ==> steers == []
    {
      steers := [];
      if control != null && !child {
        steers := *;
      }
    }

    method AppendSteers(steers: seq<string>)
      requires Valid() && (child ==> steers == [])
      modifies this`requestMessages
      ensures Valid() && History() == old(History()) + Spoken(steers)
    {
      hide InForm;
      for k := 0 to |steers|
        invariant Valid() && History() == old(History()) + Spoken(steers[..k])
      {
        AppendUser(steers[k]);
        assert Spoken(steers[..k + 1]) == Spoken(steers[..k]) + [User(steers[k])];
      }
      assert steers[..|steers|] == steers;
    }

    /** What happens before a model request: pause, prompt refresh, workspace
        notice, budget, steers. */
    method BeforeRequest(control: RunControl?) returns (stop: bool, outcome: Outcome, ghost added: seq<string>)
      requires Valid()
      modifies this`prefixCount, this`requestMessages, control
      ensures Valid() && History() == old(History()) + Spoken(added) && (child ==> added == [])
    {
      hide InForm;
      stop, outcome, added := true, Outcome.Paused, [];
      if control != null {
        var pause := control.Poll();
        if pause {
          return;
        }
      }
      MaybeRefresh();
      if * {
        if supplied {
          MaybeRefresh();
        } else {
          var notice: string := *;
          AppendUser(notice);
          added := [notice];
        }
      }
      if * {
        return true, Failed, added;
      }
      var steers := ClaimSteers(control);
      AppendSteers(steers);
      SpokenJoins(added, steers);
      added := added + steers;
      stop := false;
    }

    /** Sends the request and records what was sent. */
    method SendRequest() returns (turn: Turn)
      requires Valid()
      modifies this`requests
      ensures Valid()
      ensures requests == old(requests) + [Request(requestMessages, prefixCount, events)]
    {
      RequestIsWell(requestMessages, prefixCount, events, requests, initial, child);
      requests := requests + [Request(requestMessages, prefixCount, events)];
      turn := *;
    }

    lemma {:induction false} RequestIsWell(messages: seq<Message>, n: nat, events: seq<Event>, requests: seq<Request>,
                                           initial: seq<Message>, child: bool)
      requires n <= |messages| && InForm(messages[..n], messages[n..], events, requests, initial, child)
      ensures InForm(messages[..n], messages[n..], events, requests + [Request(messages, n, events)], initial, child)
    {
      PlainPrefix(messages[..n], messages[n..]);
      assert messages[..n] + messages[n..] == messages;
      TracksOn(initial, events, messages[n..], events, messages);
    }

    /** A reply without tool calls ends the run, unless steers are waiting. */
    method FinishTurn(content: string, control: RunControl?) returns (stop: bool, outcome: Outcome)
      requires Valid()
      modifies this`requestMessages, this`events
      ensures events == old(events) + [ProtocolMessage(Assistant(content, []))]
      ensures OnlyBlanks(content) ==> stop
      ensures stop ==> outcome == (if OnlyBlanks(content) then Raised else Finished) && requestMessages == old(requestMessages)
      ensures stop ==> Shape() && Tracks(initial, events, History() + [Assistant(content, [])])
                       && (child ==> Mirrors(initial, events, History() + [Assistant(content, [])]))
      ensures stop ==> forall r :: r in requests ==> SentWell(r, initial, child)
      ensures !stop ==> Valid()
    {
      hide Mirrors, SentWell, WellFormed, Plain, Tracks, NoCompaction, OnlyBlanks, Strip;
      var message := Assistant(content, []);
      StripBlank(content);
      if child {
        MirrorMessage(initial, events, History(), message);
      }
      MessageIsNoCompaction(events, message);
      AppendPlain(History(), message);
      TracksOn(initial, events, History(), events + [ProtocolMessage(message)], History() + [message]);
      events := events + [ProtocolMessage(message)];
      if Blank(content) {
        return true, Raised;
      }
      var steers := ClaimSteers(control);
      if steers == [] {
        return true, Finished;
      }
      Appended(requestMessages, prefixCount, message);
      requestMessages := requestMessages + [message];
      AppendSteers(steers);
      return false, Finished;
    }

    /** Runs the calls of one reply and appends their results; failed when the
        scheduler raised, which leaves a call without its result. That happens if
        and only if a call that was started raises or has no result. */
    method RunTools(content: string, calls: seq<Call>, world: World, control: RunControl?)
      returns (paused: bool, failed: bool, ghost items: seq<Item>, ghost started: nat)
      requires Valid()
      modifies this`requestMessages, this`events, this`turns, control
      ensures turns == old(turns) + [ToolCalls(calls, world, started)] && started <= |calls|
      ensures Shape() && OneTurnMore(old(History()), History(), content, calls, items)
      ensures History() == old(History()) + [Assistant(content, Ids(calls))] + ToolMessages(items)
      ensures forall i :: 0 <= i < |items| && items[i].Completed? ==> Delivered(calls, world, 0, items, i)
      ensures if failed then |items| < |calls| else |items| == |calls| && forall i :: 0 <= i < |items| ==> (items[i].Completed? <==> i < started)
      ensures forall i :: 0 <= i < |items| ==> items[i].call == calls[i]
      ensures NoCompaction(events) <==> NoCompaction(old(events))
      ensures failed <==> !Answered(calls, world, started)
      ensures control == null ==> !paused && (failed <==> !AllAnswered(calls, world))
      ensures !failed && !paused ==> started == |calls|
      ensures !failed ==> Valid()
      ensures failed ==> !WellFormed(History()) && (child ==> Mirrors(initial, events, History()))
                         && forall r :: r in requests ==> SentWell(r, initial, child)
    {
      hide Mirrors, SentWell, WellFormed, Plain, Broken, SerialItems, AbortAll, SerialInline, AllPresent, Disciplined, Active, Begun;
      hide Delivered, OneTurnMore;
      hide Tracks, NoCompaction;
      ghost var before := events;
      var assistant := Assistant(content, Ids(calls));
      if child {
        MirrorMessage(initial, events, History(), assistant);
      }
      MessageIsNoCompaction(events, assistant);
      events := events + [ProtocolMessage(assistant)];
      Appended(requestMessages, prefixCount, assistant);
      requestMessages := requestMessages + [assistant];
      var scheduler := new ToolCallScheduler(maxParallel);
      ghost var trace;
      var scheduled;
      scheduled, failed, started, trace := scheduler.Stream(calls, world, control);
      items := scheduled;
      turns := turns + [ToolCalls(calls, world, started)];
      paused := scheduler.paused;
      AppendResults(scheduled);
      if failed {
        BrokenIsIncomplete(calls, world, 0, items, scheduler.inlineChars, started);
        TurnAppended(old(History()), content, calls, items);
        OrphanedTurn(old(History()), content, Ids(calls), ToolMessages(items));
      } else {
        OneItemPerCall(calls, world, 0, started);
        TurnAppended(old(History()), content, calls, items);
        ItemsAnswer(calls, items);
        AppendTurn(old(History()), content, Ids(calls), ToolMessages(items));
        TracksOn(initial, before, old(History()), events, History());
      }
    }

    method AppendResults(items: seq<Item>)
      requires Shape() && (child ==> Mirrors(initial, events, History()))
      modifies this`requestMessages, this`events
      ensures Shape() && requestMessages[..prefixCount] == old(requestMessages[..prefixCount])
      ensures History() == old(History()) + ToolMessages(items)
      ensures child ==> Mirrors(initial, events, History())
      ensures NoCompaction(events) <==> NoCompaction(old(events))
    {
      hide Mirrors, NoCompaction;
      for k := 0 to |items|
        invariant Shape() && requestMessages[..prefixCount] == old(requestMessages[..prefixCount])
        invariant History() == old(History()) + ToolMessages(items)[..k]
        invariant child ==> Mirrors(initial, events, History())
        invariant NoCompaction(events) <==> NoCompaction(old(events))
      {
        var message := ToolMessage(items[k]);
        MessageIsNoCompaction(events, message);
        if child {
          MirrorMessage(initial, events, History(), message);
        }
        Appended(requestMessages, prefixCount, message);
        requestMessages := requestMessages + [message];
        events := events + [ProtocolMessage(message)];
        assert ToolMessages(items)[..k + 1] == ToolMessages(items)[..k] + [message];
      }
      assert ToolMessages(items)[..|items|] == ToolMessages(items);
    }

    /** Summarises the older groups of the history when the context is too large. */
    method CompactMidTurn(estimate: seq<Message> -> nat) returns (stop: bool)
      requires Valid()
      modifies this`prefixCount, this`requestMessages, this`events
      ensures Valid()
      ensures || (History() == old(History()) && events == old(events))
              || (compacting && supplied && !stop && CompactsTo(old(History()), History(), old(events), events))
    {
      hide Mirrors, CompactsTo, SentWell, WellFormed, Plain, IsCut, GroupsOf, Flatten, Tracks;
      var tooLarge: bool := *;
      if !(tooLarge && compacting && supplied) {
        return false;
      }
      ghost var cut;
      var history := requestMessages[prefixCount..];
      var compactable, retained;
      compactable, retained, cut := SplitForCompaction(history, estimate, false);
      if compactable == [] {
        return false;
      }
      if * {
        return true;
      }
      if * {
        return false;
      }
      CutKeepsGroups(history, cut, estimate, false);
      var summary: string := *;
      if child {
        MirrorCompaction(initial, events, compactable, retained, summary);
      }
      TracksCompaction(initial, events, history, Compacted(summary, |compactable|, |retained|), retained);
      var prefix := SupplyPrompt();
      requestMessages := prefix + retained;
      prefixCount := |prefix|;
      assert requestMessages[..prefixCount] == prefix && requestMessages[prefixCount..] == retained;
      events := events + [Compacted(summary, |compactable|, |retained|)];
      SuffixKept(history, compactable, retained, old(events), summary);
      return false;
    }

    /** One iteration: request, reply, tools, refresh, compaction. */
    method Iterate(control: RunControl?, estimate: seq<Message> -> nat, world: World)
      returns (stop: bool, outcome: Outcome, orphaned: bool)
      requires Valid()
      modifies this`prefixCount, this`requestMessages, this`events, this`requests, this`turns, control
      ensures turns == old(turns) || exists calls, started: nat :: turns == old(turns) + [ToolCalls(calls, world, started)]
      ensures TurnFailed(old(turns), turns, control == null, orphaned)
      ensures !stop ==> Valid() && !orphaned
      ensures stop ==> Ended(orphaned)
      ensures orphaned ==> outcome == Raised
    {
      hide Mirrors, SentWell, WellFormed, Plain, Tracks, Answered, AllAnswered;
      orphaned := false;
      ghost var added;
      stop, outcome, added := BeforeRequest(control);
      if stop {
        EndedWell();
        return;
      }
      var turn := SendRequest();
      match turn {
        case PausedReply =>
          EndedWell();
          stop, outcome := true, Outcome.Paused;
        case FailedReply =>
          EndedWell();
          stop, outcome := true, Raised;
        case Reply(content, calls) =>
          var failed: bool := *;
          if failed {
            EndedWell();
            return true, Failed, false;
          }
          if calls == [] {
            stop, outcome := FinishTurn(content, control);
            if stop {
              EndedAfterReply(content);
            }
          } else {
            ghost var started;
            stop, outcome, orphaned, started := ToolTurn(content, calls, world, control, estimate);
          }
      }
    }

    /** Every request is as well formed as the history the run began with, and so
        is the transcript of a child session that followed the events, except
        that an orphaned run always leaves a broken one. */
    ghost predicate Ended(orphaned: bool)
      reads this
    {
      && (forall r :: r in requests ==> SentWell(r, initial, child))
      && (child && Summarised(events) ==>
            Follow(initial, events).Some? && Closes(initial, events, Follow(initial, events).value, orphaned))
    }

    lemma {:induction false} EndedWell()
      requires Valid()
      ensures Ended(false)
    {
      hide WellFormed, SentWell, Plain, Follow, Tracks;
    }

    lemma {:induction false} EndedAfterReply(content: string)
      requires Shape() && Tracks(initial, events, History() + [Assistant(content, [])])
      requires child ==> Mirrors(initial, events, History() + [Assistant(content, [])])
      requires forall r :: r in requests ==> SentWell(r, initial, child)
      ensures Ended(false)
    {
      hide WellFormed, SentWell, Plain, Follow, Tracks;
    }

    lemma {:induction false} EndedOrphaned()
      requires Shape() && !WellFormed(History()) && (child ==> Mirrors(initial, events, History()))
      requires forall r :: r in requests ==> SentWell(r, initial, child)
      ensures Ended(true)
    {
      hide WellFormed, SentWell, Plain, Follow, Tracks;
    }

    method ToolTurn(content: string, calls: seq<Call>, world: World, control: RunControl?,
            estimate: seq<Message> -> nat)
      returns (stop: bool, outcome: Outcome, orphaned: bool, ghost started: nat)
      requires Valid()
      modifies this`prefixCount, this`requestMessages, this`events, this`turns, control
      ensures turns == old(turns) + [ToolCalls(calls, world, started)] && started <= |calls|
      ensures orphaned <==> !Answered(calls, world, started)
      ensures control == null ==> (orphaned <==> !AllAnswered(calls, world))
      ensures !stop ==> Valid() && !orphaned
      ensures stop ==> Ended(orphaned)
      ensures orphaned ==> outcome == Raised
    {
      hide Mirrors, SentWell, WellFormed, Plain, Tracks, Answered, AllAnswered;
      var paused, failed;
      ghost var items;
      paused, failed, items, started := RunTools(content, calls, world, control);
      if failed {
        EndedOrphaned();
        return true, Raised, true, started;
      }
      if paused {
        EndedWell();
        return true, Outcome.Paused, false, started;
      }
      MaybeRefresh();
      var stuck: bool := *;
      if stuck {
        EndedWell();
        return true, Raised, false, started;
      }
      var exhausted := CompactMidTurn(estimate);
      if exhausted {
        EndedWell();
        return true, Failed, false, started;
      }
      return false, Raised, false, started;
    }

    /** A whole run of the loop: it leaves a call without its result if and only if
        a call it started raises or has none; without a run control all calls of a
        reply are started, or one before them has failed. */
    method Stream(control: RunControl?, estimate: seq<Message> -> nat, worlds: nat -> World, maxIterations: nat)
      returns (outcome: Outcome, orphaned: bool)
      requires Valid()
      modifies this`prefixCount, this`requestMessages, this`events, this`requests, this`turns, control
      ensures Ended(orphaned)
      ensures orphaned ==> outcome == Raised
      ensures orphaned <==> SomeStartUnanswered(turns)
      ensures control == null ==> (orphaned <==> SomeTurnUnanswered(turns))
      ensures forall t :: t in turns ==> t.started <= |t.calls|
      ensures forall t :: t in turns ==> exists k: nat :: k < maxIterations && t.world == worlds(k)
      ensures (forall k: nat :: k < maxIterations ==> Reliable(worlds(k))) ==> !orphaned
    {
      hide InForm, Ended, Answered, AllAnswered, Reliable;
      orphaned, turns := false, [];
      for iteration := 0 to maxIterations
        invariant Valid() && !orphaned
        invariant !SomeStartUnanswered(turns) && (control == null ==> !SomeTurnUnanswered(turns))
        invariant forall t :: t in turns ==> t.started <= |t.calls|
        invariant forall t :: t in turns ==> exists k: nat :: k < maxIterations && t.world == worlds(k)
      {
        var stop;
        stop, outcome, orphaned := Iterate(control, estimate, worlds(iteration));
        if orphaned && Reliable(worlds(iteration)) {
          var turn := turns[|turns| - 1];
          ReliableAnswers(turn.calls, turn.world, turn.started);
        }
        if stop {
          return;
        }
      }
      EndedWell();
      return Raised, false;
    }
  }

  /*---------------------------- a run that is orphaned -------------------------*/

  /** A tool that starts and then raises. */
  function RaisingWorld(): World {
    World(i => Execution([Started("")], true), (i, inline) => Execution([], true), (call, r, inline) => Some(""))
  }

  lemma {:induction false} RaisingIsUnanswered(call: Call)
    ensures !AllAnswered([call], RaisingWorld())
  {
    assert SerialInline([call], RaisingWorld(), 0, 0) == 0;
    assert Missing([call], RaisingWorld(), 0, SerialInline([call], RaisingWorld(), 0, 0));
  }

  lemma {:induction false} FreshEvents(events: seq<Event>)
    ensures NoCompaction([])
    ensures NoCompaction(events) ==> Summarised(events)
  {
  }

  /** A child whose first tool call raises is left with a broken transcript. Its
      next activation reads one more message and sends the broken history to the
      model. */
  method ResumeOrphan(call: Call) returns (transcript: seq<Message>, request: Request)
    ensures transcript == [User("go"), Assistant("", [call.id])] && !WellFormed(transcript)
    ensures request.messages == transcript + [User("again")] && !WellFormed(request.messages)
  {
    hide Answered, AllAnswered, WellFormed, Tracks, NoCompaction, Summarised, Follow;
    var first := new AgentLoopRunner(true, false, true, 1, [], [User("go")]);
    RaisingIsUnanswered(call);
    var paused, failed, items, started := first.RunTools("", [call], RaisingWorld(), null);
    var session := new ChildSession([User("go")]);
    var ok := session.FollowEvents(first.events);
    FreshEvents(first.events);
    assert items == [] && ToolMessages(items) == [] && Ids([call]) == [call.id];
    transcript := session.transcript;
    InboxRepairsNothing(transcript, [User("again")]);
    var next := new AgentLoopRunner(true, false, true, 1, [], transcript + [User("again")]);
    var turn := next.SendRequest();
    request := next.requests[0];
  }
}
