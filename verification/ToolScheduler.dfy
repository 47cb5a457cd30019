/** The tool-call scheduler of one model turn (agent/app/execution/tool_call_scheduler.py):
    safe calls run in a sliding window and finish in any order, results are
    committed in model order, unsafe calls run alone, and a pause aborts the rest. */
module ToolScheduler {
  import opened Ordering

  /** safe is the executor's answer to is_concurrency_safe. */
  datatype Call = Call(id: string, name: string, safe: bool)

  /** An executor event with its result text; final stands for tool_completed and
      tool_failed, measured for an event that carries durationMs. */
  datatype Report =
    | Progress(text: string)
    | Started(text: string)
    | Final(ok: bool, measured: bool, output: string, text: string)

  datatype Settled = Settled(finals: seq<Report>, text: string, hasResult: bool)

  datatype Item = Completed(call: Call, text: string) | Aborted(call: Call)

  /** What one execution yields; raises says that it ends in an exception the
      executor does not turn into a result, such as a RuntimeError of the tool. */
  datatype Execution = Execution(reports: seq<Report>, raises: bool)

  /** What the executor and the result processor answer.  A deferred execution
      does not see the inline total, an exclusive one does.  Finishing a deferred
      result can raise as well, when the artifact cannot be stored. */
  datatype World = World(
    deferred: nat -> Execution,
    exclusive: (nat, nat) -> Execution,
    finish: (Call, Report, nat) -> Option<string>)

  const NO_RESULT := "工具调用未返回结果"

  /*----------------------------- one call's own result -------------------------*/

  function LastText(reports: seq<Report>): string {
    if reports == [] then NO_RESULT else reports[|reports| - 1].text
  }

  predicate AnyText(reports: seq<Report>) {
    exists r :: r in reports && r.text != ""
  }

  function Finals(reports: seq<Report>): seq<Report> {
    if reports == [] then []
    else
      var r := reports[|reports| - 1];
      Finals(reports[..|reports| - 1]) + if r.Final? then [r] else []
  }

  /** Position of the first tool_started, or the length. */
  function StartAt(reports: seq<Report>): (n: nat)
    ensures n <= |reports|
    ensures n < |reports| ==> reports[n].Started?
    ensures forall i :: 0 <= i < n ==> !reports[i].Started?
  {
    if reports == [] || reports[0].Started? then 0 else 1 + StartAt(reports[1..])
  }

  function Drained(reports: seq<Report>): Settled {
    Settled(Finals(reports), LastText(reports), AnyText(reports))
  }

  predicate RunsAsTask(reports: seq<Report>) { StartAt(reports) < |reports| }

  /** What a deferred execution settles to once it is over. */
  function Settles(reports: seq<Report>): Settled {
    if RunsAsTask(reports) then Drained(reports[StartAt(reports) + 1..])
    else Settled(Finals(reports), LastText(reports), true)
  }

  function Finalized(world: World, call: Call, r: Report, inline: nat): Option<string> {
    if r.Final? && r.measured then world.finish(call, r, inline) else Some(r.text)
  }

  predicate AllFinalized(world: World, call: Call, finals: seq<Report>, inline: nat) {
    forall r :: r in finals ==> Finalized(world, call, r, inline).Some?
  }

  function CommitText(world: World, call: Call, s: Settled, inline: nat): string {
    if s.finals == [] then s.text
    else match Finalized(world, call, s.finals[|s.finals| - 1], inline)
         case Some(text) => text
         case None => NO_RESULT
  }

  /** Whether what has settled has a result that can be committed. */
  predicate Presentable(world: World, call: Call, s: Settled, inline: nat) {
    (s.hasResult || s.finals != []) && AllFinalized(world, call, s.finals, inline)
  }

  /*--------------------------- the serial reference run ------------------------*/

  /** A call that raises, or ends without any result, makes the scheduler raise. */
  predicate Missing(calls: seq<Call>, world: World, i: nat, inline: nat)
    requires i < |calls|
  {
    if !calls[i].safe then world.exclusive(i, inline).raises || !AnyText(world.exclusive(i, inline).reports)
    else
      var e := world.deferred(i);
      || e.raises || (!RunsAsTask(e.reports) && !AnyText(e.reports))
      || !Presentable(world, calls[i], Settles(e.reports), inline)
  }

  function TextOf(calls: seq<Call>, world: World, i: nat, inline: nat): string
    requires i < |calls|
  {
    if calls[i].safe then CommitText(world, calls[i], Settles(world.deferred(i).reports), inline)
    else LastText(world.exclusive(i, inline).reports)
  }

  /** Inline total after running the first n calls one after the other. */
  function SerialInline(calls: seq<Call>, world: World, start: nat, n: nat): nat
    requires n <= |calls|
  {
    if n == 0 then start
    else
      var before := SerialInline(calls, world, start, n - 1);
      before + |TextOf(calls, world, n - 1, before)|
  }

  function SerialItems(calls: seq<Call>, world: World, start: nat, n: nat): seq<Item>
    requires n <= |calls|
  {
    if n == 0 then []
    else SerialItems(calls, world, start, n - 1)
         + [Completed(calls[n - 1], TextOf(calls, world, n - 1, SerialInline(calls, world, start, n - 1)))]
  }

  predicate AllPresent(calls: seq<Call>, world: World, start: nat, n: nat)
    requires n <= |calls|
  {
    forall i :: 0 <= i < n ==> !Missing(calls, world, i, SerialInline(calls, world, start, i))
  }

  function AbortAll(calls: seq<Call>): seq<Item> {
    if calls == [] then [] else AbortAll(calls[..|calls| - 1]) + [Aborted(calls[|calls| - 1])]
  }

  /*---------------------------------- the trace --------------------------------*/

  datatype Step = Begin(i: nat) | End(i: nat)

  function Active(trace: seq<Step>): set<nat> {
    if trace == [] then {}
    else
      var before, last := Active(trace[..|trace| - 1]), trace[|trace| - 1];
      if last.Begin? then before + {last.i} else before - {last.i}
  }

  function Begun(trace: seq<Step>): nat {
    if trace == [] then 0
    else Begun(trace[..|trace| - 1]) + if trace[|trace| - 1].Begin? then 1 else 0
  }

  /** One more step of a trace that keeps to model order, the window and the barriers. */
  predicate Permitted(trace: seq<Step>, step: Step, calls: seq<Call>, max: nat) {
    match step
    case Begin(i) =>
      i == Begun(trace) && i < |calls| && |Active(trace)| < max
      && (if calls[i].safe then forall j :: j in Active(trace) ==> j < |calls| && calls[j].safe
          else Active(trace) == {})
    case End(i) => i in Active(trace)
  }

  predicate Disciplined(trace: seq<Step>, calls: seq<Call>, max: nat) {
    trace == [] || (var n := |trace| - 1;
                    Disciplined(trace[..n], calls, max) && Permitted(trace[..n], trace[n], calls, max))
  }

  lemma {:induction false} OneMore(trace: seq<Step>, step: Step, calls: seq<Call>, max: nat)
    requires Disciplined(trace, calls, max) && Permitted(trace, step, calls, max)
    ensures Disciplined(trace + [step], calls, max)
    ensures Active(trace + [step]) == if step.Begin? then Active(trace) + {step.i} else Active(trace) - {step.i}
    ensures Begun(trace + [step]) == Begun(trace) + if step.Begin? then 1 else 0
  {
    assert (trace + [step])[..|trace|] == trace;
  }

  /** At no time do more than max calls run, and an unsafe call runs alone. */
  lemma {:induction false} DisciplineMeaning(trace: seq<Step>, calls: seq<Call>, max: nat)
    requires Disciplined(trace, calls, max)
    ensures |Active(trace)| <= max && Begun(trace) <= |calls|
    ensures forall i :: i in Active(trace) ==> i < Begun(trace)
    ensures forall i, j :: i in Active(trace) && j in Active(trace) && !calls[i].safe ==> i == j
  {
    if trace != [] {
      var n := |trace| - 1;
      DisciplineMeaning(trace[..n], calls, max);
      var before := Active(trace[..n]);
      if trace[n].End? {
        assert |before - {trace[n].i}| == |before| - 1;
      }
    }
  }

  lemma {:induction false} DisciplinedPrefix(trace: seq<Step>, n: nat, calls: seq<Call>, max: nat)
    requires Disciplined(trace, calls, max) && n <= |trace|
    ensures Disciplined(trace[..n], calls, max)
  {
    if n < |trace| {
      DisciplinedPrefix(trace[..|trace| - 1], n, calls, max);
      assert trace[..|trace| - 1][..n] == trace[..n];
    } else {
      assert trace[..n] == trace;
    }
  }

  /** The same at every moment of a run. */
  lemma {:induction false} WindowAndBarriers(trace: seq<Step>, n: nat, calls: seq<Call>, max: nat)
    requires Disciplined(trace, calls, max) && n <= |trace|
    ensures |Active(trace[..n])| <= max
    ensures forall i, j :: i in Active(trace[..n]) && j in Active(trace[..n]) && i != j
                ==> i < |calls| && j < |calls| && calls[i].safe && calls[j].safe
  {
    DisciplinedPrefix(trace, n, calls, max);
    DisciplineMeaning(trace[..n], calls, max);
  }

  lemma {:induction false} SmallerSet(s: set<nat>, x: nat)
    ensures |s - {x}| <= |s| <= |s - {x}| + 1
  {
    if x !in s {
      assert s - {x} == s;
    }
  }

  lemma {:induction false} FinalEvents(reports: seq<Report>)
    ensures forall r :: r in Finals(reports) ==> r.Final?
  {
    if reports != [] {
      FinalEvents(reports[..|reports| - 1]);
    }
  }

  /** Whether a started safe call has a result can be seen from what it settled to. */
  lemma {:induction false} PresentExactly(calls: seq<Call>, world: World, i: nat, inline: nat)
    requires i < |calls| && calls[i].safe && !world.deferred(i).raises
    requires !RunsAsTask(world.deferred(i).reports) ==> AnyText(world.deferred(i).reports)
    ensures var s := Settles(world.deferred(i).reports);
            && (forall r :: r in s.finals ==> r.Final?)
            && (Missing(calls, world, i, inline) <==> !Presentable(world, calls[i], s, inline))
  {
    var reports := world.deferred(i).reports;
    FinalEvents(reports);
    FinalEvents(reports[Min(StartAt(reports) + 1, |reports|)..]);
  }

  lemma {:induction false} CommittedNext(calls: seq<Call>, world: World, start: nat, i: nat)
    requires i < |calls| && AllPresent(calls, world, start, i)
    requires !Missing(calls, world, i, SerialInline(calls, world, start, i))
    ensures var inline := SerialInline(calls, world, start, i);
            var text := TextOf(calls, world, i, inline);
            && AllPresent(calls, world, start, i + 1)
            && SerialInline(calls, world, start, i + 1) == inline + |text|
            && SerialItems(calls, world, start, i + 1) == SerialItems(calls, world, start, i) + [Completed(calls[i], text)]
  {
    hide Missing, TextOf;
  }

  lemma {:induction false} SafeText(calls: seq<Call>, world: World, i: nat, inline: nat)
    requires i < |calls| && calls[i].safe
    ensures TextOf(calls, world, i, inline) == CommitText(world, calls[i], Settles(world.deferred(i).reports), inline)
  {
  }

  /*----------------------- which text is committed, and when -------------------*/

  /** The reports that count begin at place k: behind the first tool_started, or at the
      beginning if there is none. */
  ghost predicate CountFrom(reports: seq<Report>, k: nat) {
    || (k == 0 && forall j :: 0 <= j < |reports| ==> !reports[j].Started?)
    || (0 < k <= |reports| && reports[k - 1].Started? && forall j :: 0 <= j < k - 1 ==> !reports[j].Started?)
  }

  ghost predicate NoFinalFrom(reports: seq<Report>, k: nat) {
    forall p :: k <= p < |reports| ==> !reports[p].Final?
  }

  /** A deferred call commits what the result processor makes of its last final event,
      given the inline total so far, if that event is measured, and otherwise the text of
      that event. Without a final event it commits the last text that was reported. */
  ghost predicate DeferredText(world: World, call: Call, reports: seq<Report>, k: nat, inline: nat, text: string) {
    && (forall p :: k <= p < |reports| && reports[p].Final? && NoFinalFrom(reports, p + 1) ==>
          if reports[p].measured then world.finish(call, reports[p], inline) == Some(text) else text == reports[p].text)
    && (NoFinalFrom(reports, k) ==> text == if k < |reports| then reports[|reports| - 1].text else "工具调用未返回结果")
  }

  /** A deferred call is lost if it raises, if nothing it said before it ended was a text,
      or if the result processor raises on one of its measured final events. */
  ghost predicate DeferredLost(world: World, call: Call, e: Execution, k: nat, inline: nat) {
    || e.raises
    || (NoFinalFrom(e.reports, k) && k > 0 && forall p :: k <= p < |e.reports| ==> e.reports[p].text == "")
    || (k == 0 && forall p :: 0 <= p < |e.reports| ==> e.reports[p].text == "")
    || exists p :: k <= p < |e.reports| && e.reports[p].Final? && e.reports[p].measured
                   && world.finish(call, e.reports[p], inline).None?
  }

  function TotalLength(items: seq<Item>): nat {
    if items == [] then 0
    else TotalLength(items[..|items| - 1])
         + match items[|items| - 1] { case Completed(_, text) => |text| case Aborted(_) => 0 }
  }

  /** Item i is a result of call i, and its text is the right one. */
  ghost predicate Delivered(calls: seq<Call>, world: World, start: nat, items: seq<Item>, i: nat)
    requires i < |calls| && i < |items|
  {
    var inline := start + TotalLength(items[..i]);
    && items[i].Completed? && items[i].call == calls[i]
    && if calls[i].safe then
         forall k :: CountFrom(world.deferred(i).reports, k) ==>
           && DeferredText(world, calls[i], world.deferred(i).reports, k, inline, items[i].text)
           && !DeferredLost(world, calls[i], world.deferred(i), k, inline)
       else
         var e := world.exclusive(i, inline);
         && !e.raises && (exists r :: r in e.reports && r.text != "")
         && items[i].text == e.reports[|e.reports| - 1].text
  }

  lemma {:induction false} CountsFrom(reports: seq<Report>, k: nat)
    requires CountFrom(reports, k)
    ensures k == if RunsAsTask(reports) then StartAt(reports) + 1 else 0
  {
    var first := StartAt(reports);
    assert first < |reports| ==> reports[first].Started?;
  }

  lemma {:induction false} FinalMembers(reports: seq<Report>)
    ensures forall r :: r in Finals(reports) <==> r in reports && r.Final?
  {
    if reports != [] {
      FinalMembers(reports[..|reports| - 1]);
      assert reports == reports[..|reports| - 1] + [reports[|reports| - 1]];
    }
  }

  lemma {:induction false} LastOfFinals(reports: seq<Report>, p: nat)
    requires p < |reports| && reports[p].Final? && NoFinalFrom(reports, p + 1)
    ensures Finals(reports) != [] && Finals(reports)[|Finals(reports)| - 1] == reports[p]
  {
    var front, last := reports[..|reports| - 1], reports[|reports| - 1];
    if p < |front| {
      assert NoFinalFrom(front, p + 1);
      LastOfFinals(front, p);
    }
  }

  lemma {:induction false} NoFinals(reports: seq<Report>, k: nat)
    requires k <= |reports|
    ensures Finals(reports[k..]) == [] <==> NoFinalFrom(reports, k)
  {
    FinalsFrom(reports, k);
    hide Finals;
    if Finals(reports[k..]) != [] {
      assert Finals(reports[k..])[0] in Finals(reports[k..]);
    }
  }

  /** The last final event from place k on. */
  lemma {:induction false} LastFrom(reports: seq<Report>, k: nat, p: nat)
    requires k <= p < |reports| && reports[p].Final? && NoFinalFrom(reports, p + 1)
    ensures var finals := Finals(reports[k..]); finals != [] && finals[|finals| - 1] == reports[p]
  {
    var rest := reports[k..];
    assert rest[p - k] == reports[p];
    assert NoFinalFrom(rest, p - k + 1);
    LastOfFinals(rest, p - k);
  }

  lemma {:induction false} FinalsFrom(reports: seq<Report>, k: nat)
    requires k <= |reports|
    ensures forall r :: r in Finals(reports[k..]) <==> exists p :: k <= p < |reports| && reports[p] == r && r.Final?
  {
    FinalMembers(reports[k..]);
    hide Finals, NoFinalFrom;
    forall r
      ensures r in reports[k..] <==> exists p :: k <= p < |reports| && reports[p] == r
    {
      FoundFrom(reports, k, r);
    }
  }

  lemma {:induction false} FoundFrom(reports: seq<Report>, k: nat, r: Report)
    requires k <= |reports|
    ensures r in reports[k..] <==> exists p :: k <= p < |reports| && reports[p] == r
  {
    if r in reports[k..] {
      var q :| 0 <= q < |reports[k..]| && reports[k..][q] == r;
      assert reports[k + q] == r;
    }
    if p :| k <= p < |reports| && reports[p] == r {
      assert reports[k..][p - k] == r;
    }
  }

  /** What a deferred call settles to, from place k on. */
  lemma {:induction false} SettlesFrom(reports: seq<Report>, k: nat)
    requires CountFrom(reports, k)
    ensures k <= |reports| && (k > 0 <==> RunsAsTask(reports))
    ensures Settles(reports) == Settled(Finals(reports[k..]), LastText(reports[k..]), k == 0 || AnyText(reports[k..]))
  {
    CountsFrom(reports, k);
    assert reports[0..] == reports;
    hide Finals, LastText, AnyText, StartAt;
  }

  lemma {:induction false} DeferredExact(world: World, call: Call, e: Execution, k: nat, inline: nat)
    requires CountFrom(e.reports, k)
    ensures var s := Settles(e.reports);
            var lost := e.raises || (!RunsAsTask(e.reports) && !AnyText(e.reports)) || !Presentable(world, call, s, inline);
            && (lost <==> DeferredLost(world, call, e, k, inline))
            && (!lost ==> DeferredText(world, call, e.reports, k, inline, CommitText(world, call, s, inline)))
  {
    LostExactly(world, call, e, k, inline);
    if !DeferredLost(world, call, e, k, inline) {
      TextExactly(world, call, e.reports, k, inline);
    }
    hide *;
  }

  lemma {:induction false} LostExactly(world: World, call: Call, e: Execution, k: nat, inline: nat)
    requires CountFrom(e.reports, k)
    ensures e.raises || (!RunsAsTask(e.reports) && !AnyText(e.reports)) || !Presentable(world, call, Settles(e.reports), inline)
       <==> DeferredLost(world, call, e, k, inline)
  {
    SettlesFrom(e.reports, k);
    TextsFrom(e.reports, k);
    NoFinals(e.reports, k);
    assert e.reports[0..] == e.reports;
    LostWhenUnfinished(world, call, e.reports, k, inline);
    hide Finals, AnyText, RunsAsTask, CountFrom, Settles, AllFinalized, NoFinalFrom;
  }

  lemma {:induction false} TextsFrom(reports: seq<Report>, k: nat)
    requires k <= |reports|
    ensures AnyText(reports[k..]) <==> !(forall p :: k <= p < |reports| ==> reports[p].text == "")
  {
    forall r
      ensures r in reports[k..] <==> exists p :: k <= p < |reports| && reports[p] == r
    {
      FoundFrom(reports, k, r);
    }
  }

  lemma {:induction false} TextExactly(world: World, call: Call, reports: seq<Report>, k: nat, inline: nat)
    requires CountFrom(reports, k) && Presentable(world, call, Settles(reports), inline)
    ensures DeferredText(world, call, reports, k, inline, CommitText(world, call, Settles(reports), inline))
  {
    var s := Settles(reports);
    SettlesFrom(reports, k);
    NoFinals(reports, k);
    hide Finals, AnyText, RunsAsTask, CountFrom, Settles, Presentable, NoFinalFrom, DeferredText;
    if s.finals == [] {
      TextWithoutFinal(world, call, reports, k, inline);
    } else {
      LastPresented(world, call, s, inline);
      TextOfFinal(world, call, reports, k, inline, CommitText(world, call, s, inline));
    }
  }

  lemma {:induction false} TextWithoutFinal(world: World, call: Call, reports: seq<Report>, k: nat, inline: nat)
    requires k <= |reports| && NoFinalFrom(reports, k)
    ensures DeferredText(world, call, reports, k, inline, LastText(reports[k..]))
  {
  }

  lemma {:induction false} TextOfFinal(world: World, call: Call, reports: seq<Report>, k: nat, inline: nat, text: string)
    requires k <= |reports| && Finals(reports[k..]) != []
    requires Finalized(world, call, Finals(reports[k..])[|Finals(reports[k..])| - 1], inline) == Some(text)
    ensures DeferredText(world, call, reports, k, inline, text)
  {
    NoFinals(reports, k);
    hide Finals, AnyText, NoFinalFrom;
    forall p | k <= p < |reports| && reports[p].Final? && NoFinalFrom(reports, p + 1)
      ensures Finals(reports[k..])[|Finals(reports[k..])| - 1] == reports[p]
    {
      LastFrom(reports, k, p);
    }
  }

  lemma {:induction false} LostWhenUnfinished(world: World, call: Call, reports: seq<Report>, k: nat, inline: nat)
    requires k <= |reports|
    ensures !AllFinalized(world, call, Finals(reports[k..]), inline)
       <==> exists p :: k <= p < |reports| && reports[p].Final? && reports[p].measured
                        && world.finish(call, reports[p], inline).None?
  {
    FinalsFrom(reports, k);
    hide Finals;
  }

  lemma {:induction false} LastPresented(world: World, call: Call, s: Settled, inline: nat)
    requires Presentable(world, call, s, inline) && s.finals != []
    ensures Finalized(world, call, s.finals[|s.finals| - 1], inline) == Some(CommitText(world, call, s, inline))
  {
    assert s.finals[|s.finals| - 1] in s.finals;
  }

  /** Every committed item has the text that was promised. */
  lemma {:induction false} ItemsDelivered(calls: seq<Call>, world: World, start: nat, n: nat, items: seq<Item>)
    requires n <= |calls| && n <= |items| && items[..n] == SerialItems(calls, world, start, n)
    requires AllPresent(calls, world, start, n)
    ensures forall i :: 0 <= i < n ==> Delivered(calls, world, start, items, i)
  {
    hide *;
    if n > 0 {
      var i := n - 1;
      OneItemMore(calls, world, start, i, items);
      ItemsDelivered(calls, world, start, i, items);
      InlineIsCommitted(calls, world, start, i);
      ItemDelivered(calls, world, start, items, i);
    }
  }

  lemma {:induction false} AllDelivered(calls: seq<Call>, world: World, start: nat, n: nat, items: seq<Item>)
    requires n <= |calls| && items == SerialItems(calls, world, start, n) && AllPresent(calls, world, start, n)
    ensures n <= |items| && forall i :: 0 <= i < n ==> Delivered(calls, world, start, items, i)
  {
    SerialShape(calls, world, start, n);
    hide *;
    assert items[..n] == items;
    ItemsDelivered(calls, world, start, n, items);
  }

  /** Every started call has its result and every other one is aborted, in model order. */
  ghost predicate Fulfilled(calls: seq<Call>, world: World, start: nat, items: seq<Item>, started: nat) {
    && |items| == |calls| && started <= |calls|
    && (forall i :: 0 <= i < started ==> Delivered(calls, world, start, items, i))
    && (forall i :: started <= i < |calls| ==> items[i] == Aborted(calls[i]))
  }

  lemma {:induction false} StreamFulfils(calls: seq<Call>, world: World, start: nat, items: seq<Item>, started: nat)
    requires started <= |calls| && AllPresent(calls, world, start, started)
    requires items == SerialItems(calls, world, start, started) + AbortAll(calls[started..])
    ensures Fulfilled(calls, world, start, items, started)
  {
    SerialShape(calls, world, start, started);
    AbortShape(calls[started..]);
    hide SerialItems, AbortAll, AllPresent, Delivered;
    assert items[..started] == SerialItems(calls, world, start, started);
    ItemsDelivered(calls, world, start, started, items);
  }

  /** A call makes the scheduler raise exactly if it is lost. */
  lemma {:induction false} MissingExact(calls: seq<Call>, world: World, i: nat, inline: nat)
    requires i < |calls|
    ensures calls[i].safe ==>
              forall k :: CountFrom(world.deferred(i).reports, k) ==>
                (Missing(calls, world, i, inline) <==> DeferredLost(world, calls[i], world.deferred(i), k, inline))
    ensures !calls[i].safe ==>
              var e := world.exclusive(i, inline);
              (Missing(calls, world, i, inline) <==> e.raises || forall r :: r in e.reports ==> r.text == "")
  {
    if calls[i].safe {
      forall k | CountFrom(world.deferred(i).reports, k)
        ensures Missing(calls, world, i, inline) <==> DeferredLost(world, calls[i], world.deferred(i), k, inline)
      {
        DeferredExact(world, calls[i], world.deferred(i), k, inline);
      }
    }
    hide CountFrom, DeferredLost, Presentable, Settles;
  }

  lemma {:induction false} OneItemMore(calls: seq<Call>, world: World, start: nat, i: nat, items: seq<Item>)
    requires i < |calls| && i < |items| && items[..i + 1] == SerialItems(calls, world, start, i + 1)
    requires AllPresent(calls, world, start, i + 1)
    ensures items[..i] == SerialItems(calls, world, start, i) && AllPresent(calls, world, start, i)
    ensures var inline := SerialInline(calls, world, start, i);
            !Missing(calls, world, i, inline) && items[i] == Completed(calls[i], TextOf(calls, world, i, inline))
  {
    hide Missing, TextOf, SerialInline;
    var all := SerialItems(calls, world, start, i + 1);
    SerialShape(calls, world, start, i);
    assert items[..i + 1][i] == items[i];
    assert items[..i] == items[..i + 1][..i] == all[..i];
  }

  lemma {:induction false} ItemDelivered(calls: seq<Call>, world: World, start: nat, items: seq<Item>, i: nat)
    requires i < |calls| && i < |items|
    requires var inline := start + TotalLength(items[..i]);
             !Missing(calls, world, i, inline) && items[i] == Completed(calls[i], TextOf(calls, world, i, inline))
    ensures Delivered(calls, world, start, items, i)
  {
    var inline := start + TotalLength(items[..i]);
    if calls[i].safe {
      forall k | CountFrom(world.deferred(i).reports, k)
        ensures DeferredText(world, calls[i], world.deferred(i).reports, k, inline, items[i].text)
        ensures !DeferredLost(world, calls[i], world.deferred(i), k, inline)
      {
        DeferredExact(world, calls[i], world.deferred(i), k, inline);
      }
    }
    hide CountFrom, DeferredText, DeferredLost, CommitText, Presentable, Settles;
  }

  /*-------------------------------- the scheduler ------------------------------*/

  lemma {:induction false} AnyTextNext(reports: seq<Report>, k: nat)
    requires k < |reports|
    ensures AnyText(reports[..k + 1]) <==> AnyText(reports[..k]) || reports[k].text != ""
    ensures Finals(reports[..k + 1]) == Finals(reports[..k]) + if reports[k].Final? then [reports[k]] else []
    ensures LastText(reports[..k + 1]) == reports[k].text
  {
    var next := reports[..k + 1];
    assert next[..k] == reports[..k] && next[k] == reports[k];
    assert next == reports[..k] + [reports[k]];
  }

  /** Collects what a running task still reports. */
  method Drain(reports: seq<Report>) returns (entry: Settled)
    ensures entry == Drained(reports)
  {
    var pairs, text, hasResult := [], NO_RESULT, false;
    for k := 0 to |reports|
      invariant pairs == Finals(reports[..k]) && text == LastText(reports[..k]) && hasResult == AnyText(reports[..k])
    {
      AnyTextNext(reports, k);
      if reports[k].Final? {
        pairs := pairs + [reports[k]];
      }
      text := reports[k].text;
      hasResult := hasResult || reports[k].text != "";
    }
    assert reports[..|reports|] == reports;
    return Settled(pairs, text, hasResult);
  }

  /** Runs a deferred execution up to its tool_started, or to its end; present is
      false when it raised or ended without a result. */
  method Prepare(execution: Execution) returns (started: bool, entry: Settled, present: bool)
    ensures started == RunsAsTask(execution.reports)
    ensures !started ==> entry == Settles(execution.reports)
    ensures !started ==> present == (AnyText(execution.reports) && !execution.raises)
  {
    var reports := execution.reports;
    var terminal, text := [], NO_RESULT;
    present := false;
    for k := 0 to |reports|
      invariant k <= StartAt(reports)
      invariant terminal == Finals(reports[..k]) && text == LastText(reports[..k]) && present == AnyText(reports[..k])
    {
      AnyTextNext(reports, k);
      text := reports[k].text;
      present := present || reports[k].text != "";
      if reports[k].Started? {
        return true, Settled(terminal, text, true), present;
      }
      if reports[k].Final? {
        terminal := terminal + [reports[k]];
      }
    }
    assert reports[..|reports|] == reports;
    return false, Settled(terminal, text, true), present && !execution.raises;
  }

  /** What a run that raised leaves behind: a committed serial prefix, and a
      call behind it that was begun and ended without a result. */
  ghost predicate Broken(calls: seq<Call>, world: World, start: nat, items: seq<Item>, inline: nat, begun: nat) {
    exists k, j :: 0 <= k <= j < begun && j < |calls| && BrokenAt(calls, world, start, items, inline, k, j)
  }

  ghost predicate BrokenAt(calls: seq<Call>, world: World, start: nat, items: seq<Item>, inline: nat, k: nat, j: nat)
    requires k <= j < |calls|
  {
    && items == SerialItems(calls, world, start, k) && inline == SerialInline(calls, world, start, k)
    && AllPresent(calls, world, start, k) && Missing(calls, world, j, SerialInline(calls, world, start, j))
  }

  class RunControl {
    var pauseRequested: bool

    /** Anyone may have asked for a pause by now; a request is never withdrawn. */
    method Poll() returns (pause: bool)
      modifies this
      ensures pause == pauseRequested && (old(pauseRequested) ==> pauseRequested)
    {
      if * {
        pauseRequested := true;
      }
      pause := pauseRequested;
    }
  }

  /** The fields of a group of concurrent calls, as a value. */
  datatype Window = Window(first: nat, settled: map<nat, Settled>, running: set<nat>,
                           nextToStart: nat, nextToCommit: nat, trace: seq<Step>)

  /** Every started call is committed, settled or still running. */
  predicate Placed(w: Window, calls: seq<Call>, world: World, i: nat) {
    && (i in w.settled ==> w.nextToCommit <= i < w.nextToStart && !world.deferred(i).raises
                           && w.settled[i] == Settles(world.deferred(i).reports))
    && (i in w.running ==> w.nextToCommit <= i < w.nextToStart && i !in w.settled
                           && RunsAsTask(world.deferred(i).reports))
    && (w.nextToCommit <= i < w.nextToStart ==> i in w.settled || i in w.running)
    && (w.first <= i < w.nextToStart ==> i < |calls| && calls[i].safe
                                         && (RunsAsTask(world.deferred(i).reports) || AnyText(world.deferred(i).reports)))
  }

  ghost predicate Sound(w: Window, calls: seq<Call>, world: World, max: nat) {
    && w.first <= w.nextToCommit <= w.nextToStart <= |calls| && |w.running| <= max
    && (forall i: nat :: Placed(w, calls, world, i))
    && Disciplined(w.trace, calls, max) && Active(w.trace) == w.running && Begun(w.trace) == w.nextToStart
  }

  lemma {:induction false} RetireKeeps(w: Window, calls: seq<Call>, world: World, max: nat, i: nat)
    requires Sound(w, calls, world, max) && i in w.running && !world.deferred(i).raises
    ensures Placed(w, calls, world, i)
    ensures Sound(w.(settled := w.settled[i := Settles(world.deferred(i).reports)], running := w.running - {i},
                     trace := w.trace + [End(i)]), calls, world, max)
  {
    hide Settles, RunsAsTask, AnyText, Disciplined, Active, Begun;
    var w' := w.(settled := w.settled[i := Settles(world.deferred(i).reports)], running := w.running - {i},
                 trace := w.trace + [End(i)]);
    assert Placed(w, calls, world, i);
    OneMore(w.trace, End(i), calls, max);
    SmallerSet(w.running, i);
    forall k: nat
      ensures Placed(w', calls, world, k)
    {
      assert Placed(w, calls, world, k);
    }
  }

  lemma {:induction false} CommitKeeps(w: Window, calls: seq<Call>, world: World, max: nat)
    requires Sound(w, calls, world, max) && w.nextToCommit in w.settled
    ensures w.nextToCommit < w.nextToStart <= |calls| && calls[w.nextToCommit].safe
    ensures !world.deferred(w.nextToCommit).raises
    ensures w.settled[w.nextToCommit] == Settles(world.deferred(w.nextToCommit).reports)
    ensures RunsAsTask(world.deferred(w.nextToCommit).reports) || AnyText(world.deferred(w.nextToCommit).reports)
    ensures Sound(w.(settled := w.settled - {w.nextToCommit}, nextToCommit := w.nextToCommit + 1), calls, world, max)
  {
    hide Settles, RunsAsTask, AnyText, Disciplined, Active, Begun;
    var w' := w.(settled := w.settled - {w.nextToCommit}, nextToCommit := w.nextToCommit + 1);
    assert Placed(w, calls, world, w.nextToCommit);
    forall k: nat
      ensures Placed(w', calls, world, k)
    {
      assert Placed(w, calls, world, k);
    }
  }

  ghost predicate MayStart(w: Window, calls: seq<Call>, max: nat) {
    w.nextToStart < |calls| && calls[w.nextToStart].safe && |w.running| < max
  }

  lemma {:induction false} StartPermitted(w: Window, calls: seq<Call>, world: World, max: nat)
    requires Sound(w, calls, world, max) && MayStart(w, calls, max)
    ensures Permitted(w.trace, Begin(w.nextToStart), calls, max)
    ensures w.nextToStart !in w.running
  {
    hide Settles, RunsAsTask, AnyText, Disciplined, Active, Begun;
    forall j | j in w.running
      ensures j < w.nextToStart && calls[j].safe
    {
      assert Placed(w, calls, world, j);
    }
  }

  lemma {:induction false} StartKeeps(w: Window, calls: seq<Call>, world: World, max: nat)
    requires Sound(w, calls, world, max) && MayStart(w, calls, max) && RunsAsTask(world.deferred(w.nextToStart).reports)
    ensures Sound(w.(running := w.running + {w.nextToStart}, nextToStart := w.nextToStart + 1,
                     trace := w.trace + [Begin(w.nextToStart)]), calls, world, max)
  {
    hide Settles, RunsAsTask, AnyText, Disciplined, Active, Begun, Permitted;
    var w' := w.(running := w.running + {w.nextToStart}, nextToStart := w.nextToStart + 1,
                 trace := w.trace + [Begin(w.nextToStart)]);
    StartPermitted(w, calls, world, max);
    OneMore(w.trace, Begin(w.nextToStart), calls, max);
    forall k: nat
      ensures Placed(w', calls, world, k)
    {
      assert Placed(w, calls, world, k);
    }
  }

  lemma {:induction false} AnswerKeeps(w: Window, calls: seq<Call>, world: World, max: nat)
    requires Sound(w, calls, world, max) && MayStart(w, calls, max)
    requires AnyText(world.deferred(w.nextToStart).reports) && !world.deferred(w.nextToStart).raises
    ensures Sound(w.(settled := w.settled[w.nextToStart := Settles(world.deferred(w.nextToStart).reports)],
                     nextToStart := w.nextToStart + 1,
                     trace := w.trace + [Begin(w.nextToStart)] + [End(w.nextToStart)]), calls, world, max)
  {
    hide Settles, RunsAsTask, AnyText, Disciplined, Active, Begun, Permitted;
    var i := w.nextToStart;
    var w' := w.(settled := w.settled[i := Settles(world.deferred(i).reports)], nextToStart := i + 1,
                 trace := w.trace + [Begin(i)] + [End(i)]);
    StartPermitted(w, calls, world, max);
    OneMore(w.trace, Begin(i), calls, max);
    assert Permitted(w.trace + [Begin(i)], End(i), calls, max) by { EndPermitted(w.trace + [Begin(i)], i, calls, max); }
    OneMore(w.trace + [Begin(i)], End(i), calls, max);
    assert w.running + {i} - {i} == w.running;
    forall k: nat
      ensures Placed(w', calls, world, k)
    {
      assert Placed(w, calls, world, k);
    }
  }

  lemma {:induction false} EndPermitted(trace: seq<Step>, i: nat, calls: seq<Call>, max: nat)
    requires i in Active(trace)
    ensures Permitted(trace, End(i), calls, max)
  {
  }

  class ParallelGroup {
    const first: nat
    var settled: map<nat, Settled>
    var running: set<nat>
    var nextToStart: nat
    var nextToCommit: nat
    ghost var trace: seq<Step>
    ghost var begun: nat

    constructor (first: nat, ghost trace: seq<Step>)
      ensures this.first == first && settled == map[] && running == {} && nextToStart == nextToCommit == first
      ensures this.trace == trace && begun == first
    {
      this.first := first;
      settled, running, nextToStart, nextToCommit := map[], {}, first, first;
      this.trace, begun := trace, first;
    }

    ghost function View(): Window
      reads this
    {
      Window(first, settled, running, nextToStart, nextToCommit, trace)
    }

    ghost predicate Valid(calls: seq<Call>, world: World, max: nat)
      reads this
    {
      first <= nextToCommit <= nextToStart <= |calls| && |running| <= max && Sound(View(), calls, world, max)
    }

    /** Moves those running calls that are done by now from running to settled;
        the first one met that raised makes the scheduler raise. */
    method HarvestFinished(done: set<nat>, calls: seq<Call>, world: World, ghost max: nat)
      returns (failed: bool, ghost culprit: nat)
      requires Valid(calls, world, max)
      modifies this`settled, this`running, this`trace
      ensures Valid(calls, world, max)
      ensures running <= old(running) && old(running) - done <= running
      ensures !failed ==> running == old(running) - done
      ensures failed ==> culprit in running && culprit in done && world.deferred(culprit).raises
      ensures nextToStart == old(nextToStart) && nextToCommit == old(nextToCommit)
    {
      hide Valid;
      failed, culprit := false, 0;
      var todo := running;
      while todo != {}
        invariant Valid(calls, world, max)
        invariant todo <= running <= old(running)
        invariant forall i :: i in old(running) && i !in running ==> i in done
        invariant forall i :: i in running && i !in todo ==> i !in done
        invariant nextToStart == old(nextToStart) && nextToCommit == old(nextToCommit)
      {
        var index :| index in todo;
        todo := todo - {index};
        if index in done {
          if world.deferred(index).raises {
            failed, culprit := true, index;
            return;
          }
          Retire(index, calls, world, max);
        }
      }
    }

    method Retire(index: nat, calls: seq<Call>, world: World, ghost max: nat)
      requires Valid(calls, world, max) && index in running && !world.deferred(index).raises
      modifies this`settled, this`running, this`trace
      ensures Valid(calls, world, max)
      ensures running == old(running) - {index}
      ensures nextToStart == old(nextToStart) && nextToCommit == old(nextToCommit)
    {
      hide Sound;
      RetireKeeps(View(), calls, world, max, index);
      var reports := world.deferred(index).reports;
      var entry := Drain(reports[StartAt(reports) + 1..]);
      settled := settled[index := entry];
      running := running - {index};
      trace := trace + [End(index)];
    }
  }

  class ToolCallScheduler {
    const maxParallel: nat
    var inlineChars: nat
    var groupConsumed: nat
    var paused: bool

    constructor (maxParallel: nat)
      requires maxParallel >= 1
      ensures this.maxParallel == maxParallel && inlineChars == 0 && !paused
    {
      this.maxParallel := maxParallel;
      inlineChars, groupConsumed, paused := 0, 0, false;
    }

    /** Commits the settled calls that are next in model order. */
    method CommitReady(group: ParallelGroup, calls: seq<Call>, world: World, ghost start: nat, done: seq<Item>)
      returns (items: seq<Item>, failed: bool)
      requires group.Valid(calls, world, maxParallel)
      requires done == SerialItems(calls, world, start, group.nextToCommit)
      requires inlineChars == SerialInline(calls, world, start, group.nextToCommit)
      requires AllPresent(calls, world, start, group.nextToCommit)
      modifies this`inlineChars, group`settled, group`nextToCommit
      ensures group.Valid(calls, world, maxParallel)
      ensures group.running == old(group.running) && group.nextToStart == old(group.nextToStart)
      ensures items == SerialItems(calls, world, start, group.nextToCommit)
      ensures inlineChars == SerialInline(calls, world, start, group.nextToCommit)
      ensures AllPresent(calls, world, start, group.nextToCommit)
      ensures group.nextToCommit <= |calls| && group.nextToCommit <= |items|
      ensures forall i :: 0 <= i < group.nextToCommit ==> Delivered(calls, world, start, items, i)
      ensures !failed ==> group.nextToCommit !in group.settled
      ensures failed ==> group.nextToCommit < group.nextToStart
                         && Missing(calls, world, group.nextToCommit, inlineChars)
    {
      hide Sound, Settles, AnyText, RunsAsTask, SerialItems, SerialInline, AllPresent, Missing, Presentable, CommitText, Delivered;
      items, failed := done, false;
      while group.nextToCommit in group.settled
        invariant group.Valid(calls, world, maxParallel)
        invariant group.running == old(group.running) && group.nextToStart == old(group.nextToStart)
        invariant items == SerialItems(calls, world, start, group.nextToCommit)
        invariant inlineChars == SerialInline(calls, world, start, group.nextToCommit)
        invariant AllPresent(calls, world, start, group.nextToCommit)
        decreases |calls| - group.nextToCommit
      {
        var index := group.nextToCommit;
        CommitKeeps(group.View(), calls, world, maxParallel);
        var entry := group.settled[index];
        PresentExactly(calls, world, index, inlineChars);
        var text, present := FinalText(calls[index], entry, world);
        if !present {
          failed := true;
          AllDelivered(calls, world, start, index, items);
          return;
        }
        CommittedNext(calls, world, start, index);
        SafeText(calls, world, index, inlineChars);
        group.settled := group.settled - {index};
        inlineChars := inlineChars + |text|;
        items := items + [Completed(calls[index], text)];
        group.nextToCommit := index + 1;
      }
      WithinCalls(group, calls, world, maxParallel);
      AllDelivered(calls, world, start, group.nextToCommit, items);
    }

    lemma {:induction false} WithinCalls(group: ParallelGroup, calls: seq<Call>, world: World, max: nat)
      requires group.Valid(calls, world, max)
      ensures group.nextToCommit <= |calls|
    {
    }

    /** The result text of a settled call, with its final events finished; present
        is false when there is none or finishing raised. */
    method FinalText(call: Call, entry: Settled, world: World) returns (text: string, present: bool)
      requires forall r :: r in entry.finals ==> r.Final?
      ensures present == Presentable(world, call, entry, inlineChars)
      ensures present ==> text == CommitText(world, call, entry, inlineChars)
    {
      text, present := entry.text, entry.hasResult;
      for k := 0 to |entry.finals|
        invariant present == (entry.hasResult || k > 0)
        invariant forall i :: 0 <= i < k ==> Finalized(world, call, entry.finals[i], inlineChars).Some?
        invariant Some(text) == if k == 0 then Some(entry.text) else Finalized(world, call, entry.finals[k - 1], inlineChars)
      {
        var r := entry.finals[k];
        var finished := if r.measured then world.finish(call, r, inlineChars) else Some(r.text);
        assert finished == Finalized(world, call, r, inlineChars);
        if finished.None? {
          return text, false;
        }
        text := finished.value;
        present := true;
      }
    }

    /** Everything committed so far is what running the calls one by one gives. */
    ghost predicate InStep(group: ParallelGroup, calls: seq<Call>, world: World, start: nat, items: seq<Item>)
      reads this`inlineChars, group
    {
      && group.Valid(calls, world, maxParallel)
      && items == SerialItems(calls, world, start, group.nextToCommit)
      && inlineChars == SerialInline(calls, world, start, group.nextToCommit)
      && AllPresent(calls, world, start, group.nextToCommit)
    }

    /** Every call that was begun is in the books. */
    ghost predicate Even(group: ParallelGroup)
      reads group
    {
      group.begun == group.nextToStart
    }

    /** The group raised; the call that was begun last may not have got into the books. */
    ghost predicate Halted(group: ParallelGroup, calls: seq<Call>, world: World, start: nat, items: seq<Item>)
      reads this`inlineChars, group
    {
      && (Even(group) || (group.begun == group.nextToStart + 1
                          && Permitted(group.trace, Begin(group.nextToStart), calls, maxParallel)))
      && group.begun <= |calls| && Broken(calls, world, start, items, inlineChars, group.begun)
    }

    /** A pause is only taken when it was requested. */
    ghost predicate PauseIsReal(control: RunControl?)
      reads this`paused, control
    {
      paused ==> control != null && control.pauseRequested
    }

    method PollPause(control: RunControl?)
      requires PauseIsReal(control)
      modifies this`paused, control
      ensures PauseIsReal(control)
      ensures old(paused) ==> paused
      ensures control != null && old(control.pauseRequested) ==> control.pauseRequested
    {
      if control != null {
        var pause := control.Poll();
        if pause {
          paused := true;
        }
      }
    }

    /** Starts one more call; false if it ended at once and had no result. */
    method StartNext(group: ParallelGroup, calls: seq<Call>, world: World, ghost start: nat, ghost items: seq<Item>)
      returns (ok: bool)
      requires InStep(group, calls, world, start, items) && Even(group)
      requires group.nextToStart < |calls| && calls[group.nextToStart].safe && |group.running| < maxParallel
      modifies group
      ensures InStep(group, calls, world, start, items)
      ensures group.nextToCommit == old(group.nextToCommit)
      ensures ok ==> group.nextToStart == old(group.nextToStart) + 1 && Even(group)
                     && |group.running| <= old(|group.running|) + 1
      ensures !ok ==> group.nextToStart == old(group.nextToStart) && group.running == old(group.running)
      ensures !ok ==> Halted(group, calls, world, start, items)
    {
      hide Sound, Settles, RunsAsTask, AnyText, SerialItems, SerialInline, AllPresent, Broken, Missing;
      hide Permitted, Disciplined, Active, Begun, Drained, LastText, Finals, StartAt;
      var index := group.nextToStart;
      StartPermitted(group.View(), calls, world, maxParallel);
      group.begun := index + 1;
      var started, entry, present := Prepare(world.deferred(index));
      if !started && !present {
        NotPrepared(calls, world, start, items, inlineChars, group.nextToCommit, index);
        return false;
      }
      if started {
        StartKeeps(group.View(), calls, world, maxParallel);
      } else {
        AnswerKeeps(group.View(), calls, world, maxParallel);
      }
      group.trace := group.trace + [Begin(index)];
      group.nextToStart := index + 1;
      if started {
        group.running := group.running + {index};
      } else {
        group.trace := group.trace + [End(index)];
        group.settled := group.settled[index := entry];
      }
      return true;
    }

    /** One pass of collecting finished tasks and committing what is next. */
    method Collect(group: ParallelGroup, calls: seq<Call>, world: World, ghost start: nat, done: set<nat>,
            items: seq<Item>)
      returns (more: seq<Item>, failed: bool)
      requires InStep(group, calls, world, start, items) && Even(group)
      modifies this`inlineChars, group
      ensures group.nextToStart == old(group.nextToStart) && group.running <= old(group.running) && Even(group)
      ensures |group.running| <= old(|group.running|)
      ensures !failed ==> group.running == old(group.running) - done
      ensures InStep(group, calls, world, start, more)
      ensures !failed ==> group.nextToCommit !in group.settled
      ensures failed ==> Halted(group, calls, world, start, more)
    {
      hide Sound, Permitted, SerialItems, SerialInline, AllPresent, Missing, Settles, RunsAsTask, AnyText;
      ghost var culprit;
      failed, culprit := group.HarvestFinished(done, calls, world, maxParallel);
      SubsetSize(group.running, old(group.running));
      if failed {
        TaskRaised(group, calls, world, start, items, culprit);
        return items, true;
      }
      more, failed := CommitReady(group, calls, world, start, items);
      if failed {
        assert BrokenAt(calls, world, start, more, inlineChars, group.nextToCommit, group.nextToCommit);
        assert group.nextToCommit < group.begun;
      }
    }

    lemma {:induction false} TaskRaised(group: ParallelGroup, calls: seq<Call>, world: World, start: nat,
            items: seq<Item>, culprit: nat)
      requires InStep(group, calls, world, start, items)
      requires culprit in group.running && world.deferred(culprit).raises
      ensures Broken(calls, world, start, items, inlineChars, group.nextToStart)
    {
      hide SerialItems, SerialInline, AllPresent;
      assert Placed(group.View(), calls, world, culprit);
      assert BrokenAt(calls, world, start, items, inlineChars, group.nextToCommit, culprit);
    }

    /** Starts a call, notices a pause, and commits what has finished meanwhile. */
    method StartAndCollect(group: ParallelGroup, calls: seq<Call>, world: World, ghost start: nat,
            control: RunControl?, items: seq<Item>)
      returns (more: seq<Item>, failed: bool)
      requires InStep(group, calls, world, start, items) && Even(group) && PauseIsReal(control)
      requires group.nextToStart < |calls| && calls[group.nextToStart].safe && |group.running| < maxParallel
      modifies this`inlineChars, this`groupConsumed, this`paused, group, control
      ensures InStep(group, calls, world, start, more)
      ensures PauseIsReal(control) && (old(paused) ==> paused)
      ensures control != null && old(control.pauseRequested) ==> control.pauseRequested
      ensures failed ==> Halted(group, calls, world, start, more)
      ensures !failed ==> Even(group)
      ensures !failed ==> group.nextToCommit !in group.settled
      ensures group.nextToStart == old(group.nextToStart) + 1 || (failed && group.nextToStart == old(group.nextToStart))
      ensures |group.running| <= old(|group.running|) + (group.nextToStart - old(group.nextToStart))
      ensures group.nextToStart == old(group.nextToStart) ==> paused == old(paused) && groupConsumed == old(groupConsumed)
      ensures group.nextToStart > old(group.nextToStart) ==> groupConsumed == group.nextToStart - group.first
    {
      hide InStep, ParallelGroup.Valid, Halted;
      more := items;
      var ok := StartNext(group, calls, world, start, more);
      if !ok {
        failed := true;
        return;
      }
      WithinBounds(group, calls, world, start, more);
      groupConsumed := group.nextToStart - group.first;
      PollPause(control);
      var done: set<nat> :| done <= group.running;
      FewerRunning(group.running, done);
      more, failed := Collect(group, calls, world, start, done, more);
    }

    /** Fills the window with further safe calls, until it is full, the barrier of
        an unsafe call is reached, or a pause is noticed. */
    method FillWindow(group: ParallelGroup, calls: seq<Call>, world: World, ghost start: nat, control: RunControl?,
            items: seq<Item>)
      returns (more: seq<Item>, failed: bool)
      requires InStep(group, calls, world, start, items) && Even(group) && group.nextToCommit !in group.settled
      requires PauseIsReal(control)
      modifies this`inlineChars, this`groupConsumed, this`paused, group, control
      ensures InStep(group, calls, world, start, more)
      ensures PauseIsReal(control) && (old(paused) ==> paused)
      ensures control != null && old(control.pauseRequested) ==> control.pauseRequested
      ensures failed ==> Halted(group, calls, world, start, more)
      ensures !failed ==> Even(group)
      ensures !failed ==> group.nextToCommit !in group.settled
      ensures !failed ==> paused || group.nextToStart == |calls| || |group.running| == maxParallel || !calls[group.nextToStart].safe
      ensures group.nextToStart >= old(group.nextToStart)
      ensures |group.running| <= old(|group.running|) + (group.nextToStart - old(group.nextToStart))
      ensures group.nextToStart == old(group.nextToStart) ==> paused == old(paused)
      ensures groupConsumed == if group.nextToStart == old(group.nextToStart) then old(groupConsumed)
                               else group.nextToStart - group.first
    {
      hide InStep, ParallelGroup.Valid, Halted, AnyText, RunsAsTask;
      more, failed := items, false;
      WithinBounds(group, calls, world, start, more);
      while !paused && group.nextToStart < |calls| && |group.running| < maxParallel && calls[group.nextToStart].safe
        invariant InStep(group, calls, world, start, more) && Even(group) && group.nextToCommit !in group.settled
        invariant PauseIsReal(control) && (old(paused) ==> paused)
        invariant control != null && old(control.pauseRequested) ==> control.pauseRequested
        invariant old(group.nextToStart) <= group.nextToStart <= |calls| && |group.running| <= maxParallel
        invariant |group.running| <= old(|group.running|) + (group.nextToStart - old(group.nextToStart))
        invariant group.nextToStart == old(group.nextToStart) ==> paused == old(paused)
        invariant groupConsumed == if group.nextToStart == old(group.nextToStart) then old(groupConsumed)
                                   else group.nextToStart - group.first
        decreases |calls| - group.nextToStart
      {
        more, failed := StartAndCollect(group, calls, world, start, control, more);
        WithinBounds(group, calls, world, start, more);
        if failed {
          return;
        }
      }
    }

    lemma {:induction false} WithinBounds(group: ParallelGroup, calls: seq<Call>, world: World, start: nat,
            items: seq<Item>)
      requires InStep(group, calls, world, start, items)
      ensures group.first <= group.nextToCommit <= group.nextToStart <= |calls| && |group.running| <= maxParallel
    {
    }

    lemma {:induction false} NotPrepared(calls: seq<Call>, world: World, start: nat, items: seq<Item>, inline: nat,
            k: nat, j: nat)
      requires k <= j < |calls| && calls[j].safe
      requires items == SerialItems(calls, world, start, k) && inline == SerialInline(calls, world, start, k)
      requires AllPresent(calls, world, start, k)
      requires !RunsAsTask(world.deferred(j).reports)
      requires !AnyText(world.deferred(j).reports) || world.deferred(j).raises
      ensures Broken(calls, world, start, items, inline, j + 1)
    {
      hide SerialItems, SerialInline, AllPresent;
      assert BrokenAt(calls, world, start, items, inline, k, j);
    }

    method CollectAndFill(group: ParallelGroup, calls: seq<Call>, world: World, ghost start: nat,
            control: RunControl?, items: seq<Item>)
      returns (more: seq<Item>, failed: bool)
      requires InStep(group, calls, world, start, items) && Even(group) && PauseIsReal(control)
      modifies this`inlineChars, this`groupConsumed, this`paused, group, control
      ensures InStep(group, calls, world, start, more)
      ensures PauseIsReal(control) && (old(paused) ==> paused)
      ensures control != null && old(control.pauseRequested) ==> control.pauseRequested
      ensures failed ==> Halted(group, calls, world, start, more)
      ensures !failed ==> Even(group)
      ensures !failed ==> group.nextToCommit !in group.settled
      ensures !failed ==> paused || group.nextToStart == |calls| || |group.running| == maxParallel || !calls[group.nextToStart].safe
      ensures group.nextToStart >= old(group.nextToStart)
      ensures |group.running| <= old(|group.running|) + (group.nextToStart - old(group.nextToStart))
      ensures group.nextToStart == old(group.nextToStart) ==> paused == old(paused) && groupConsumed == old(groupConsumed)
      ensures group.nextToStart > old(group.nextToStart) ==> groupConsumed == group.nextToStart - group.first
    {
      hide InStep, PauseIsReal, Halted;
      var done: set<nat> :| done <= group.running;
      FewerRunning(group.running, done);
      more, failed := Collect(group, calls, world, start, done, items);
      if !failed {
        more, failed := FillWindow(group, calls, world, start, control, more);
      }
    }

    /** Waits until a task has finished or a pause is requested. */
    method AwaitProgress(group: ParallelGroup, calls: seq<Call>, world: World, ghost start: nat,
            control: RunControl?, items: seq<Item>)
      returns (more: seq<Item>, failed: bool)
      requires InStep(group, calls, world, start, items) && Even(group) && PauseIsReal(control) && group.running != {}
      modifies this`inlineChars, this`paused, group, control
      ensures InStep(group, calls, world, start, more)
      ensures PauseIsReal(control) && (old(paused) ==> paused)
      ensures control != null && old(control.pauseRequested) ==> control.pauseRequested
      ensures group.nextToStart == old(group.nextToStart) && |group.running| <= old(|group.running|)
      ensures !failed ==> |group.running| < old(|group.running|) || (paused && !old(paused))
      ensures !failed ==> Even(group)
      ensures failed ==> Halted(group, calls, world, start, more)
    {
      hide ParallelGroup.Valid, SerialItems, SerialInline, AllPresent, Missing, Halted;
      var before := paused;
      if !paused {
        PollPause(control);
      }
      var done: set<nat> :| done <= group.running && (done != {} || paused != before);
      FewerRunning(group.running, done);
      more, failed := Collect(group, calls, world, start, done, items);
    }

    /** Runs the safe calls from group.first on, up to an unsafe call, a pause or
        the end. */
    method RunParallelGroup(group: ParallelGroup, calls: seq<Call>, world: World, ghost start: nat,
            control: RunControl?, items: seq<Item>)
      returns (more: seq<Item>, failed: bool)
      requires maxParallel >= 1
      requires InStep(group, calls, world, start, items) && Even(group)
      requires group.nextToStart == group.first && group.running == {}
      requires groupConsumed == 0
      requires !paused && group.first < |calls| && calls[group.first].safe
      modifies this`inlineChars, this`groupConsumed, this`paused, group, control
      ensures InStep(group, calls, world, start, more)
      ensures PauseIsReal(control)
      ensures control != null && old(control.pauseRequested) ==> control.pauseRequested
      ensures failed ==> Halted(group, calls, world, start, more)
      ensures !failed ==> Even(group) && group.nextToCommit == group.nextToStart && group.running == {}
      ensures !failed ==> groupConsumed == group.nextToStart - group.first > 0
      ensures !failed && !paused && group.nextToStart < |calls| ==> !calls[group.nextToStart].safe
    {
      hide InStep, Halted;
      more := items;
      WithinBounds(group, calls, world, start, more);
      while true
        invariant InStep(group, calls, world, start, more) && Even(group) && PauseIsReal(control)
        invariant control != null && old(control.pauseRequested) ==> control.pauseRequested
        invariant group.first <= group.nextToStart <= |calls|
        invariant groupConsumed == group.nextToStart - group.first
        invariant groupConsumed == 0 ==> !paused && group.running == {}
        decreases 2 * (|calls| - group.nextToStart) + |group.running| + if paused then 0 else 1
      {
        more, failed := CollectAndFill(group, calls, world, start, control, more);
        WithinBounds(group, calls, world, start, more);
        if failed {
          return;
        }
        var reachedBoundary := paused || group.nextToStart >= |calls| || !calls[group.nextToStart].safe;
        if reachedBoundary && group.running == {} {
          AllCommitted(group, calls, world, start, more);
          break;
        }
        // A window that is not at a boundary is full, so there is a task to wait for.
        more, failed := AwaitProgress(group, calls, world, start, control, more);
        if failed {
          return;
        }
      }
    }

    /** Runs one unsafe call while nothing else runs. */
    method RunExclusive(index: nat, calls: seq<Call>, world: World, ghost start: nat, items: seq<Item>,
            ghost trace: seq<Step>)
      returns (more: seq<Item>, failed: bool, ghost trace': seq<Step>)
      requires maxParallel >= 1 && index < |calls| && !calls[index].safe
      requires items == SerialItems(calls, world, start, index) && inlineChars == SerialInline(calls, world, start, index)
      requires AllPresent(calls, world, start, index)
      requires Disciplined(trace, calls, maxParallel) && Active(trace) == {} && Begun(trace) == index
      modifies this`inlineChars
      ensures failed ==> Broken(calls, world, start, more, inlineChars, index + 1)
      ensures !failed ==> more == SerialItems(calls, world, start, index + 1)
                          && inlineChars == SerialInline(calls, world, start, index + 1)
                          && AllPresent(calls, world, start, index + 1)
      ensures Disciplined(trace', calls, maxParallel) && Begun(trace') == index + 1
      ensures !failed ==> Active(trace') == {}
    {
      hide SerialItems, SerialInline, AllPresent, Disciplined, Active, Begun;
      trace' := trace + [Begin(index)];
      OneMore(trace, Begin(index), calls, maxParallel);
      var execution := world.exclusive(index, inlineChars);
      var reports := execution.reports;
      var text, hasResult := NO_RESULT, false;
      for k := 0 to |reports|
        invariant text == LastText(reports[..k]) && hasResult == AnyText(reports[..k])
        invariant inlineChars == old(inlineChars)
      {
        AnyTextNext(reports, k);
        text := reports[k].text;
        hasResult := hasResult || reports[k].text != "";
      }
      assert reports[..|reports|] == reports;
      more := items;
      if execution.raises || !hasResult {
        assert BrokenAt(calls, world, start, items, inlineChars, index, index);
        return more, true, trace';
      }
      CommittedNext(calls, world, start, index);
      OneMore(trace', End(index), calls, maxParallel);
      trace' := trace' + [End(index)];
      inlineChars := inlineChars + |text|;
      more, failed := items + [Completed(calls[index], text)], false;
    }

    /** All calls of one model turn.  Whatever the completion order, the window
        size and the moment of a pause: the started calls give exactly what
        running them one by one gives, and the others are aborted.  It raises if
        and only if a call that was started raises or has no result. */
    method Stream(calls: seq<Call>, world: World, control: RunControl?)
      returns (items: seq<Item>, failed: bool, ghost started: nat, ghost trace: seq<Step>)
      requires maxParallel >= 1 && PauseIsReal(control)
      modifies this`inlineChars, this`groupConsumed, this`paused, control
      ensures PauseIsReal(control)
      ensures started <= |calls| && Begun(trace) == started
      ensures failed <==> !AllPresent(calls, world, old(inlineChars), started)
      ensures failed ==> Broken(calls, world, old(inlineChars), items, inlineChars, started)
      ensures failed ==> |items| < started && forall i :: 0 <= i < |items| ==> Delivered(calls, world, old(inlineChars), items, i)
      ensures control == null ==> (failed <==> !AllPresent(calls, world, old(inlineChars), |calls|))
      ensures !failed ==> (paused || started == |calls|)
                          && items == SerialItems(calls, world, old(inlineChars), started) + AbortAll(calls[started..])
                          && inlineChars == SerialInline(calls, world, old(inlineChars), started)
                          && Active(trace) == {} && Fulfilled(calls, world, old(inlineChars), items, started)
      ensures Disciplined(trace, calls, maxParallel)
    {
      hide SerialItems, SerialInline, AllPresent, Missing, Broken, Disciplined, Active, Begun, ParallelGroup.Valid, Fulfilled;
      ghost var start := inlineChars;
      items, failed, started, trace := [], false, 0, [];
      var nextCall := 0;
      NothingYet(calls, world, start, maxParallel);
      while nextCall < |calls|
        invariant nextCall <= |calls| && PauseIsReal(control)
        invariant items == SerialItems(calls, world, start, nextCall) && inlineChars == SerialInline(calls, world, start, nextCall)
        invariant AllPresent(calls, world, start, nextCall)
        invariant Disciplined(trace, calls, maxParallel) && Active(trace) == {} && Begun(trace) == nextCall
      {
        PollPause(control);
        if paused {
          break;
        }
        if !calls[nextCall].safe {
          items, failed, trace := RunExclusive(nextCall, calls, world, start, items, trace);
          if failed {
            started := nextCall + 1;
            BrokenLacksResult(calls, world, start, items, inlineChars, started);
            BrokenDelivered(calls, world, start, items, inlineChars, started);
            return;
          }
          nextCall := nextCall + 1;
        } else {
          groupConsumed := 0;
          var group := new ParallelGroup(nextCall, trace);
          NewGroup(group, calls, world, start, items);
          items, failed := RunParallelGroup(group, calls, world, start, control, items);
          trace := group.trace;
          WhatGroupDid(group, calls, world, start, items);
          if failed {
            if group.begun > group.nextToStart {
              OneMore(trace, Begin(group.nextToStart), calls, maxParallel);
              trace := trace + [Begin(group.nextToStart)];
            }
            started := group.begun;
            BrokenLacksResult(calls, world, start, items, inlineChars, started);
            BrokenDelivered(calls, world, start, items, inlineChars, started);
            return;
          }
          nextCall := nextCall + groupConsumed;
        }
        PollPause(control);
        if paused {
          break;
        }
      }
      started := nextCall;
      if paused {
        ghost var committed := items;
        var rest := calls[nextCall..];
        for j := 0 to |rest|
          invariant items == committed + AbortAll(rest[..j])
        {
          assert rest[..j + 1][..j] == rest[..j];
          items := items + [Aborted(rest[j])];
        }
        assert rest[..|rest|] == rest;
      } else {
        assert calls[started..] == [];
      }
      StreamFulfils(calls, world, start, items, started);
    }

    lemma {:induction false} NewGroup(group: ParallelGroup, calls: seq<Call>, world: World, start: nat,
            items: seq<Item>)
      requires group.first < |calls| && group.settled == map[] && group.running == {}
      requires group.nextToStart == group.nextToCommit == group.first
      requires Disciplined(group.trace, calls, maxParallel) && Active(group.trace) == {} && Begun(group.trace) == group.first
      requires items == SerialItems(calls, world, start, group.first)
      requires inlineChars == SerialInline(calls, world, start, group.first)
      requires AllPresent(calls, world, start, group.first)
      ensures InStep(group, calls, world, start, items)
    {
      hide SerialItems, SerialInline, AllPresent, Disciplined, Active, Begun;
      forall i: nat
        ensures Placed(group.View(), calls, world, i)
      {
      }
    }

    lemma {:induction false} WhatGroupDid(group: ParallelGroup, calls: seq<Call>, world: World, start: nat,
            items: seq<Item>)
      requires InStep(group, calls, world, start, items)
      ensures group.nextToStart <= |calls|
      ensures Disciplined(group.trace, calls, maxParallel)
      ensures Active(group.trace) == group.running && Begun(group.trace) == group.nextToStart
    {
      hide SerialItems, SerialInline, AllPresent, Disciplined, Active, Begun;
    }

    lemma {:induction false} AllCommitted(group: ParallelGroup, calls: seq<Call>, world: World, start: nat,
            items: seq<Item>)
      requires InStep(group, calls, world, start, items)
      requires group.running == {} && group.nextToCommit !in group.settled
      ensures group.nextToCommit == group.nextToStart
    {
      assert Placed(group.View(), calls, world, group.nextToCommit);
    }
  }

  lemma {:induction false} BrokenDelivered(calls: seq<Call>, world: World, start: nat, items: seq<Item>, inline: nat,
          begun: nat)
    requires Broken(calls, world, start, items, inline, begun) && begun <= |calls|
    ensures |items| < begun && forall i :: 0 <= i < |items| ==> Delivered(calls, world, start, items, i)
  {
    hide Missing, SerialItems, AllPresent, Delivered;
    var k: nat, j: nat :| k <= j < begun && j < |calls| && BrokenAt(calls, world, start, items, inline, k, j);
    SerialShape(calls, world, start, k);
    AllDelivered(calls, world, start, k, items);
  }

  /** A run only raises for a call that raises or has no result. */
  lemma {:induction false} BrokenLacksResult(calls: seq<Call>, world: World, start: nat, items: seq<Item>, inline: nat,
          begun: nat)
    requires Broken(calls, world, start, items, inline, begun) && begun <= |calls|
    ensures !AllPresent(calls, world, start, begun) && !AllPresent(calls, world, start, |calls|)
  {
    hide Missing, SerialItems;
    var k: nat, j: nat :| k <= j < begun && j < |calls| && BrokenAt(calls, world, start, items, inline, k, j);
  }

  lemma {:induction false} NothingYet(calls: seq<Call>, world: World, start: nat, max: nat)
    ensures SerialItems(calls, world, start, 0) == [] && SerialInline(calls, world, start, 0) == start
    ensures AllPresent(calls, world, start, 0)
    ensures Disciplined([], calls, max) && Active([]) == {} && Begun([]) == 0
  {
  }

  lemma {:induction false} SubsetSize(a: set<nat>, b: set<nat>)
    requires a <= b
    ensures |a| <= |b|
  {
    assert b == a + (b - a);
  }

  lemma {:induction false} FewerRunning(running: set<nat>, done: set<nat>)
    requires done <= running
    ensures |running - done| == |running| - |done|
    ensures done != {} ==> |running - done| < |running|
  {
  }

  /*---------------------------- what the items mean ----------------------------*/

  lemma {:induction false} SerialShape(calls: seq<Call>, world: World, start: nat, n: nat)
    requires n <= |calls|
    ensures |SerialItems(calls, world, start, n)| == n
    ensures forall i :: 0 <= i < n ==> SerialItems(calls, world, start, n)[i].Completed?
                                       && SerialItems(calls, world, start, n)[i].call == calls[i]
  {
    hide TextOf, SerialInline;
    if n > 0 {
      SerialShape(calls, world, start, n - 1);
    }
  }

  lemma {:induction false} AbortShape(calls: seq<Call>)
    ensures |AbortAll(calls)| == |calls|
    ensures forall i :: 0 <= i < |calls| ==> AbortAll(calls)[i] == Aborted(calls[i])
  {
    if calls != [] {
      AbortShape(calls[..|calls| - 1]);
    }
  }

  /** Every call gets exactly one item, in model order: a completed prefix and an
      aborted rest. */
  lemma {:induction false} OneItemPerCall(calls: seq<Call>, world: World, start: nat, started: nat)
    requires started <= |calls|
    ensures var items := SerialItems(calls, world, start, started) + AbortAll(calls[started..]);
            && |items| == |calls|
            && (forall i :: 0 <= i < |items| ==> items[i].call == calls[i] && (items[i].Completed? <==> i < started))
  {
    hide SerialItems, AbortAll;
    SerialShape(calls, world, start, started);
    AbortShape(calls[started..]);
  }

  /** The inline total is what has been committed, and nothing else. */
  lemma {:induction false} InlineIsCommitted(calls: seq<Call>, world: World, start: nat, n: nat)
    requires n <= |calls|
    ensures SerialInline(calls, world, start, n) == start + TotalLength(SerialItems(calls, world, start, n))
  {
    hide TextOf;
    if n > 0 {
      InlineIsCommitted(calls, world, start, n - 1);
      var before := SerialItems(calls, world, start, n - 1);
      var items := SerialItems(calls, world, start, n);
      assert items[..|items| - 1] == before;
    }
  }

  lemma {:induction false} SameFinish(one: World, two: World, call: Call, entry: Settled, inline: nat)
    requires one.finish == two.finish
    ensures CommitText(one, call, entry, inline) == CommitText(two, call, entry, inline)
  {
  }

  lemma {:induction false} SameText(calls: seq<Call>, other: seq<Call>, one: World, two: World, i: nat, inline: nat)
    requires i < |calls| && i < |other| && calls[i] == other[i]
    requires one.finish == two.finish && one.exclusive == two.exclusive && one.deferred(i) == two.deferred(i)
    ensures TextOf(calls, one, i, inline) == TextOf(other, two, i, inline)
  {
    hide CommitText, Settles;
    SameFinish(one, two, calls[i], Settles(one.deferred(i).reports), inline);
  }

  /** Only the started calls' own results matter. */
  lemma {:induction false} OnlyStartedResultsMatter(calls: seq<Call>, other: seq<Call>, one: World, two: World,
          start: nat, n: nat)
    requires n <= |calls| && n <= |other| && calls[..n] == other[..n]
    requires one.finish == two.finish && one.exclusive == two.exclusive
    requires forall i :: 0 <= i < n ==> one.deferred(i) == two.deferred(i)
    ensures SerialInline(calls, one, start, n) == SerialInline(other, two, start, n)
    ensures SerialItems(calls, one, start, n) == SerialItems(other, two, start, n)
  {
    hide TextOf;
    if n > 0 {
      assert calls[..n][n - 1] == other[..n][n - 1];
      assert calls[..n - 1] == calls[..n][..n - 1] && other[..n - 1] == other[..n][..n - 1];
      OnlyStartedResultsMatter(calls, other, one, two, start, n - 1);
      SameText(calls, other, one, two, n - 1, SerialInline(calls, one, start, n - 1));
    }
  }

  /** A run that raised has committed less than it was given. */
  lemma {:induction false} BrokenIsIncomplete(calls: seq<Call>, world: World, start: nat, items: seq<Item>, inline: nat,
          begun: nat)
    requires Broken(calls, world, start, items, inline, begun)
    ensures |items| < |calls|
    ensures forall i :: 0 <= i < |items| ==> items[i].Completed? && items[i].call == calls[i]
  {
    hide Missing, AllPresent;
    var k: nat, j: nat :| k <= j < begun && j < |calls| && BrokenAt(calls, world, start, items, inline, k, j);
    SerialShape(calls, world, start, k);
  }
}
