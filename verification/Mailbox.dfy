/** The durable inbox of a continuable child session
    (agent/app/subagent/continuable.py) and the store its checkpoints go to
    (core AgentSessionStore.java), with crashes at any moment. */
module Mailbox {
  import opened Ordering
  import opened Protocol

  const MAX_PEER_MESSAGE_LENGTH := 20000

  const MAX_PENDING_PEER_MESSAGES := 100

  const MAX_ACTIVATION_INBOX_MESSAGES := 32

  datatype Kind = Task | Peer

  datatype Entry = Entry(sequence: nat, kind: Kind, sender: string, content: string)

  datatype InboxMessage = InboxMessage(entry: Entry, pending: bool)

  type Inbox = seq<InboxMessage>

  predicate Before(a: InboxMessage, b: InboxMessage) { a.entry.sequence < b.entry.sequence }

  predicate NotAfter(a: InboxMessage, b: InboxMessage) { a.entry.sequence <= b.entry.sequence }

  function Highest(inbox: Inbox): nat {
    if inbox == [] then 0
    else
      var h, last := Highest(inbox[..|inbox| - 1]), inbox[|inbox| - 1].entry.sequence;
      if h < last then last else h
  }

  function NextSequence(inbox: Inbox): nat { Highest(inbox) + 1 }

  lemma {:induction false} HighestBounds(inbox: Inbox)
    ensures forall m :: m in inbox ==> m.entry.sequence <= Highest(inbox)
  {
    if inbox != [] {
      HighestBounds(inbox[..|inbox| - 1]);
      assert inbox == inbox[..|inbox| - 1] + [inbox[|inbox| - 1]];
    }
  }

  /*------------------------------- what has been read --------------------------*/

  function Entries(inbox: Inbox): (entries: seq<Entry>)
    ensures |entries| == |inbox| && forall i :: 0 <= i < |inbox| ==> entries[i] == inbox[i].entry
  {
    seq(|inbox|, i requires 0 <= i < |inbox| => inbox[i].entry)
  }

  /** How many of the leading messages have a sequence up to n. */
  function Cut(inbox: Inbox, n: nat): (k: nat)
    ensures k <= |inbox|
  {
    if inbox == [] || inbox[0].entry.sequence > n then 0 else 1 + Cut(inbox[1..], n)
  }

  lemma {:induction false} CutExact(inbox: Inbox, n: nat)
    requires SortedBy(inbox, Before)
    ensures forall i :: 0 <= i < |inbox| ==> (i < Cut(inbox, n) <==> inbox[i].entry.sequence <= n)
  {
    if inbox != [] {
      if inbox[0].entry.sequence > n {
        forall i | 0 <= i < |inbox|
          ensures inbox[i].entry.sequence > n
        {
          assert i > 0 ==> Before(inbox[0], inbox[i]);
        }
      } else {
        TailSorted(inbox, Before);
        CutExact(inbox[1..], n);
        forall i | 0 < i < |inbox|
          ensures i < Cut(inbox, n) <==> inbox[i].entry.sequence <= n
        {
          assert inbox[i] == inbox[1..][i - 1];
        }
      }
    }
  }

  /** The entries with a sequence up to n, in inbox order. */
  function ReadUpTo(inbox: Inbox, n: nat): seq<Entry> {
    Entries(inbox[..Cut(inbox, n)])
  }

  predicate Unread(m: InboxMessage, consumed: nat) {
    m.pending && m.entry.sequence > consumed
  }

  /** The messages an activation takes: pending ones behind the read mark, by
      sequence, at most 32. */
  function Batch(inbox: Inbox, consumed: nat): Inbox {
    var unread := Sort(Filter(inbox, (m: InboxMessage) => Unread(m, consumed)), NotAfter);
    if |unread| <= MAX_ACTIVATION_INBOX_MESSAGES then unread else unread[..MAX_ACTIVATION_INBOX_MESSAGES]
  }

  function Rendered(m: InboxMessage): Message {
    User(if m.entry.kind.Peer? then "[from agent " + m.entry.sender + "]\n" + m.entry.content else m.entry.content)
  }

  /** What has ever been put into a transcript: a message read from the inbox, or one
      that the model and its tools have said. */
  datatype Line = Read(entry: Entry, message: Message) | Said(message: Message)

  /** The in-memory session. Compaction has dropped so many of the first lines of the
      history, and the transcript is the rest of it. */
  datatype Box = Box(inbox: Inbox, consumed: nat, transcript: seq<Message>, history: seq<Line>, dropped: nat)

  /** The messages read from the inbox, in the order in which they entered. */
  function EntriesOf(history: seq<Line>): seq<Entry> {
    if history == [] then []
    else
      var last := history[|history| - 1];
      EntriesOf(history[..|history| - 1]) + match last { case Read(entry, _) => [entry] case Said(_) => [] }
  }

  function Entered(b: Box): seq<Entry> { EntriesOf(b.history) }

  function LinesOf(batch: Inbox): seq<Line> {
    seq(|batch|, i requires 0 <= i < |batch| => Read(batch[i].entry, Rendered(batch[i])))
  }

  function SaidLines(messages: seq<Message>): seq<Line> {
    seq(|messages|, i requires 0 <= i < |messages| => Said(messages[i]))
  }

  lemma {:induction false} OneLineMore(history: seq<Line>, line: Line)
    ensures EntriesOf(history + [line]) == EntriesOf(history) + if line.Read? then [line.entry] else []
  {
    assert (history + [line])[..|history|] == history;
  }

  lemma {:induction false} LinesEnter(history: seq<Line>, batch: Inbox)
    ensures EntriesOf(history + LinesOf(batch)) == EntriesOf(history) + Entries(batch)
  {
    hide EntriesOf, Rendered;
    if batch == [] {
      assert history + LinesOf(batch) == history;
    } else {
      var front, m := batch[..|batch| - 1], batch[|batch| - 1];
      LinesEnter(history, front);
      OneLineMore(history + LinesOf(front), Read(m.entry, Rendered(m)));
      assert history + LinesOf(batch) == history + LinesOf(front) + [Read(m.entry, Rendered(m))];
      assert Entries(batch) == Entries(front) + [m.entry];
    }
  }

  lemma {:induction false} SaidEnterNothing(history: seq<Line>, messages: seq<Message>)
    ensures EntriesOf(history + SaidLines(messages)) == EntriesOf(history)
  {
    hide EntriesOf;
    if messages == [] {
      assert history + SaidLines(messages) == history;
    } else {
      var front, m := messages[..|messages| - 1], messages[|messages| - 1];
      SaidEnterNothing(history, front);
      OneLineMore(history + SaidLines(front), Said(m));
      assert history + SaidLines(messages) == history + SaidLines(front) + [Said(m)];
    }
  }

  /** The transcript message for an inbox message: a task is told as it is, and a message
      of a peer with its text behind the name of its sender. */
  ghost predicate Carries(e: Entry, m: Message) {
    && m.User?
    && match e.kind
       case Task => m.content == e.content
       case Peer => exists before, between :: m.content == before + e.sender + between + e.content
  }

  lemma {:induction false} RenderedCarries(m: InboxMessage)
    ensures Carries(m.entry, Rendered(m))
  {
    if m.entry.kind.Peer? {
      var before, between := "[from agent ", "]\n";
      assert Rendered(m).content == before + m.entry.sender + between + m.entry.content;
    }
  }

  /** Marks the messages of a batch as consumed. */
  function Marked(inbox: Inbox, batch: Inbox): Inbox {
    seq(|inbox|, i requires 0 <= i < |inbox| => inbox[i].(pending := inbox[i].pending && inbox[i].entry !in Entries(batch)))
  }

  function RenderedAll(batch: Inbox): seq<Message> {
    seq(|batch|, i requires 0 <= i < |batch| => Rendered(batch[i]))
  }

  function Consumed(b: Box): Box {
    var batch := Batch(b.inbox, b.consumed);
    Box(Marked(b.inbox, batch), if batch == [] then b.consumed else batch[|batch| - 1].entry.sequence,
        b.transcript + RenderedAll(batch), b.history + LinesOf(batch), b.dropped)
  }

  function Enqueued(b: Box, kind: Kind, sender: string, content: string): Box {
    b.(inbox := b.inbox + [InboxMessage(Entry(NextSequence(b.inbox), kind, sender, content), true)])
  }

  /*------------------------------------ invariant ------------------------------*/

  /** Sequences ascend, nothing behind the read mark is marked consumed, and exactly
      the messages up to the read mark have entered the transcript, in order. */
  ghost predicate BoxSound(b: Box) {
    && SortedBy(b.inbox, Before)
    && (forall m :: m in b.inbox && !m.pending ==> m.entry.sequence <= b.consumed)
    && b.consumed <= Highest(b.inbox)
    && Entered(b) == ReadUpTo(b.inbox, b.consumed) && Transcribed(b)
  }

  /** The transcript is what compaction has left of the history, and what was read from
      the inbox carries its message. */
  ghost predicate Transcribed(b: Box) {
    && |b.transcript| + b.dropped == |b.history|
    && (forall i :: 0 <= i < |b.transcript| ==> b.transcript[i] == b.history[b.dropped + i].message)
    && forall line :: line in b.history && line.Read? ==> Carries(line.entry, line.message)
  }

  lemma {:induction false} TranscriptGrows(b: Box, batch: Inbox)
    requires Transcribed(b)
    ensures Transcribed(b.(transcript := b.transcript + RenderedAll(batch), history := b.history + LinesOf(batch)))
  {
    hide Rendered, Carries;
    var lines := LinesOf(batch);
    forall line | line in lines
      ensures line.Read? && Carries(line.entry, line.message)
    {
      var i :| 0 <= i < |lines| && lines[i] == line;
      RenderedCarries(batch[i]);
    }
  }

  /** No message is pending although it has been read. */
  ghost predicate Consistent(b: Box) {
    forall m :: m in b.inbox && m.pending ==> m.entry.sequence > b.consumed
  }

  /** The cut is the only place that separates the two kinds of sequences. */
  lemma {:induction false} CutUnique(inbox: Inbox, n: nat, k: nat)
    requires k <= |inbox|
    requires forall i :: 0 <= i < k ==> inbox[i].entry.sequence <= n
    requires forall i :: k <= i < |inbox| ==> inbox[i].entry.sequence > n
    ensures Cut(inbox, n) == k
    decreases k
  {
    if k > 0 {
      CutUnique(inbox[1..], n, k - 1);
    }
  }

  lemma {:induction false} AppendedCut(inbox: Inbox, m: InboxMessage, n: nat)
    requires SortedBy(inbox, Before) && n < m.entry.sequence
    ensures ReadUpTo(inbox + [m], n) == ReadUpTo(inbox, n)
  {
    hide SortedBy, Cut;
    var k := Cut(inbox, n);
    CutExact(inbox, n);
    CutUnique(inbox + [m], n, k);
    assert (inbox + [m])[..k] == inbox[..k];
  }

  lemma {:induction false} EnqueueSound(b: Box, kind: Kind, sender: string, content: string)
    requires BoxSound(b)
    ensures BoxSound(Enqueued(b, kind, sender, content))
    ensures Consistent(b) ==> Consistent(Enqueued(b, kind, sender, content))
  {
    hide ReadUpTo;
    var m := InboxMessage(Entry(NextSequence(b.inbox), kind, sender, content), true);
    HighestBounds(b.inbox);
    assert (b.inbox + [m])[..|b.inbox|] == b.inbox;
    AppendedCut(b.inbox, m, b.consumed);
  }

  /** Behind the read mark everything is pending, so the batch is the next stretch of
      the inbox. */
  lemma {:induction false} BatchIsNext(b: Box)
    requires BoxSound(b)
    ensures Batch(b.inbox, b.consumed) == NextStretch(b.inbox, Cut(b.inbox, b.consumed))
  {
    hide ReadUpTo, Sort, Filter, SortedBy, Cut, Unread;
    var k := Cut(b.inbox, b.consumed);
    var read, rest := b.inbox[..k], b.inbox[k..];
    UnreadBehindCut(b);
    assert b.inbox == read + rest;
    FilterConcat(read, rest, (m: InboxMessage) => Unread(m, b.consumed));
    FilterNone(read, (m: InboxMessage) => Unread(m, b.consumed));
    FilterAll(rest, (m: InboxMessage) => Unread(m, b.consumed));
    assert [] + rest == rest;
    RestAscends(b.inbox, k);
    SortFixpoint(rest, NotAfter);
  }

  /** At most 32 messages from position k on. */
  function NextStretch(inbox: Inbox, k: nat): Inbox
    requires k <= |inbox|
  {
    if |inbox| - k <= MAX_ACTIVATION_INBOX_MESSAGES then inbox[k..] else inbox[k..][..MAX_ACTIVATION_INBOX_MESSAGES]
  }

  lemma {:induction false} UnreadBehindCut(b: Box)
    requires BoxSound(b)
    ensures var k := Cut(b.inbox, b.consumed);
            && (forall m :: m in b.inbox[..k] ==> !Unread(m, b.consumed))
            && (forall m :: m in b.inbox[k..] ==> Unread(m, b.consumed))
  {
    hide Cut, ReadUpTo, SortedBy;
    var k := Cut(b.inbox, b.consumed);
    CutExact(b.inbox, b.consumed);
    forall m | m in b.inbox[..k]
      ensures !Unread(m, b.consumed)
    {
      var i :| 0 <= i < k && b.inbox[..k][i] == m;
      assert b.inbox[i] == m;
    }
    forall m | m in b.inbox[k..]
      ensures Unread(m, b.consumed)
    {
      var i :| 0 <= i < |b.inbox[k..]| && b.inbox[k..][i] == m;
      assert b.inbox[k + i] == m && m in b.inbox;
    }
  }

  lemma {:induction false} RestAscends(inbox: Inbox, k: nat)
    requires SortedBy(inbox, Before) && k <= |inbox|
    ensures SortedBy(inbox[k..], NotAfter)
  {
    forall i, j | 0 <= i < j < |inbox[k..]|
      ensures NotAfter(inbox[k..][i], inbox[k..][j])
    {
      assert Before(inbox[k + i], inbox[k + j]);
    }
  }

  lemma {:induction false} HighestAt(inbox: Inbox, i: nat)
    requires i < |inbox|
    ensures inbox[i].entry.sequence <= Highest(inbox)
  {
    HighestBounds(inbox);
  }

  lemma {:induction false} MarkedKeeps(inbox: Inbox, batch: Inbox)
    requires SortedBy(inbox, Before)
    ensures SortedBy(Marked(inbox, batch), Before) && Highest(Marked(inbox, batch)) == Highest(inbox)
    ensures forall n :: ReadUpTo(Marked(inbox, batch), n) == ReadUpTo(inbox, n)
  {
    var marked := Marked(inbox, batch);
    forall i, j | 0 <= i < j < |marked|
      ensures Before(marked[i], marked[j])
    {
      assert Before(inbox[i], inbox[j]);
    }
    SameHighest(marked, inbox);
    hide Marked, SortedBy;
    forall n
      ensures ReadUpTo(marked, n) == ReadUpTo(inbox, n)
    {
      SameEntriesSameRead(marked, inbox, n);
    }
  }

  lemma {:induction false} SameHighest(one: Inbox, two: Inbox)
    requires |one| == |two| && forall i :: 0 <= i < |one| ==> one[i].entry == two[i].entry
    ensures Highest(one) == Highest(two)
  {
    if one != [] {
      SameHighest(one[..|one| - 1], two[..|two| - 1]);
    }
  }

  lemma {:induction false} SameEntriesSameRead(one: Inbox, two: Inbox, n: nat)
    requires |one| == |two| && forall i :: 0 <= i < |one| ==> one[i].entry == two[i].entry
    requires SortedBy(two, Before)
    ensures ReadUpTo(one, n) == ReadUpTo(two, n)
  {
    hide Cut, SortedBy;
    CutExact(two, n);
    CutUnique(one, n, Cut(two, n));
  }

  /** An activation reads on exactly where the last one stopped: at most 32 messages,
      nothing twice, nothing left out. */
  lemma {:induction false} ConsumeSound(b: Box)
    requires BoxSound(b)
    ensures BoxSound(Consumed(b)) && b.consumed <= Consumed(b).consumed
    ensures var k := Cut(b.inbox, b.consumed);
            Entered(Consumed(b)) == Entered(b) + Entries(NextStretch(b.inbox, k))
  {
    hide Cut, Batch, Marked, Entries, Highest, SortedBy, EntriesOf, RenderedAll, LinesOf, Carries;
    var k := Cut(b.inbox, b.consumed);
    var batch := Batch(b.inbox, b.consumed);
    BatchIsNext(b);
    MarkedKeeps(b.inbox, batch);
    CutExact(b.inbox, b.consumed);
    var after := Consumed(b);
    ReadOn(b.inbox, b.consumed, k, after.consumed, batch);
    MarkedBelow(b, batch, after.consumed);
    LinesEnter(b.history, batch);
    TranscriptGrows(b, batch);
  }

  /** What an activation does, said of the messages of the inbox: the next 32 behind the
      read mark go into the transcript, each carried by a user message, are no longer
      pending, and move the mark. */
  lemma {:induction false} ConsumeExact(b: Box, k: nat)
    requires BoxSound(b) && k <= |b.inbox|
    requires forall i :: 0 <= i < |b.inbox| ==> (i < k <==> b.inbox[i].entry.sequence <= b.consumed)
    ensures var b', n, before := Consumed(b), Min(32, |b.inbox| - k), |b.transcript|;
            && |b'.transcript| == before + n && b'.transcript[..before] == b.transcript
            && (forall i :: k <= i < k + n ==> Carries(b.inbox[i].entry, b'.transcript[before + i - k]))
            && b'.consumed == (if n == 0 then b.consumed else b.inbox[k + n - 1].entry.sequence)
            && |b'.inbox| == |b.inbox|
            && forall i :: 0 <= i < |b.inbox| ==>
                 b'.inbox[i] == b.inbox[i].(pending := b.inbox[i].pending && !(k <= i < k + n))
  {
    hide *;
    CutUnique(b.inbox, b.consumed, k);
    ConsumedReads(b);
    BatchIsNext(b);
    StretchJoins(b.inbox, k);
    StretchLength(b.inbox, k);
    TranscriptAfter(b);
    var batch := Batch(b.inbox, b.consumed);
    forall i | k <= i < k + |batch|
      ensures Carries(b.inbox[i].entry, Consumed(b).transcript[|b.transcript| + i - k])
    {
      assert batch[i - k] == b.inbox[i];
    }
    assert ReadFromTo(b, Consumed(b), k, k + |NextStretch(b.inbox, k)|);
    ReadFromToParts(b, Consumed(b), k, k + |NextStretch(b.inbox, k)|);
  }

  lemma {:induction false} StretchLength(inbox: Inbox, k: nat)
    requires k <= |inbox|
    ensures |NextStretch(inbox, k)| == Min(32, |inbox| - k)
  {
  }

  lemma {:induction false} ReadFromToParts(b: Box, b': Box, k: nat, k': nat)
    requires ReadFromTo(b, b', k, k')
    ensures |b'.inbox| == |b.inbox|
    ensures forall i :: 0 <= i < |b.inbox| ==>
              b'.inbox[i] == b.inbox[i].(pending := b.inbox[i].pending && !(k <= i < k'))
  {
  }

  lemma {:induction false} TranscriptAfter(b: Box)
    ensures var b', batch := Consumed(b), Batch(b.inbox, b.consumed);
            && |b'.transcript| == |b.transcript| + |batch| && b'.transcript[..|b.transcript|] == b.transcript
            && (forall i :: 0 <= i < |batch| ==> Carries(batch[i].entry, b'.transcript[|b.transcript| + i]))
            && b'.consumed == if batch == [] then b.consumed else batch[|batch| - 1].entry.sequence
  {
    hide Batch, Marked, Rendered, Carries, LinesOf;
    var batch := Batch(b.inbox, b.consumed);
    forall i | 0 <= i < |batch|
      ensures Carries(batch[i].entry, Consumed(b).transcript[|b.transcript| + i])
    {
      RenderedCarries(batch[i]);
    }
  }

  lemma {:induction false} StretchJoins(inbox: Inbox, k: nat)
    requires k <= |inbox|
    ensures var batch := NextStretch(inbox, k);
            k + |batch| <= |inbox| && inbox[..k + |batch|] == inbox[..k] + batch
            && forall i :: 0 <= i < |batch| ==> batch[i] == inbox[k + i]
  {
  }

  lemma {:induction false} ReadOn(inbox: Inbox, n: nat, k: nat, n': nat, batch: Inbox)
    requires SortedBy(inbox, Before) && k == Cut(inbox, n) && batch == NextStretch(inbox, k)
    requires n <= Highest(inbox) && n' == if batch == [] then n else batch[|batch| - 1].entry.sequence
    ensures ReadUpTo(inbox, n') == ReadUpTo(inbox, n) + Entries(batch)
    ensures n <= n' <= Highest(inbox) && forall m :: m in batch ==> m.entry.sequence <= n'
  {
    hide Cut, Highest, SortedBy, Entries, NextStretch;
    var k' := k + |batch|;
    StretchJoins(inbox, k);
    EntriesJoin(inbox[..k], batch);
    if batch == [] {
      assert inbox[..k'] == inbox[..k];
    } else {
      BatchBounds(inbox, n, k, batch);
      CutUnique(inbox, n', k');
    }
  }

  lemma {:induction false} EntriesJoin(a: Inbox, b: Inbox)
    ensures Entries(a + b) == Entries(a) + Entries(b)
  {
  }

  /** The last sequence of a batch separates what is read by then from the rest. */
  lemma {:induction false} BatchBounds(inbox: Inbox, n: nat, k: nat, batch: Inbox)
    requires SortedBy(inbox, Before) && k == Cut(inbox, n) && batch == NextStretch(inbox, k) && batch != []
    ensures k + |batch| <= |inbox|
    ensures var n' := batch[|batch| - 1].entry.sequence;
            && n <= n' <= Highest(inbox) && (forall m :: m in batch ==> m.entry.sequence <= n')
            && (forall i :: 0 <= i < k + |batch| ==> inbox[i].entry.sequence <= n')
            && (forall i :: k + |batch| <= i < |inbox| ==> inbox[i].entry.sequence > n')
  {
    hide Cut, Highest, SortedBy, NextStretch;
    CutExact(inbox, n);
    StretchJoins(inbox, k);
    var last := k + |batch| - 1;
    assert inbox[last] == batch[|batch| - 1];
    HighestAt(inbox, last);
    AscendingAround(inbox, last);
    forall m | m in batch
      ensures m.entry.sequence <= inbox[last].entry.sequence
    {
      var i :| 0 <= i < |batch| && batch[i] == m;
      assert inbox[k + i] == m;
    }
  }

  lemma {:induction false} AscendingAround(inbox: Inbox, k: nat)
    requires SortedBy(inbox, Before) && k < |inbox|
    ensures forall i :: 0 <= i <= k ==> inbox[i].entry.sequence <= inbox[k].entry.sequence
    ensures forall i :: k < i < |inbox| ==> inbox[i].entry.sequence > inbox[k].entry.sequence
  {
    forall i | 0 <= i < |inbox|
      ensures i <= k ==> inbox[i].entry.sequence <= inbox[k].entry.sequence
      ensures i > k ==> inbox[i].entry.sequence > inbox[k].entry.sequence
    {
      assert i < k ==> Before(inbox[i], inbox[k]);
      assert i > k ==> Before(inbox[k], inbox[i]);
    }
  }

  lemma {:induction false} MarkedBelow(b: Box, batch: Inbox, n': nat)
    requires BoxSound(b) && b.consumed <= n' && forall m :: m in batch ==> m.entry.sequence <= n'
    ensures forall m :: m in Marked(b.inbox, batch) && !m.pending ==> m.entry.sequence <= n'
  {
    hide ReadUpTo, SortedBy;
    var marked := Marked(b.inbox, batch);
    forall m | m in marked && !m.pending
      ensures m.entry.sequence <= n'
    {
      var i :| 0 <= i < |marked| && marked[i] == m;
      assert b.inbox[i] in b.inbox;
      if m.entry in Entries(batch) {
        var j :| 0 <= j < |batch| && Entries(batch)[j] == m.entry;
        assert batch[j] in batch;
      }
    }
  }

  /*----------------------------- pending and rescheduled -----------------------*/

  predicate PendingTask(inbox: Inbox) {
    exists m :: m in inbox && m.pending && m.entry.kind.Task?
  }

  /** A task message that counts as pending although it has been read. */
  predicate StaleTask(b: Box) {
    exists m :: m in b.inbox && m.pending && m.entry.kind.Task? && m.entry.sequence <= b.consumed
  }

  /** n activations in a row without new messages. */
  function Activations(b: Box, n: nat): Box {
    if n == 0 then b else Consumed(Activations(b, n - 1))
  }

  function UnreadCount(b: Box): nat { |b.inbox| - Cut(b.inbox, b.consumed) }

  /** How far n activations get. */
  function Reach(b: Box, n: nat): (k: nat)
    ensures k <= |b.inbox|
  {
    var k := Cut(b.inbox, b.consumed) + MAX_ACTIVATION_INBOX_MESSAGES * n;
    if k <= |b.inbox| then k else |b.inbox|
  }

  /** b' is b with the messages from position k up to k' read. */
  ghost predicate ReadFromTo(b: Box, b': Box, k: nat, k': nat) {
    && |b'.inbox| == |b.inbox| && k <= k' && Cut(b'.inbox, b'.consumed) == k'
    && forall i :: 0 <= i < |b.inbox| ==>
         b'.inbox[i] == b.inbox[i].(pending := b.inbox[i].pending && !(k <= i < k'))
  }

  lemma {:induction false} InStretch(inbox: Inbox, k: nat, i: nat)
    requires SortedBy(inbox, Before) && k <= |inbox| && i < |inbox|
    ensures inbox[i].entry in Entries(NextStretch(inbox, k)) <==> k <= i < k + |NextStretch(inbox, k)|
  {
    var batch := NextStretch(inbox, k);
    StretchJoins(inbox, k);
    if k <= i < k + |batch| {
      assert Entries(batch)[i - k] == inbox[i].entry;
    }
    if inbox[i].entry in Entries(batch) {
      var j :| 0 <= j < |batch| && Entries(batch)[j] == inbox[i].entry;
      assert i < k + j ==> Before(inbox[i], inbox[k + j]);
      assert k + j < i ==> Before(inbox[k + j], inbox[i]);
    }
  }

  /** An activation reads the next 32 messages and touches no other. */
  lemma {:induction false} ConsumedReads(b: Box)
    requires BoxSound(b)
    ensures var k := Cut(b.inbox, b.consumed);
            ReadFromTo(b, Consumed(b), k, k + |NextStretch(b.inbox, k)|)
  {
    hide ReadUpTo, Batch, Entries, SortedBy, Highest, Cut, NextStretch, Marked;
    var k, batch := Cut(b.inbox, b.consumed), Batch(b.inbox, b.consumed);
    BatchIsNext(b);
    forall i | 0 <= i < |b.inbox|
      ensures |Marked(b.inbox, batch)| == |b.inbox|
      ensures Marked(b.inbox, batch)[i] == b.inbox[i].(pending := b.inbox[i].pending && !(k <= i < k + |batch|))
    {
      MarkedAt(b.inbox, k, batch, i);
    }
    MarkedLength(b.inbox, batch);
    ConsumedCut(b);
  }

  lemma {:induction false} MarkedLength(inbox: Inbox, batch: Inbox)
    ensures |Marked(inbox, batch)| == |inbox|
    ensures forall i :: 0 <= i < |inbox| ==> Marked(inbox, batch)[i].entry == inbox[i].entry
  {
  }

  lemma {:induction false} MarkedAt(inbox: Inbox, k: nat, batch: Inbox, i: nat)
    requires SortedBy(inbox, Before) && k <= |inbox| && i < |inbox| && batch == NextStretch(inbox, k)
    ensures |Marked(inbox, batch)| == |inbox|
    ensures Marked(inbox, batch)[i] == inbox[i].(pending := inbox[i].pending && !(k <= i < k + |batch|))
  {
    hide SortedBy, NextStretch, Entries;
    InStretch(inbox, k, i);
  }

  lemma {:induction false} ConsumedCut(b: Box)
    requires BoxSound(b)
    ensures var k := Cut(b.inbox, b.consumed);
            Cut(Consumed(b).inbox, Consumed(b).consumed) == k + |NextStretch(b.inbox, k)|
  {
    hide ReadUpTo, Batch, Entries, SortedBy, Highest, Cut, NextStretch, Marked;
    var k, batch, after := Cut(b.inbox, b.consumed), Batch(b.inbox, b.consumed), Consumed(b);
    BatchIsNext(b);
    StretchJoins(b.inbox, k);
    CutExact(b.inbox, b.consumed);
    MarkedLength(b.inbox, batch);
    if batch == [] {
      CutUnique(after.inbox, after.consumed, k);
    } else {
      var last := k + |batch| - 1;
      assert batch[|batch| - 1] == b.inbox[last];
      AscendingAround(b.inbox, last);
      CutUnique(after.inbox, after.consumed, last + 1);
    }
  }

  /** n activations read the next 32 * n messages and touch no other. */
  lemma {:induction false} ActivationsRead(b: Box, n: nat)
    requires BoxSound(b)
    ensures BoxSound(Activations(b, n))
    ensures ReadFromTo(b, Activations(b, n), Cut(b.inbox, b.consumed), Reach(b, n))
  {
    hide Cut, BoxSound, Batch;
    if n > 0 {
      var before := Activations(b, n - 1);
      ActivationsRead(b, n - 1);
      ConsumeSound(before);
      ConsumedReads(before);
    }
  }

  /** A task message that n activations have not reached yet. */
  predicate TaskAhead(b: Box, n: nat) {
    exists i :: Reach(b, n) <= i < |b.inbox| && b.inbox[i].entry.kind.Task?
  }

  /** After n idle activations the session is rescheduled exactly when a task
      message is ahead, or one is pending that was read before. */
  lemma {:induction false} RescheduledExactly(b: Box, n: nat)
    requires BoxSound(b)
    ensures PendingTask(Activations(b, n).inbox) <==> TaskAhead(b, n) || StaleTask(b)
  {
    hide BoxSound, Activations, Cut, Reach;
    ActivationsRead(b, n);
    PendingSplits(b);
    AllAheadPending(b);
    var k, k', after := Cut(b.inbox, b.consumed), Reach(b, n), Activations(b, n);
    if PendingTask(after.inbox) {
      var m :| m in after.inbox && m.pending && m.entry.kind.Task?;
      var i :| 0 <= i < |after.inbox| && after.inbox[i] == m;
      assert b.inbox[i] in b.inbox;
    }
    if StaleTask(b) {
      var m :| m in b.inbox && m.pending && m.entry.kind.Task? && m.entry.sequence <= b.consumed;
      var i :| 0 <= i < |b.inbox| && b.inbox[i] == m;
      assert after.inbox[i] == m && m in after.inbox;
    }
    if TaskAhead(b, n) {
      var i :| k' <= i < |b.inbox| && b.inbox[i].entry.kind.Task?;
      assert after.inbox[i] in after.inbox;
    }
  }

  lemma {:induction false} PendingSplits(b: Box)
    requires BoxSound(b)
    ensures forall i :: 0 <= i < |b.inbox| ==> (i < Cut(b.inbox, b.consumed) <==> b.inbox[i].entry.sequence <= b.consumed)
  {
    CutExact(b.inbox, b.consumed);
  }

  lemma {:induction false} AllAheadPending(b: Box)
    requires BoxSound(b)
    ensures forall i :: 0 <= i < |b.inbox| && b.inbox[i].entry.sequence > b.consumed ==> b.inbox[i].pending
  {
    hide ReadUpTo, SortedBy;
    forall i | 0 <= i < |b.inbox| && b.inbox[i].entry.sequence > b.consumed
      ensures b.inbox[i].pending
    {
      assert b.inbox[i] in b.inbox;
    }
  }

  /** Rescheduling comes to rest, after one activation per 32 unread messages, if
      and only if no task message is pending although it was read; otherwise every
      idle activation is rescheduled. */
  lemma {:induction false} RestsExactly(b: Box, n: nat)
    requires BoxSound(b)
    ensures MAX_ACTIVATION_INBOX_MESSAGES * n >= UnreadCount(b) ==>
              (PendingTask(Activations(b, n).inbox) <==> StaleTask(b))
    ensures StaleTask(b) ==> PendingTask(Activations(b, n).inbox)
  {
    RescheduledExactly(b, n);
  }

  /*------------------------------ checkpoints and crashes ----------------------*/

  /** What the store holds of the latest checkpoint. */
  datatype Saved = Saved(consumed: nat, transcript: seq<Message>, history: seq<Line>, dropped: nat)

  /** The running session, the stored inbox rows, the latest checkpoint, and the
      read mark of the last start event that was stored. All events of a session
      pass through one queue, and those still in it are lost in a crash; cut says
      that the lost ones have begun. */
  datatype World = World(box: Box, rows: Inbox, saved: Saved, started: nat, cut: bool)

  datatype Op =
    | Enqueue(kind: Kind, sender: string, content: string)
    | Consume
    | Checkpoint
    | ActivationStarted
    | Talk(messages: seq<Message>)
    | Compact(count: nat)
    | CutOff
    | Crash

  /** The session hydrated from the store. */
  function Restored(w: World): Box {
    Box(w.rows, w.saved.consumed, w.saved.transcript, w.saved.history, w.saved.dropped)
  }

  function RowsRead(rows: Inbox, consumed: nat): Inbox {
    seq(|rows|, i requires 0 <= i < |rows| => rows[i].(pending := rows[i].pending && rows[i].entry.sequence > consumed))
  }

  /** agent_activation_started follows the checkpoint of the same activation, and a
      compaction drops no more messages than there are. */
  predicate Enabled(w: World, op: Op) {
    && (op.ActivationStarted? && !w.cut ==> w.saved.consumed == w.box.consumed)
    && (op.Compact? ==> op.count <= |w.box.transcript|)
  }

  function Spoken(b: Box, messages: seq<Message>): Box {
    b.(transcript := b.transcript + messages, history := b.history + SaidLines(messages))
  }

  function Compacted(b: Box, count: nat): Box {
    if count <= |b.transcript| then b.(transcript := b.transcript[count..], dropped := b.dropped + count) else b
  }

  /** What is said is appended to the transcript, and a compaction drops its first messages;
      neither touches the inbox, the rows or what is saved. */
  lemma {:induction false} TalkExact(w: World, messages: seq<Message>, count: nat)
    ensures var w' := Step(w, Talk(messages));
            && w' == w.(box := w'.box) && w'.box.inbox == w.box.inbox && w'.box.consumed == w.box.consumed
            && w'.box.transcript == w.box.transcript + messages && w'.box.dropped == w.box.dropped
    ensures count <= |w.box.transcript| ==>
              var w' := Step(w, Compact(count));
              && Enabled(w, Compact(count)) && w' == w.(box := w'.box)
              && w'.box.inbox == w.box.inbox && w'.box.consumed == w.box.consumed
              && w'.box.transcript == w.box.transcript[count..] && w'.box.history == w.box.history
  {
  }

  lemma {:induction false} TalkSound(b: Box, messages: seq<Message>, count: nat)
    requires BoxSound(b)
    ensures BoxSound(Spoken(b, messages)) && BoxSound(Compacted(b, count))
  {
    hide ReadUpTo, SortedBy, Highest, Carries;
    SaidEnterNothing(b.history, messages);
  }

  function Step(w: World, op: Op): World {
    match op
    case Enqueue(kind, sender, content) =>
      var box := Enqueued(w.box, kind, sender, content);
      var entry := box.inbox[|w.box.inbox|].entry;
      w.(box := box, rows := if w.cut then w.rows else w.rows + [InboxMessage(entry, entry.sequence > w.saved.consumed)])
    case Consume => w.(box := Consumed(w.box))
    case Checkpoint => if w.cut then w else w.(saved := Saved(w.box.consumed, w.box.transcript, w.box.history, w.box.dropped))
    case ActivationStarted => if w.cut then w else w.(rows := RowsRead(w.rows, w.box.consumed), started := w.box.consumed)
    case Talk(messages) => w.(box := Spoken(w.box, messages))
    case Compact(count) => w.(box := Compacted(w.box, count))
    case CutOff => w.(cut := true)
    case Crash => w.(box := Restored(w), cut := false)
  }

  predicate SameEntries(one: Inbox, two: Inbox) {
    |one| == |two| && forall i :: 0 <= i < |one| ==> one[i].entry == two[i].entry
  }

  /** The rows are the first messages of the inbox, all of them until the cut. */
  predicate RowsOfInbox(w: World) {
    && |w.rows| <= |w.box.inbox| && (!w.cut ==> |w.rows| == |w.box.inbox|)
    && forall i :: 0 <= i < |w.rows| ==> w.rows[i].entry == w.box.inbox[i].entry
  }

  /** A stored row is pending exactly if it lies behind the last stored start. */
  predicate RowsPending(w: World) {
    w.started <= w.saved.consumed && forall m :: m in w.rows ==> (m.pending <==> m.entry.sequence > w.started)
  }

  /** The session is sound, and so is what a crash would bring back. */
  ghost predicate WorldSound(w: World) {
    && BoxSound(w.box) && BoxSound(Restored(w)) && RowsOfInbox(w)
    && w.saved.consumed <= w.box.consumed && RowsPending(w)
  }

  lemma {:induction false} EnqueueStepSound(w: World, kind: Kind, sender: string, content: string)
    requires WorldSound(w)
    ensures WorldSound(Step(w, Enqueue(kind, sender, content)))
  {
    hide BoxSound, ReadUpTo;
    EnqueueSound(w.box, kind, sender, content);
    var w' := Step(w, Enqueue(kind, sender, content));
    if w.cut {
      assert Restored(w') == Restored(w);
    } else {
      EnqueueSound(Restored(w), kind, sender, content);
      SameHighest(w.rows, w.box.inbox);
      SavedBelow(w);
      assert Restored(w') == Enqueued(Restored(w), kind, sender, content);
      var next := NextSequence(w.box.inbox);
      assert w'.rows == w.rows + [InboxMessage(Entry(next, kind, sender, content), true)];
      assert next > w.started;
    }
  }

  lemma {:induction false} SavedBelow(w: World)
    requires BoxSound(Restored(w))
    ensures w.saved.consumed <= Highest(w.rows)
  {
  }

  lemma {:induction false} CheckpointSound(w: World)
    requires WorldSound(w) && !w.cut
    ensures BoxSound(Box(w.rows, w.box.consumed, w.box.transcript, w.box.history, w.box.dropped))
  {
    hide ReadUpTo, Highest;
    SameHighest(w.rows, w.box.inbox);
    SameEntriesSameRead(w.rows, w.box.inbox, w.box.consumed);
  }

  lemma {:induction false} RowsReadSound(b: Box)
    requires BoxSound(b)
    ensures BoxSound(b.(inbox := RowsRead(b.inbox, b.consumed))) && Consistent(b.(inbox := RowsRead(b.inbox, b.consumed)))
    ensures SameEntries(RowsRead(b.inbox, b.consumed), b.inbox)
  {
    hide ReadUpTo, Highest, SortedBy;
    var rows := RowsRead(b.inbox, b.consumed);
    SameHighest(rows, b.inbox);
    SameEntriesSameRead(rows, b.inbox, b.consumed);
    SameEntriesSorted(rows, b.inbox);
    forall m | m in rows
      ensures m.pending <==> m.entry.sequence > b.consumed
    {
      var i :| 0 <= i < |rows| && rows[i] == m;
      assert b.inbox[i] in b.inbox;
    }
  }

  lemma {:induction false} SameEntriesSorted(one: Inbox, two: Inbox)
    requires SameEntries(one, two) && SortedBy(two, Before)
    ensures SortedBy(one, Before)
  {
    forall i, j | 0 <= i < j < |one|
      ensures Before(one[i], one[j])
    {
      assert Before(two[i], two[j]);
    }
  }

  lemma {:induction false} StepSound(w: World, op: Op)
    requires WorldSound(w) && Enabled(w, op)
    ensures WorldSound(Step(w, op))
  {
    match op
    case Enqueue(kind, sender, content) => EnqueueStepSound(w, kind, sender, content);
    case Consume => ConsumeStepSound(w);
    case Checkpoint => {
      hide BoxSound;
      if !w.cut {
        CheckpointSound(w);
      }
    }
    case ActivationStarted => StartStepSound(w);
    case Talk(messages) => {
      hide BoxSound, Spoken;
      TalkStepSound(w, messages, 0);
    }
    case Compact(count) => {
      hide BoxSound, Compacted;
      TalkStepSound(w, [], count);
    }
    case CutOff => {
      hide BoxSound;
    }
    case Crash => {
      hide BoxSound;
    }
  }

  lemma {:induction false} TalkStepSound(w: World, messages: seq<Message>, count: nat)
    requires WorldSound(w)
    ensures WorldSound(w.(box := Spoken(w.box, messages))) && WorldSound(w.(box := Compacted(w.box, count)))
  {
    TalkSound(w.box, messages, count);
    assert Restored(w.(box := Spoken(w.box, messages))) == Restored(w) == Restored(w.(box := Compacted(w.box, count)));
    hide BoxSound, Restored;
  }

  lemma {:induction false} ConsumeStepSound(w: World)
    requires WorldSound(w)
    ensures WorldSound(Step(w, Consume))
  {
    hide BoxSound, Batch, Entries, RenderedAll;
    ConsumeSound(w.box);
  }

  lemma {:induction false} StartStepSound(w: World)
    requires WorldSound(w) && Enabled(w, ActivationStarted)
    ensures WorldSound(Step(w, ActivationStarted))
  {
    hide BoxSound;
    if !w.cut {
      RowsReadSound(Restored(w));
      RowsReadPending(w);
    }
    hide RowsRead;
  }

  lemma {:induction false} RowsReadPending(w: World)
    requires RowsPending(w) && Enabled(w, ActivationStarted) && !w.cut
    ensures RowsPending(Step(w, ActivationStarted))
  {
    var rows := RowsRead(w.rows, w.box.consumed);
    forall m | m in rows
      ensures m.pending <==> m.entry.sequence > w.box.consumed
    {
      var i :| 0 <= i < |rows| && rows[i] == m;
      assert w.rows[i] in w.rows;
    }
  }

  predicate EnabledAll(w: World, ops: seq<Op>)
    decreases |ops|
  {
    ops == [] || (Enabled(w, ops[0]) && EnabledAll(Step(w, ops[0]), ops[1..]))
  }

  function StepAll(w: World, ops: seq<Op>): World
    decreases |ops|
  {
    if ops == [] then w else StepAll(Step(w, ops[0]), ops[1..])
  }

  const EMPTY := World(Box([], 0, [], [], 0), [], Saved(0, [], [], 0), 0, false)

  lemma {:induction false} RunSound(w: World, ops: seq<Op>)
    requires WorldSound(w) && EnabledAll(w, ops)
    ensures WorldSound(StepAll(w, ops))
    decreases |ops|
  {
    hide Step, WorldSound;
    if ops != [] {
      StepSound(w, ops[0]);
      RunSound(Step(w, ops[0]), ops[1..]);
    }
  }

  /** Whatever is sent, read, said, compacted, saved and lost on the way: the transcript is
      what compaction has left of its history; the messages the inbox has put into it are
      exactly those up to the read mark, each once and in order, and each as a user
      message that carries it. */
  lemma {:induction false} EachMessageEntersOnce(ops: seq<Op>)
    requires EnabledAll(EMPTY, ops)
    ensures var box := StepAll(EMPTY, ops).box;
            var entered := EntriesOf(box.history);
            && |entered| <= |box.inbox|
            && (forall i :: 0 <= i < |entered| ==> entered[i] == box.inbox[i].entry)
            && (forall i :: 0 <= i < |box.inbox| ==> (i < |entered| <==> box.inbox[i].entry.sequence <= box.consumed))
            && (forall i, j :: 0 <= i < j < |entered| ==> entered[i].sequence < entered[j].sequence)
            && (forall line :: line in box.history && line.Read? ==> Carries(line.entry, line.message))
            && |box.transcript| + box.dropped == |box.history|
            && (forall i :: 0 <= i < |box.transcript| ==> box.transcript[i] == box.history[box.dropped + i].message)
  {
    EmptySound();
    RunSound(EMPTY, ops);
    EnteredExactly(StepAll(EMPTY, ops).box);
  }

  lemma {:induction false} EnteredExactly(b: Box)
    requires BoxSound(b)
    ensures var entered := Entered(b);
            && |entered| <= |b.inbox|
            && (forall i :: 0 <= i < |entered| ==> entered[i] == b.inbox[i].entry)
            && (forall i :: 0 <= i < |b.inbox| ==> (i < |entered| <==> b.inbox[i].entry.sequence <= b.consumed))
            && (forall i, j :: 0 <= i < j < |entered| ==> entered[i].sequence < entered[j].sequence)
    ensures Transcribed(b)
  {
    hide Highest, Cut, SortedBy, Transcribed, Entered;
    var k, entered := Cut(b.inbox, b.consumed), Entered(b);
    CutExact(b.inbox, b.consumed);
    assert |entered| == k && forall i :: 0 <= i < k ==> entered[i] == b.inbox[i].entry;
    forall i, j | 0 <= i < j < |entered|
      ensures entered[i].sequence < entered[j].sequence
    {
      EarlierSmaller(b.inbox, i, j);
    }
  }

  predicate Quiet(op: Op) { !op.Talk? && !op.Compact? }

  /** Every line of the history was read, and none has been dropped. */
  ghost predicate OnlyRead(history: seq<Line>, dropped: nat) {
    dropped == 0 && forall line :: line in history ==> line.Read?
  }

  lemma {:induction false} QuietRun(w: World, ops: seq<Op>)
    requires EnabledAll(w, ops) && forall op :: op in ops ==> Quiet(op)
    requires OnlyRead(w.box.history, w.box.dropped) && OnlyRead(w.saved.history, w.saved.dropped)
    ensures var w' := StepAll(w, ops); OnlyRead(w'.box.history, w'.box.dropped)
    decreases |ops|
  {
    hide Batch, Marked, RenderedAll;
    if ops != [] {
      assert ops[0] in ops;
      QuietRun(Step(w, ops[0]), ops[1..]);
    }
  }

  /** As long as nothing is said and nothing compacted, the transcript is one message for
      each message up to the read mark, in order. */
  lemma {:induction false} InboxIsTranscribed(ops: seq<Op>)
    requires EnabledAll(EMPTY, ops) && forall op :: op in ops ==> !op.Talk? && !op.Compact?
    ensures var box := StepAll(EMPTY, ops).box;
            && |box.transcript| <= |box.inbox|
            && (forall i :: 0 <= i < |box.inbox| ==> (i < |box.transcript| <==> box.inbox[i].entry.sequence <= box.consumed))
            && (forall i :: 0 <= i < |box.transcript| ==> Carries(box.inbox[i].entry, box.transcript[i]))
  {
    hide StepAll, EnabledAll, Carries, EntriesOf;
    EachMessageEntersOnce(ops);
    QuietRun(EMPTY, ops);
    var box := StepAll(EMPTY, ops).box;
    AllRead(box.history);
    forall i | 0 <= i < |box.transcript|
      ensures box.transcript[i] == box.history[i].message && box.history[i] in box.history
    {
      assert box.dropped == 0;
    }
  }

  lemma {:induction false} AllRead(history: seq<Line>)
    requires forall line :: line in history ==> line.Read?
    ensures |EntriesOf(history)| == |history|
    ensures forall i :: 0 <= i < |history| ==> history[i].Read? && EntriesOf(history)[i] == history[i].entry
  {
    if history != [] {
      AllRead(history[..|history| - 1]);
      assert history[|history| - 1] in history;
    }
  }

  lemma {:induction false} EarlierSmaller(inbox: Inbox, i: nat, j: nat)
    requires SortedBy(inbox, Before) && i < j < |inbox|
    ensures inbox[i].entry.sequence < inbox[j].entry.sequence
  {
    assert Before(inbox[i], inbox[j]);
  }

  /** Messages are numbered from 1 without gaps. */
  predicate Numbered(inbox: Inbox) {
    forall i :: 0 <= i < |inbox| ==> inbox[i].entry.sequence == i + 1
  }

  /** Over any run, the messages of the inbox are numbered from 1 in the order in which they
      were sent. */
  lemma {:induction false} SequencesAreNumbered(ops: seq<Op>)
    requires EnabledAll(EMPTY, ops)
    ensures var inbox := StepAll(EMPTY, ops).box.inbox;
            forall i :: 0 <= i < |inbox| ==> inbox[i].entry.sequence == i + 1
  {
    EmptySound();
    NothingNumbered();
    RunNumbered(EMPTY, ops);
    hide StepAll;
  }

  lemma {:induction false} NumberedHighest(inbox: Inbox)
    requires Numbered(inbox)
    ensures NextSequence(inbox) == |inbox| + 1
  {
    if inbox != [] {
      NumberedHighest(inbox[..|inbox| - 1]);
    }
  }

  lemma {:induction false} StepNumbered(w: World, op: Op)
    requires WorldSound(w) && Enabled(w, op) && Numbered(w.box.inbox) && Numbered(w.rows)
    ensures Numbered(Step(w, op).box.inbox) && Numbered(Step(w, op).rows)
  {
    hide BoxSound, Batch, Entries, RenderedAll;
    NumberedHighest(w.box.inbox);
    hide NextSequence;
  }

  lemma {:induction false} RunNumbered(w: World, ops: seq<Op>)
    requires WorldSound(w) && EnabledAll(w, ops) && Numbered(w.box.inbox) && Numbered(w.rows)
    ensures Numbered(StepAll(w, ops).box.inbox) && Numbered(StepAll(w, ops).rows)
    decreases |ops|
  {
    hide Step, WorldSound, Numbered;
    if ops != [] {
      StepSound(w, ops[0]);
      StepNumbered(w, ops[0]);
      RunNumbered(Step(w, ops[0]), ops[1..]);
    }
  }

  /** What a crash does to the inbox, over any run: exactly the messages whose rows
      were still on their way are gone, and there are some only after the cut. Their
      numbers are the next ones to be given out, and none of those is up to the read
      mark: whatever is sent next will be read. */
  lemma {:induction false} CrashLosesExactly(ops: seq<Op>, kind: Kind, sender: string, content: string)
    requires EnabledAll(EMPTY, ops)
    ensures var w := StepAll(EMPTY, ops);
            var after := Step(w, Crash).box;
            && |after.inbox| == |w.rows| <= |w.box.inbox|
            && Entries(after.inbox) == Entries(w.box.inbox)[..|w.rows|] && (!w.cut ==> |w.rows| == |w.box.inbox|)
            && (forall i :: |w.rows| <= i < |w.box.inbox| ==>
                  w.box.inbox[i].entry.sequence == NextSequence(after.inbox) + (i - |w.rows|))
            && Entered(after) <= Entered(w.box)
            && var next := Enqueued(after, kind, sender, content);
               |next.inbox| == |w.rows| + 1 && Unread(next.inbox[|w.rows|], next.consumed)
  {
    hide *;
    EmptySound();
    RunSound(EMPTY, ops);
    NothingNumbered();
    RunNumbered(EMPTY, ops);
    var w := StepAll(EMPTY, ops);
    CrashBox(w);
    LostIsSuffix(w);
    NextIsUnread(Restored(w), kind, sender, content);
  }

  lemma {:induction false} NothingNumbered()
    ensures Numbered(EMPTY.box.inbox) && Numbered(EMPTY.rows)
  {
  }

  lemma {:induction false} NextIsUnread(b: Box, kind: Kind, sender: string, content: string)
    requires BoxSound(b)
    ensures var next := Enqueued(b, kind, sender, content);
            |next.inbox| == |b.inbox| + 1 && Unread(next.inbox[|b.inbox|], next.consumed)
  {
    hide ReadUpTo, SortedBy;
  }

  lemma {:induction false} LostIsSuffix(w: World)
    requires WorldSound(w) && Numbered(w.box.inbox) && Numbered(w.rows)
    ensures |w.rows| <= |w.box.inbox| && Entries(w.rows) == Entries(w.box.inbox)[..|w.rows|]
    ensures Restored(w).inbox == w.rows && (!w.cut ==> |w.rows| == |w.box.inbox|)
    ensures Entered(Restored(w)) <= Entered(w.box)
    ensures forall i :: |w.rows| <= i < |w.box.inbox| ==>
              w.box.inbox[i].entry.sequence == NextSequence(w.rows) + (i - |w.rows|)
  {
    NumberedHighest(w.rows);
    hide Highest, SortedBy, Cut, NextSequence;
    CutExact(w.rows, w.saved.consumed);
    CutExact(w.box.inbox, w.box.consumed);
    var k, k' := Cut(w.rows, w.saved.consumed), Cut(w.box.inbox, w.box.consumed);
    if k > 0 {
      assert w.rows[k - 1].entry.sequence <= w.box.consumed;
    }
    assert k <= k';
  }

  /** A stored message between the last stored start and the saved read mark. */
  predicate InGap(w: World, m: InboxMessage) {
    m in w.rows && w.started < m.entry.sequence <= w.saved.consumed
  }

  /** Over any run: a crash brings back an inbox that agrees with the read mark if
      and only if no stored message lies between the last stored start of an
      activation and the saved mark, and it brings back a session that reschedules
      itself for ever if and only if a task message does. */
  lemma {:induction false} CrashExact(ops: seq<Op>)
    requires EnabledAll(EMPTY, ops)
    ensures var w := StepAll(EMPTY, ops);
            var box := Step(w, Crash).box;
            && (Consistent(box) <==> forall m :: !InGap(w, m))
            && (StaleTask(box) <==> exists m :: InGap(w, m) && m.entry.kind.Task?)
            && (StaleTask(box) <==> forall n :: PendingTask(Activations(box, n).inbox))
  {
    hide *;
    EmptySound();
    RunSound(EMPTY, ops);
    var w := StepAll(EMPTY, ops);
    CrashBox(w);
    GapIsStale(w);
    ForEver(Restored(w));
  }

  lemma {:induction false} CrashBox(w: World)
    requires WorldSound(w)
    ensures Step(w, Crash).box == Restored(w) && BoxSound(Restored(w)) && RowsPending(w)
  {
  }

  lemma {:induction false} ForEver(b: Box)
    requires BoxSound(b)
    ensures StaleTask(b) <==> forall n :: PendingTask(Activations(b, n).inbox)
  {
    hide BoxSound, PendingTask, UnreadCount, StaleTask, Activations;
    forall n: nat
      ensures StaleTask(b) ==> PendingTask(Activations(b, n).inbox)
    {
      RestsExactly(b, n);
    }
    RestsExactly(b, UnreadCount(b));
  }

  lemma {:induction false} GapIsStale(w: World)
    requires RowsPending(w)
    ensures Consistent(Restored(w)) <==> forall m :: !InGap(w, m)
    ensures StaleTask(Restored(w)) <==> exists m :: InGap(w, m) && m.entry.kind.Task?
  {
    if m :| InGap(w, m) {
      assert m in Restored(w).inbox && m.pending;
    }
    if StaleTask(Restored(w)) {
      var m :| m in w.rows && m.pending && m.entry.kind.Task? && m.entry.sequence <= w.saved.consumed;
      assert InGap(w, m);
    }
    if !Consistent(Restored(w)) {
      var m :| m in w.rows && m.pending && m.entry.sequence <= w.saved.consumed;
      assert InGap(w, m);
    }
  }

  /** One message, read and saved, and the process dies before the start event. */
  function DiesBeforeStart(kind: Kind): seq<Op> {
    [Enqueue(kind, "a", "hello"), Consume, Checkpoint, Crash]
  }

  /** The shortest run into the gap. A task message makes the session reschedule
      itself for ever; a peer message is stale as well, but lets it rest. */
  lemma {:induction false} CrashLeavesStale(kind: Kind, n: nat)
    ensures EnabledAll(EMPTY, DiesBeforeStart(kind))
    ensures var box := StepAll(EMPTY, DiesBeforeStart(kind)).box;
            && !Consistent(box) && BoxSound(box)
            && (PendingTask(Activations(box, n).inbox) <==> kind.Task?)
  {
    hide StepAll, BoxSound, Activations, PendingTask, EnabledAll, DiesBeforeStart;
    GapIsReached(kind);
    var box := StepAll(EMPTY, DiesBeforeStart(kind)).box;
    assert box.inbox[0] in box.inbox;
    NothingAhead(box, n);
    RescheduledExactly(box, n);
  }

  lemma {:induction false} GapIsReached(kind: Kind)
    ensures EnabledAll(EMPTY, DiesBeforeStart(kind))
    ensures var box := StepAll(EMPTY, DiesBeforeStart(kind)).box;
            BoxSound(box) && box.inbox == [InboxMessage(Entry(1, kind, "a", "hello"), true)] && box.consumed == 1
  {
    hide BoxSound, WorldSound, Consumed, EnabledAll, StepAll, DiesBeforeStart, Enqueued;
    EmptySound();
    var w1 := FirstMessage(kind);
    SoundParts(w1);
    OneMessageRead(w1.box, w1.box.inbox[0]);
    var w2 := Step(w1, Consume);
    var w3 := Step(w2, Checkpoint);
    FourSteps(kind, w1, w2, w3, Step(w3, Crash));
    RunSound(EMPTY, DiesBeforeStart(kind));
    SoundParts(Step(w3, Crash));
  }

  lemma {:induction false} EmptySound()
    ensures WorldSound(EMPTY)
  {
  }

  lemma {:induction false} FirstMessage(kind: Kind) returns (w: World)
    ensures w == Step(EMPTY, Enqueue(kind, "a", "hello")) && WorldSound(w)
    ensures w.box.inbox == w.rows == [InboxMessage(Entry(1, kind, "a", "hello"), true)] && w.box.consumed == 0
  {
    w := Step(EMPTY, Enqueue(kind, "a", "hello"));
    EmptySound();
    StepSound(EMPTY, Enqueue(kind, "a", "hello"));
    hide WorldSound;
  }

  lemma {:induction false} SoundParts(w: World)
    requires WorldSound(w)
    ensures BoxSound(w.box)
  {
  }

  lemma {:induction false} FourSteps(kind: Kind, w1: World, w2: World, w3: World, w4: World)
    requires w1 == Step(EMPTY, Enqueue(kind, "a", "hello")) && w2 == Step(w1, Consume)
    requires w3 == Step(w2, Checkpoint) && w4 == Step(w3, Crash)
    ensures EnabledAll(EMPTY, DiesBeforeStart(kind)) && StepAll(EMPTY, DiesBeforeStart(kind)) == w4
  {
    hide Step;
    var ops := DiesBeforeStart(kind);
    assert ops[1..] == [Consume, Checkpoint, Crash] && ops[1..][1..] == [Checkpoint, Crash];
    assert ops[1..][1..][1..] == [Crash] && [Crash][1..] == [];
  }

  lemma {:induction false} OneMessageRead(b: Box, m: InboxMessage)
    requires BoxSound(b) && b.inbox == [m] && b.consumed == 0 && m.entry.sequence == 1
    ensures Consumed(b).consumed == 1
  {
    hide Batch, BoxSound;
    BatchIsNext(b);
  }

  lemma {:induction false} NothingAhead(b: Box, n: nat)
    requires |b.inbox| == 1 && b.inbox[0].entry.sequence <= b.consumed
    ensures !TaskAhead(b, n)
  {
  }

  /*----------------------------------- the session -----------------------------*/

  datatype Status = Idle | Running | Interrupted | Failed | Closed

  datatype SendError = Unauthorized | NotFound | SelfTarget | SessionClosed | TooLarge | InboxFull

  function PendingPeers(inbox: Inbox): nat {
    if inbox == [] then 0
    else
      var m := inbox[|inbox| - 1];
      PendingPeers(inbox[..|inbox| - 1]) + if m.pending && m.entry.kind.Peer? then 1 else 0
  }

  /** Exactly the messages of peers that are pending count. */
  lemma {:induction false} PendingPeersExact(inbox: Inbox)
    ensures PendingPeers(inbox) == |set i | 0 <= i < |inbox| && inbox[i].pending && inbox[i].entry.kind.Peer?|
  {
    var places := set i | 0 <= i < |inbox| && inbox[i].pending && inbox[i].entry.kind.Peer?;
    if inbox == [] {
      assert places == {};
    } else {
      var n := |inbox| - 1;
      PendingPeersExact(inbox[..n]);
      var before := set i | 0 <= i < n && inbox[..n][i].pending && inbox[..n][i].entry.kind.Peer?;
      assert places == before + if inbox[n].pending && inbox[n].entry.kind.Peer? then {n} else {};
    }
  }

  class Session {
    const agentId: string
    const teamId: string
    var inbox: Inbox
    var consumed: nat
    var transcript: seq<Message>
    var status: Status
    var active: bool
    ghost var history: seq<Line>
    ghost var dropped: nat

    constructor (agentId: string, teamId: string)
      ensures BoxSound(View()) && Consistent(View()) && inbox == [] && status == Idle && !active
      ensures this.agentId == agentId && this.teamId == teamId
    {
      this.agentId, this.teamId := agentId, teamId;
      inbox, consumed, transcript, status, active, history, dropped := [], 0, [], Idle, false, [], 0;
    }

    ghost function View(): Box
      reads this
    {
      Box(inbox, consumed, transcript, history, dropped)
    }

    method Enqueue(kind: Kind, sender: string, content: string) returns (m: InboxMessage)
      requires BoxSound(View())
      modifies this`inbox
      ensures View() == Enqueued(old(View()), kind, sender, content) && BoxSound(View())
      ensures inbox == old(inbox) + [m] && m.pending && m.entry == Entry(NextSequence(old(inbox)), kind, sender, content)
    {
      EnqueueSound(View(), kind, sender, content);
      var highest := FindHighest();
      m := InboxMessage(Entry(highest + 1, kind, sender, content), true);
      inbox := inbox + [m];
    }

    method FindHighest() returns (highest: nat)
      ensures highest == Highest(inbox)
    {
      highest := 0;
      for i := 0 to |inbox|
        invariant highest == Highest(inbox[..i])
      {
        assert inbox[..i + 1][..i] == inbox[..i];
        if highest < inbox[i].entry.sequence {
          highest := inbox[i].entry.sequence;
        }
      }
      assert inbox[..|inbox|] == inbox;
    }

    /** A new activation is started unless one is running. */
    method Schedule() returns (started: bool)
      modifies this`active
      ensures active && started == !old(active)
    {
      started := !active;
      active := true;
    }

    /** A task message wakes the session. */
    method Send(sender: string, content: string) returns (r: Result<nat, SendError>)
      requires BoxSound(View())
      modifies this`inbox, this`active
      ensures BoxSound(View())
      ensures r.Err? <==> old(status) == Closed
      ensures r.Err? ==> inbox == old(inbox) && active == old(active)
      ensures r.Ok? ==> View() == Enqueued(old(View()), Task, sender, content) && active && r.value == Highest(inbox)
    {
      if status == Closed {
        return Err(SessionClosed);
      }
      var m := Enqueue(Task, sender, content);
      var started := Schedule();
      assert inbox[..|inbox| - 1] == old(inbox);
      return Ok(m.entry.sequence);
    }

    method CountPendingPeers() returns (count: nat)
      ensures count == PendingPeers(inbox)
    {
      count := 0;
      for i := 0 to |inbox|
        invariant count == PendingPeers(inbox[..i])
      {
        assert inbox[..i + 1][..i] == inbox[..i];
        if inbox[i].pending && inbox[i].entry.kind.Peer? {
          count := count + 1;
        }
      }
      assert inbox[..|inbox|] == inbox;
    }

    /** A peer message waits quietly; at most 100 of them wait. */
    method AcceptPeer(sender: string, content: string) returns (r: Result<nat, SendError>)
      requires BoxSound(View())
      modifies this`inbox
      ensures BoxSound(View())
      ensures r.Err? ==> inbox == old(inbox)
      ensures r == Err(SessionClosed) <==> status == Closed
      ensures r == Err(TooLarge) <==> status != Closed && |content| > MAX_PEER_MESSAGE_LENGTH
      ensures r == Err(InboxFull) <==> status != Closed && |content| <= MAX_PEER_MESSAGE_LENGTH
                                       && PendingPeers(old(inbox)) >= MAX_PENDING_PEER_MESSAGES
      ensures r.Err? ==> r.error in {SessionClosed, TooLarge, InboxFull}
      ensures r.Ok? ==> View() == Enqueued(old(View()), Peer, sender, content) && r.value == Highest(inbox)
      ensures r.Ok? ==> PendingPeers(inbox) == PendingPeers(old(inbox)) + 1 <= MAX_PENDING_PEER_MESSAGES
      ensures PendingTask(inbox) <==> PendingTask(old(inbox))
    {
      if status == Closed {
        return Err(SessionClosed);
      }
      if |content| > MAX_PEER_MESSAGE_LENGTH {
        return Err(TooLarge);
      }
      var pending := CountPendingPeers();
      if pending >= MAX_PENDING_PEER_MESSAGES {
        return Err(InboxFull);
      }
      var m := Enqueue(Peer, sender, content);
      assert inbox[..|inbox| - 1] == old(inbox);
      return Ok(m.entry.sequence);
    }

    /** The start of an activation: reads at most 32 pending messages. */
    method ReadInbox()
      requires BoxSound(View())
      modifies this`inbox, this`consumed, this`transcript, this`history, this`status
      ensures View() == Consumed(old(View())) && BoxSound(View()) && status == Running
    {
      hide BoxSound, Batch, Rendered, Marked, MarkOne, RenderedAll, LinesOf, Entered, Cut, NextStretch, Entries;
      ConsumeSound(View());
      status := Running;
      var pending := TakeBatch(inbox, consumed);
      MarkedNone(inbox, pending);
      for i := 0 to |pending|
        invariant inbox == Marked(old(inbox), pending[..i]) && transcript == old(transcript) + RenderedAll(pending[..i])
        invariant history == old(history) + LinesOf(pending[..i])
        invariant consumed == if i == 0 then old(consumed) else pending[i - 1].entry.sequence
        invariant status == Running
      {
        MarkedNext(old(inbox), pending, i);
        transcript := transcript + [Rendered(pending[i])];
        inbox := MarkOne(inbox, pending[i]);
        consumed := pending[i].entry.sequence;
        history := history + [Read(pending[i].entry, Rendered(pending[i]))];
      }
      assert pending[..|pending|] == pending;
    }

    method TakeBatch(inbox: Inbox, mark: nat) returns (batch: Inbox)
      ensures batch == Batch(inbox, mark)
    {
      var unread := Sort(Filter(inbox, (m: InboxMessage) => Unread(m, mark)), NotAfter);
      batch := if |unread| <= MAX_ACTIVATION_INBOX_MESSAGES then unread else unread[..MAX_ACTIVATION_INBOX_MESSAGES];
    }

    lemma {:induction false} MarkedNone(inbox: Inbox, batch: Inbox)
      ensures Marked(inbox, batch[..0]) == inbox && RenderedAll(batch[..0]) == [] && LinesOf(batch[..0]) == []
    {
    }

    lemma {:induction false} MarkedNext(inbox: Inbox, batch: Inbox, i: nat)
      requires i < |batch|
      ensures MarkOne(Marked(inbox, batch[..i]), batch[i]) == Marked(inbox, batch[..i + 1])
      ensures RenderedAll(batch[..i]) + [Rendered(batch[i])] == RenderedAll(batch[..i + 1])
      ensures LinesOf(batch[..i]) + [Read(batch[i].entry, Rendered(batch[i]))] == LinesOf(batch[..i + 1])
    {
      assert Entries(batch[..i]) + [batch[i].entry] == Entries(batch[..i + 1]);
    }

    /** The end of an activation; only an idle session with a pending task goes on. */
    method Finish(outcome: Status) returns (rescheduled: bool)
      modifies this`status, this`active
      ensures status == outcome && active == rescheduled
      ensures rescheduled <==> outcome == Idle && PendingTask(inbox)
    {
      status, active, rescheduled := outcome, false, false;
      if status == Idle && PendingTask(inbox) {
        rescheduled := Schedule();
      }
    }
  }

  const SUPERVISOR := "supervisor"

  class ContinuableSessionManager {
    const teamId: string
    var sessions: map<string, Session>
    var agentIndex: map<string, string>

    constructor (teamId: string)
      ensures this.teamId == (if teamId == "" then "local" else teamId) && sessions == map[] && agentIndex == map[]
    {
      this.teamId := if teamId == "" then "local" else teamId;
      sessions, agentIndex := map[], map[];
    }

    /** A session by its own id or by the id of its agent. */
    function SessionByTarget(target: string): Session?
      reads this
    {
      if target in sessions then sessions[target]
      else
        var id := if target in agentIndex then agentIndex[target] else "";
        if id in sessions then sessions[id] else null
    }

    function CallerTeam(caller: string, taskId: string): string
      reads this
    {
      var s := SessionByTarget(caller);
      if s != null then s.teamId else if taskId != "" then taskId else teamId
    }

    predicate IsTeamMember(caller: string, team: string)
      reads this
    {
      if caller == SUPERVISOR then team == teamId
      else SessionByTarget(caller) != null && SessionByTarget(caller).teamId == team
    }

    /** The receiver of a peer message: a session of the caller's team. */
    function Peer(caller: string, taskId: string, target: string): Session?
      reads this
    {
      var s := SessionByTarget(target);
      if s == null || s.teamId != CallerTeam(caller, taskId) then null else s
    }

    /** Who may write to whom. A session speaks for its own team; only the supervisor may
        speak without a session, and then for the manager's team, unless a task of another
        team is named. A message reaches the session of that id, or of the agent of that id,
        if it is in the team the caller speaks for. */
    lemma {:induction false} TeamRules(caller: string, taskId: string, target: string)
      ensures var own := SessionByTarget(caller);
              && (own != null ==>
                    (IsTeamMember(caller, CallerTeam(caller, taskId)) <==> caller != "supervisor" || own.teamId == teamId))
              && (own == null ==>
                    (IsTeamMember(caller, CallerTeam(caller, taskId))
                     <==> caller == "supervisor" && (taskId == "" || taskId == teamId)))
      ensures var own, s := SessionByTarget(caller), SessionByTarget(target);
              if s != null && s.teamId == (if own != null then own.teamId else if taskId == "" then teamId else taskId)
              then Peer(caller, taskId, target) == s else Peer(caller, taskId, target) == null
      ensures forall name :: name in sessions ==> SessionByTarget(name) == sessions[name]
      ensures forall name :: name !in sessions && name in agentIndex ==>
                SessionByTarget(name) == if agentIndex[name] in sessions then sessions[agentIndex[name]] else null
      ensures forall name :: name !in sessions && name !in agentIndex && "" !in sessions ==> SessionByTarget(name) == null
      ensures SenderId(caller) == if caller == "" then "supervisor" else caller
    {
    }

    ghost function Addressed(target: string): set<object>
      reads this
    {
      if SessionByTarget(target) == null then {} else {SessionByTarget(target)}
    }

    /** Which refusal, if any, and what an accepted message does; nobody but the
        receiver is touched. */
    method SendPeer(caller: string, taskId: string, target: string, content: string)
      returns (r: Result<nat, SendError>)
      requires SessionByTarget(target) != null ==> BoxSound(SessionByTarget(target).View())
      modifies Addressed(target)
      ensures sessions == old(sessions) && agentIndex == old(agentIndex)
      ensures r == Err(Unauthorized) <==> !IsTeamMember(caller, CallerTeam(caller, taskId))
      ensures r == Err(NotFound) <==>
                IsTeamMember(caller, CallerTeam(caller, taskId)) && Peer(caller, taskId, target) == null
      ensures IsTeamMember(caller, CallerTeam(caller, taskId)) && Peer(caller, taskId, target) != null ==>
                var s := Peer(caller, taskId, target);
                && (r == Err(SelfTarget) <==> s.agentId == SenderId(caller))
                && (r == Err(SessionClosed) <==> s.agentId != SenderId(caller) && s.status == Closed)
                && (r == Err(TooLarge) <==> s.agentId != SenderId(caller) && s.status != Closed
                                            && |content| > MAX_PEER_MESSAGE_LENGTH)
                && (r == Err(InboxFull) <==> s.agentId != SenderId(caller) && s.status != Closed
                                             && |content| <= MAX_PEER_MESSAGE_LENGTH
                                             && PendingPeers(old(s.inbox)) >= MAX_PENDING_PEER_MESSAGES)
                && BoxSound(s.View()) && (PendingTask(s.inbox) <==> PendingTask(old(s.inbox)))
                && (r.Ok? ==> s.View() == Enqueued(old(s.View()), Kind.Peer, SenderId(caller), content)
                              && r.value == Highest(s.inbox) && PendingPeers(s.inbox) <= MAX_PENDING_PEER_MESSAGES)
                && (r.Err? ==> s.View() == old(s.View()))
    {
      hide BoxSound, PendingTask, Enqueued;
      if !IsTeamMember(caller, CallerTeam(caller, taskId)) {
        return Err(Unauthorized);
      }
      var s := Peer(caller, taskId, target);
      if s == null {
        return Err(NotFound);
      }
      if s.agentId == SenderId(caller) {
        return Err(SelfTarget);
      }
      r := s.AcceptPeer(SenderId(caller), content);
    }
  }

  function SenderId(caller: string): string {
    if caller == "" then SUPERVISOR else caller
  }

  /** message.status = "consumed" */
  function MarkOne(inbox: Inbox, m: InboxMessage): Inbox {
    seq(|inbox|, i requires 0 <= i < |inbox| => inbox[i].(pending := inbox[i].pending && inbox[i].entry != m.entry))
  }
}
