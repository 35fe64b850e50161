/** `SubscribeEvents` of both providers: a cursor moved forward by polls, over a log that changes in between. */
module Events {
  import opened Messages
  import opened Scans
  import opened Queries
  import opened Views
  import opened Sqlite

  // ---------- Events ----------

  function TypeName(kind: MessageType): string {
    match kind
    case ClaimMsg => "claim"
    case HeartbeatMsg => "heartbeat"
    case ReleaseMsg => "release"
    case TransferMsg => "transfer"
    case EscalateMsg => "escalate"
    case IntentMsg => "intent"
    case MailboxSendMsg => "mailbox_send"
    case MailboxReadMsg => "mailbox_read"
    case MailboxArchiveMsg => "mailbox_archive"
    case OtherMsg(name) => name
  }

  /** `messageTypeToEventType` of the memory provider. */
  function MemoryEventType(kind: MessageType): string {
    match kind
    case ClaimMsg => "claim"
    case ReleaseMsg => "release"
    case TransferMsg => "release"
    case HeartbeatMsg => "heartbeat"
    case MailboxSendMsg => "mailbox_send"
    case MailboxReadMsg => "mailbox_send"
    case MailboxArchiveMsg => "mailbox_send"
    case _ => TypeName(kind)
  }

  /** `msgTypeToEvent` of the SQLite provider. */
  function SqliteEventType(kind: MessageType): string {
    match kind
    case ClaimMsg => "claim"
    case ReleaseMsg => "release"
    case HeartbeatMsg => "heartbeat"
    case _ => TypeName(kind)
  }

  /** Subscribers of the two providers see the same event types except for transfers and mailbox bookkeeping. */
  lemma EventTypesAgreeIff(kind: MessageType)
    ensures MemoryEventType(kind) == SqliteEventType(kind)
            <==> !kind.TransferMsg? && !kind.MailboxReadMsg? && !kind.MailboxArchiveMsg?
  {
    assert "release"[0] == 'r' && "transfer"[0] == 't';
    assert |"mailbox_send"| == |"mailbox_read"| && "mailbox_send"[8] == 's' && "mailbox_read"[8] == 'r';
    assert "mailbox_archive"[8] == 'a';
  }

  /** The types subscribers are promised. */
  lemma EventTypes()
    ensures MemoryEventType(ClaimMsg) == "claim" == SqliteEventType(ClaimMsg)
    ensures MemoryEventType(ReleaseMsg) == "release" == SqliteEventType(ReleaseMsg)
    ensures MemoryEventType(HeartbeatMsg) == "heartbeat" == SqliteEventType(HeartbeatMsg)
    ensures MemoryEventType(TransferMsg) == "release" && SqliteEventType(TransferMsg) == "transfer"
    ensures forall kind :: kind in [MailboxSendMsg, MailboxReadMsg, MailboxArchiveMsg] ==> MemoryEventType(kind) == "mailbox_send"
  {}

  // ---------- Polling ----------

  /** A subscription: where it stands, and the messages behind the events it has sent. */
  datatype Stream = Stream(since: int, sent: seq<Message>)

  function After(since: int): QueryOpts { QueryOpts(since, [], "", 0) }

  function Pending(log: seq<Message>, since: int): seq<Message> { Matching(log, After(since)) }

  /** What a poll cancelled after `budget` events sends; everything, if the budget is large enough. */
  function Cut(pending: seq<Message>, budget: nat): seq<Message> {
    if budget < |pending| then pending[..budget] else pending
  }

  function Polled(st: Stream, log: seq<Message>, budget: nat): Stream {
    var cut := Cut(Pending(log, st.since), budget);
    Stream(if cut == [] then st.since else Last(cut).offset, st.sent + cut)
  }

  /** Moving the cursor over what was sent leaves exactly the rest pending. */
  lemma PollSplits(log: seq<Message>, st: Stream, budget: nat)
    requires Sorted(log)
    ensures Cut(Pending(log, st.since), budget) + Pending(log, Polled(st, log, budget).since) == Pending(log, st.since)
  {
    var pending := Pending(log, st.since);
    var cut := Cut(pending, budget);
    if cut != [] {
      MatchingAfter(log, After(st.since), |cut| - 1);
      assert pending[|cut| - 1] == Last(cut);
      assert pending == pending[..|cut|] + pending[|cut|..];
    }
  }

  /** A poll sends, in order, as many of the pending messages as there is budget for, and the cursor stands on the last. */
  lemma PollSends(log: seq<Message>, st: Stream, budget: nat)
    ensures var pending, next := Pending(log, st.since), Polled(st, log, budget);
            var n := if budget < |pending| then budget else |pending|;
            && next.sent == st.sent + pending[..n]
            && next.since == if n == 0 then st.since else pending[n - 1].offset
  {
    var pending := Pending(log, st.since);
    assert pending[..|pending|] == pending;
  }

  lemma CutIsOrdered(pending: seq<Message>, budget: nat)
    requires Sorted(pending)
    ensures Sorted(Cut(pending, budget))
    ensures forall m :: m in Cut(pending, budget) ==> m in pending && m.offset <= Last(Cut(pending, budget)).offset
  {
    var cut := Cut(pending, budget);
    forall m | m in cut ensures m in pending && m.offset <= Last(cut).offset {
      var k :| 0 <= k < |cut| && cut[k] == m;
      assert pending[k] == m;
      assert k < |cut| - 1 ==> cut[k].offset < cut[|cut| - 1].offset;
    }
  }

  lemma CutFacts(log: seq<Message>, st: Stream, budget: nat)
    requires Sorted(log)
    ensures var cut, next := Cut(Pending(log, st.since), budget), Polled(st, log, budget).since;
            && Sorted(cut) && st.since <= next
            && (forall m :: m in cut ==> m in log && st.since < m.offset <= next)
            && (cut != [] ==> Last(cut) in log && next == Last(cut).offset)
            && (cut == [] ==> next == st.since)
  {
    MatchingIsOrdered(log, After(st.since));
    CutIsOrdered(Pending(log, st.since), budget);
  }

  /** The goroutine of either `SubscribeEvents`, one poll at a time. */
  class Subscriber {
    var since: int
    var sent: seq<Message>

    constructor (since: int)
      ensures this.since == since && sent == []
    {
      this.since := since;
      this.sent := [];
    }

    ghost function State(): Stream
      reads this
    {
      Stream(since, sent)
    }

    /** Sends one event unless the subscription is cancelled first. */
    method Send(m: Message)
      modifies this
      ensures since == m.offset && sent == old(sent) + [m]
    {
      sent := sent + [m];
      since := m.offset;
    }

    /** The memory provider walks the whole log, skipping what lies at or before the moving cursor. */
    method PollMemory(msgs: seq<Message>, budget: nat)
      requires Sorted(msgs)
      modifies this
      ensures State() == Polled(old(State()), msgs, budget)
    {
      ghost var st := State();
      var room: nat := budget;
      for i := 0 to |msgs|
        invariant State() == Polled(st, msgs[..i], budget)
        invariant room + |Pending(msgs[..i], st.since)| == budget
      {
        assert msgs[..i + 1] == msgs[..i] + [msgs[i]];
        WalkOne(st, msgs, i, budget);
        if msgs[i].offset <= since { continue; }
        if room == 0 { return; }
        Send(msgs[i]);
        room := room - 1;
      }
      assert msgs[..|msgs|] == msgs;
    }

    /** The SQLite provider asks for the rows after the cursor, in order, and sends them. */
    method PollRows(rows: seq<Row>, budget: nat)
      requires Ordered(rows)
      modifies this
      ensures State() == Polled(old(State()), MessagesOf(rows), budget)
    {
      RowsAfterIsPending(rows, since);
      SendRows(RowsAfter(rows, since), budget);
    }

    method SendRows(found: seq<Row>, budget: nat)
      requires forall k :: 0 <= k < |found| ==> found[k].seqNo == found[k].msg.offset
      modifies this
      ensures var cut := Cut(MessagesOf(found), budget);
              sent == old(sent) + cut && since == if cut == [] then old(since) else Last(cut).offset
    {
      MessagesFacts(found);
      ghost var pending := MessagesOf(found);
      var i := 0;
      while i < |found| && i < budget
        invariant 0 <= i <= |found| && i <= budget
        invariant sent == old(sent) + pending[..i]
        invariant since == if i == 0 then old(since) else pending[i - 1].offset
      {
        assert pending[..i + 1] == pending[..i] + [found[i].msg];
        sent := sent + [found[i].msg];
        since := found[i].seqNo;
        i := i + 1;
      }
      assert pending[..i] == Cut(pending, budget);
    }
  }

  /** One more message of a walk that has had room for everything so far. */
  lemma WalkOne(st: Stream, msgs: seq<Message>, i: nat, budget: nat)
    requires Sorted(msgs) && i < |msgs| && |Pending(msgs[..i], st.since)| <= budget
    ensures Pending(msgs[..i + 1], st.since)
            == Pending(msgs[..i], st.since) + if msgs[i].offset > st.since then [msgs[i]] else []
    ensures msgs[i].offset > st.since <==> msgs[i].offset > Polled(st, msgs[..i], budget).since
    ensures |Pending(msgs[..i], st.since)| == budget && msgs[i].offset > st.since
            ==> Polled(st, msgs, budget) == Polled(st, msgs[..i], budget)
  {
    assert msgs[..i + 1] == msgs[..i] + [msgs[i]];
    MatchingConcat(msgs[..i], msgs[i], After(st.since));
    CutFacts(msgs[..i], st, budget);
    if |Pending(msgs[..i], st.since)| == budget { CutIsStable(st, msgs, i, budget); }
  }

  /** A poll that has used up its budget on a prefix of the log sends nothing more. */
  lemma CutIsStable(st: Stream, msgs: seq<Message>, i: nat, budget: nat)
    requires i <= |msgs| && |Pending(msgs[..i], st.since)| == budget
    ensures Polled(st, msgs, budget) == Polled(st, msgs[..i], budget)
  {
    MatchingPrefix(msgs, i, After(st.since));
    assert Cut(Pending(msgs, st.since), budget) == Pending(msgs[..i], st.since);
  }

  /** `SELECT … WHERE seq > ? ORDER BY seq` on a table whose rows are in seq order. */
  function RowsAfter(rows: seq<Row>, since: int): seq<Row> {
    if rows == [] then []
    else RowsAfter(Init(rows), since) + if Last(rows).seqNo > since then [Last(rows)] else []
  }

  lemma {:induction false} RowsAfterIsPending(rows: seq<Row>, since: int)
    requires Ordered(rows)
    ensures MessagesOf(RowsAfter(rows, since)) == Pending(MessagesOf(rows), since)
    ensures forall k :: 0 <= k < |RowsAfter(rows, since)| ==>
              RowsAfter(rows, since)[k].seqNo == RowsAfter(rows, since)[k].msg.offset
  {
    if rows != [] {
      assert Last(rows) == rows[|rows| - 1];
      RowsAfterIsPending(Init(rows), since);
      var found := RowsAfter(Init(rows), since);
      if Last(rows).seqNo > since {
        assert Init(found + [Last(rows)]) == found && Last(found + [Last(rows)]) == Last(rows);
      } else {
        assert RowsAfter(rows, since) == found;
      }
      MatchingConcat(MessagesOf(Init(rows)), Last(rows).msg, After(since));
    }
  }

  // ---------- The memory provider's stream ----------

  /** One poll: the log as the poll finds it, and how many events it sends before being cut. */
  datatype Poll = Poll(log: seq<Message>, budget: nat)

  /** Between polls the log is only appended to. */
  ghost predicate Growing(log: seq<Message>, polls: seq<Poll>)
    decreases |polls|
  {
    polls != [] ==> Sorted(polls[0].log) && log <= polls[0].log && Growing(polls[0].log, polls[1..])
  }

  function PolledAll(st: Stream, polls: seq<Poll>): Stream
    decreases |polls|
  {
    if polls == [] then st else PolledAll(Polled(st, polls[0].log, polls[0].budget), polls[1..])
  }

  function FinalLog(log: seq<Message>, polls: seq<Poll>): seq<Message> {
    if polls == [] then log else Last(polls).log
  }

  /** The cursor is where the stream began or no further than the newest message. */
  ghost predicate Reached(log: seq<Message>, start: int, st: Stream) {
    st.since >= start && (st.since == start || (log != [] && st.since <= Last(log).offset))
  }

  lemma {:induction false} PendingGrows(log: seq<Message>, longer: seq<Message>, start: int, since: int)
    requires Sorted(longer) && log <= longer && start <= since
    requires since == start || (log != [] && since <= Last(log).offset)
    ensures exists extra :: Pending(longer, start) == Pending(log, start) + extra
                            && Pending(longer, since) == Pending(log, since) + extra
  {
    if log == longer {
      assert Pending(longer, start) == Pending(log, start) + [];
      assert Pending(longer, since) == Pending(log, since) + [];
    } else {
      var shorter := Init(longer);
      assert log <= shorter;
      PendingGrows(log, shorter, start, since);
      var extra :| Pending(shorter, start) == Pending(log, start) + extra
                   && Pending(shorter, since) == Pending(log, since) + extra;
      assert log != [] ==> Last(log) == longer[|log| - 1];
      var tail := if Last(longer).offset > start then [Last(longer)] else [];
      assert Pending(longer, start) == Pending(log, start) + (extra + tail);
      assert Pending(longer, since) == Pending(log, since) + (extra + tail);
    }
  }

  lemma ReachedGrows(log: seq<Message>, longer: seq<Message>, start: int, st: Stream)
    requires Sorted(longer) && log <= longer && Reached(log, start, st)
    ensures Reached(longer, start, st)
  {
    if log != [] { assert longer[|log| - 1] == Last(log); }
  }

  ghost predicate Conserved(log: seq<Message>, start: int, st: Stream) {
    st.sent + Pending(log, st.since) == Pending(log, start)
  }

  lemma GrowthConserves(log: seq<Message>, longer: seq<Message>, start: int, st: Stream)
    requires Sorted(longer) && log <= longer && Reached(log, start, st) && Conserved(log, start, st)
    ensures Conserved(longer, start, st)
  {
    PendingGrows(log, longer, start, st.since);
    var extra :| Pending(longer, start) == Pending(log, start) + extra
                 && Pending(longer, st.since) == Pending(log, st.since) + extra;
    assert st.sent + Pending(longer, st.since) == (st.sent + Pending(log, st.since)) + extra;
  }

  lemma PollReaches(log: seq<Message>, start: int, st: Stream, budget: nat)
    requires Sorted(log) && Reached(log, start, st)
    ensures Reached(log, start, Polled(st, log, budget))
  {
    var cut := Cut(Pending(log, st.since), budget);
    CutFacts(log, st, budget);
    if cut != [] {
      var k :| 0 <= k < |log| && log[k] == Last(cut);
      assert Last(log) == log[|log| - 1] && log[k].offset <= Last(log).offset;
    }
  }

  lemma PollConserves(log: seq<Message>, start: int, st: Stream, budget: nat)
    requires Sorted(log) && Conserved(log, start, st)
    ensures Conserved(log, start, Polled(st, log, budget))
  {
    var cut, rest := Cut(Pending(log, st.since), budget), Pending(log, Polled(st, log, budget).since);
    PollSplits(log, st, budget);
    assert (st.sent + cut) + rest == st.sent + (cut + rest);
  }

  /**
   * However polls, cuts and appends interleave, what has been sent followed by what is still pending
   * is everything after the starting point: no gap, no repeat, no reordering.
   */
  lemma {:induction false} StreamConserves(log: seq<Message>, start: int, st: Stream, polls: seq<Poll>)
    requires Sorted(log) && Growing(log, polls) && Reached(log, start, st) && Conserved(log, start, st)
    ensures Conserved(FinalLog(log, polls), start, PolledAll(st, polls))
    decreases |polls|
  {
    if polls != [] {
      var now := polls[0].log;
      GrowthConserves(log, now, start, st);
      ReachedGrows(log, now, start, st);
      PollReaches(now, start, st, polls[0].budget);
      PollConserves(now, start, st, polls[0].budget);
      StreamConserves(now, start, Polled(st, now, polls[0].budget), polls[1..]);
    }
  }

  /**
   * A stream cut anywhere and resumed from the last sequence number it sent delivers, once a poll has
   * caught up, exactly what one uninterrupted poll of the final log delivers.
   */
  lemma CutAndResumed(log: seq<Message>, start: int, polls: seq<Poll>)
    requires Sorted(log) && Growing(log, polls)
    requires var end := PolledAll(Stream(start, []), polls); Pending(FinalLog(log, polls), end.since) == []
    ensures PolledAll(Stream(start, []), polls).sent
            == Polled(Stream(start, []), FinalLog(log, polls), |Pending(FinalLog(log, polls), start)|).sent
  {
    StreamConserves(log, start, Stream(start, []), polls);
  }

  // ---------- The SQLite provider's stream ----------

  /** An insert's messages have their times already, their own or the clock's. */
  datatype TableStep =
    | Insert(ns: string, msgs: seq<Message>)
    | Sweep(before: Instant)
    | PollUpTo(budget: nat)

  datatype Table = Table(rows: seq<Row>, stream: Stream)

  function Stepped(t: Table, step: TableStep): Table {
    match step
    case Insert(ns, msgs) => t.(rows := Inserted(t.rows, ns, msgs))
    case Sweep(before) => t.(rows := SweptRows(t.rows, before))
    case PollUpTo(budget) => t.(stream := Polled(t.stream, MessagesOf(t.rows), budget))
  }

  /** The numbers an insert hands out lie past the subscriber's cursor: no sweep has taken away what the cursor stands on. */
  predicate PassesCursor(t: Table, step: TableStep) {
    step.Insert? && step.msgs != [] ==> t.stream.since <= MaxSeq(t.rows)
  }

  ghost predicate PassingRun(t: Table, steps: seq<TableStep>)
    decreases |steps|
  {
    steps != [] ==> PassesCursor(t, steps[0]) && PassingRun(Stepped(t, steps[0]), steps[1..])
  }

  function SteppedAll(t: Table, steps: seq<TableStep>): Table
    decreases |steps|
  {
    if steps == [] then t else SteppedAll(Stepped(t, steps[0]), steps[1..])
  }

  /** The sent messages that are still in the table. */
  function StillThere(sent: seq<Message>, log: seq<Message>): seq<Message> {
    if sent == [] then []
    else StillThere(Init(sent), log) + if Last(sent) in log then [Last(sent)] else []
  }

  /** Of the messages after `start` still in the log, none is lost: each has been sent or is pending. */
  ghost predicate NoneLost(log: seq<Message>, start: int, st: Stream) {
    StillThere(st.sent, log) + Pending(log, st.since) == Pending(log, start)
  }

  /** Events went out in strictly increasing order, all of them between the start and the cursor. */
  ghost predicate InOrder(start: int, st: Stream) {
    start <= st.since && Sorted(st.sent) && forall m :: m in st.sent ==> start < m.offset <= st.since
  }

  /** What every step keeps. */
  ghost predicate Faithful(t: Table, start: int) {
    Ordered(t.rows) && InOrder(start, t.stream) && NoneLost(MessagesOf(t.rows), start, t.stream)
  }

  lemma {:induction false} StillThereConcat(a: seq<Message>, b: seq<Message>, log: seq<Message>)
    ensures StillThere(a + b, log) == StillThere(a, log) + StillThere(b, log)
  {
    if b == [] {
      assert a + b == a;
    } else {
      StillThereConcat(a, Init(b), log);
      assert Init(a + b) == a + Init(b) && Last(a + b) == Last(b);
    }
  }

  lemma {:induction false} StillThereAll(sent: seq<Message>, log: seq<Message>)
    requires forall m :: m in sent ==> m in log
    ensures StillThere(sent, log) == sent
  {
    if sent != [] {
      assert sent == Init(sent) + [Last(sent)];
      StillThereAll(Init(sent), log);
    }
  }

  lemma {:induction false} StillThereSame(sent: seq<Message>, log: seq<Message>, other: seq<Message>)
    requires forall m :: m in sent ==> (m in log <==> m in other)
    ensures StillThere(sent, log) == StillThere(sent, other)
  {
    if sent != [] {
      assert sent == Init(sent) + [Last(sent)];
      StillThereSame(Init(sent), log, other);
    }
  }

  lemma {:induction false} StillThereSwept(sent: seq<Message>, log: seq<Message>, swept: seq<Message>, before: Instant)
    requires forall m :: m in swept <==> m in log && !SweptAway(m, before)
    ensures StillThere(sent, swept) == Swept(StillThere(sent, log), before)
  {
    if sent != [] {
      StillThereSwept(Init(sent), log, swept, before);
      var kept := StillThere(Init(sent), log);
      assert kept + [] == kept && Swept(kept, before) + [] == Swept(kept, before);
      ConcatLast(kept, Last(sent));
    }
  }

  lemma {:induction false} SweptConcat(a: seq<Message>, b: seq<Message>, before: Instant)
    ensures Swept(a + b, before) == Swept(a, before) + Swept(b, before)
  {
    if b == [] {
      assert a + b == a;
    } else {
      SweptConcat(a, Init(b), before);
      assert Init(a + b) == a + Init(b) && Last(a + b) == Last(b);
    }
  }

  lemma {:induction false} MessagesConcat(a: seq<Row>, b: seq<Row>)
    ensures MessagesOf(a + b) == MessagesOf(a) + MessagesOf(b)
  {
    if b == [] {
      assert a + b == a;
    } else {
      MessagesConcat(a, Init(b));
      assert Init(a + b) == a + Init(b) && Last(a + b) == Last(b);
    }
  }

  lemma {:induction false} PendingAllLater(log: seq<Message>, extra: seq<Message>, since: int)
    requires forall k :: 0 <= k < |extra| ==> extra[k].offset > since
    ensures Pending(log + extra, since) == Pending(log, since) + extra
  {
    if extra == [] {
      assert log + extra == log;
    } else {
      PendingAllLater(log, Init(extra), since);
      assert extra == Init(extra) + [Last(extra)] && Last(extra) == extra[|extra| - 1];
      assert log + extra == (log + Init(extra)) + [Last(extra)];
      MatchingConcat(log + Init(extra), Last(extra), After(since));
    }
  }

  lemma InsertLosesNone(log: seq<Message>, extra: seq<Message>, start: int, st: Stream)
    requires InOrder(start, st) && NoneLost(log, start, st)
    requires forall k :: 0 <= k < |extra| ==> extra[k].offset > st.since
    ensures NoneLost(log + extra, start, st)
  {
    PendingAllLater(log, extra, start);
    PendingAllLater(log, extra, st.since);
    StillThereSame(st.sent, log, log + extra);
  }

  /** The messages an insert adds to the log. */
  function Added(rows: seq<Row>, ns: string, msgs: seq<Message>): seq<Message> {
    MessagesOf(Numbered(ns, MaxOffset(rows) + 1, MaxSeq(rows) + 1, msgs))
  }

  lemma AddedFacts(rows: seq<Row>, ns: string, msgs: seq<Message>)
    requires Ordered(rows)
    ensures MessagesOf(Inserted(rows, ns, msgs)) == MessagesOf(rows) + Added(rows, ns, msgs)
    ensures |Added(rows, ns, msgs)| == |msgs|
    ensures forall k :: 0 <= k < |msgs| ==> Added(rows, ns, msgs)[k].offset == MaxSeq(rows) + 1 + k
  {
    var added := Numbered(ns, MaxOffset(rows) + 1, MaxSeq(rows) + 1, msgs);
    MaxOfOrdered(rows);
    NumberedFacts(ns, MaxOffset(rows) + 1, MaxSeq(rows) + 1, msgs);
    MessagesFacts(added);
    MessagesConcat(rows, added);
  }

  lemma InsertStaysFaithful(t: Table, start: int, ns: string, msgs: seq<Message>)
    requires Faithful(t, start) && PassesCursor(t, Insert(ns, msgs))
    ensures Faithful(Stepped(t, Insert(ns, msgs)), start)
  {
    AddedFacts(t.rows, ns, msgs);
    InsertKeepsOrdered(t.rows, ns, msgs);
    InsertLosesNone(MessagesOf(t.rows), Added(t.rows, ns, msgs), start, t.stream);
  }

  lemma SweepLosesNone(log: seq<Message>, before: Instant, start: int, st: Stream)
    requires NoneLost(log, start, st)
    ensures NoneLost(Swept(log, before), start, st)
  {
    SweptMatching(log, before, After(start));
    SweptMatching(log, before, After(st.since));
    SweptConcat(StillThere(st.sent, log), Pending(log, st.since), before);
    SweptMembers(log, before);
    StillThereSwept(st.sent, log, Swept(log, before), before);
  }

  lemma SweepStaysFaithful(t: Table, start: int, before: Instant)
    requires Faithful(t, start)
    ensures Faithful(Stepped(t, Sweep(before)), start)
  {
    SweepKeepsOrdered(t.rows, before);
    MessagesOfSwept(t.rows, before);
    SweepLosesNone(MessagesOf(t.rows), before, start, t.stream);
  }

  lemma PollLosesNone(log: seq<Message>, start: int, st: Stream, budget: nat)
    requires Sorted(log) && NoneLost(log, start, st)
    ensures NoneLost(log, start, Polled(st, log, budget))
  {
    var cut := Cut(Pending(log, st.since), budget);
    PollSplits(log, st, budget);
    var next := Polled(st, log, budget);
    assert StillThere(next.sent, log) == StillThere(st.sent, log) + cut by {
      CutFacts(log, st, budget);
      StillThereConcat(st.sent, cut, log);
      StillThereAll(cut, log);
    }
    assert (StillThere(st.sent, log) + cut) + Pending(log, next.since)
           == StillThere(st.sent, log) + (cut + Pending(log, next.since));
  }

  lemma PollKeepsOrder(log: seq<Message>, start: int, st: Stream, budget: nat)
    requires Sorted(log) && InOrder(start, st)
    ensures InOrder(start, Polled(st, log, budget))
  {
    var cut, all := Cut(Pending(log, st.since), budget), Polled(st, log, budget).sent;
    CutFacts(log, st, budget);
    forall i, j | 0 <= i < j < |all| ensures all[i].offset < all[j].offset {
      assert all[i] == if i < |st.sent| then st.sent[i] else cut[i - |st.sent|];
      assert all[j] == if j < |st.sent| then st.sent[j] else cut[j - |st.sent|];
      assert i < |st.sent| ==> st.sent[i] in st.sent;
      assert j >= |st.sent| ==> cut[j - |st.sent|] in cut;
    }
  }

  lemma PollStaysFaithful(t: Table, start: int, budget: nat)
    requires Faithful(t, start)
    ensures Faithful(Stepped(t, PollUpTo(budget)), start)
  {
    var log := MessagesOf(t.rows);
    OrderedIsSorted(t.rows);
    PollLosesNone(log, start, t.stream, budget);
    PollKeepsOrder(log, start, t.stream, budget);
  }

  lemma StepKeepsTableOrdered(t: Table, step: TableStep)
    requires Ordered(t.rows)
    ensures Ordered(Stepped(t, step).rows)
  {
    match step
    case Insert(ns, msgs) => InsertKeepsOrdered(t.rows, ns, msgs);
    case Sweep(before) => SweepKeepsOrdered(t.rows, before);
    case PollUpTo(_) =>
  }

  /**
   * In every interleaving of appends, polls and sweeps in which appended numbers pass the cursor,
   * offsets stay equal to seqs and increasing, events go out in strictly increasing order, and every
   * row still in the table is either among the events sent or still pending.
   */
  lemma {:induction false} SqliteStreamIsFaithful(t: Table, start: int, steps: seq<TableStep>)
    requires Faithful(t, start) && PassingRun(t, steps)
    ensures Faithful(SteppedAll(t, steps), start)
    decreases |steps|
  {
    if steps != [] {
      match steps[0] {
        case Insert(ns, msgs) => InsertStaysFaithful(t, start, ns, msgs);
        case Sweep(before) => SweepStaysFaithful(t, start, before);
        case PollUpTo(budget) => PollStaysFaithful(t, start, budget);
      }
      SqliteStreamIsFaithful(Stepped(t, steps[0]), start, steps[1..]);
    }
  }

  // ---------- Sweeps that spare the newest row ----------

  /** What whoever runs the sweeper can see to, without knowing any subscriber. */
  predicate SparesNewest(rows: seq<Row>, step: TableStep) {
    step.Sweep? && rows != [] ==> !SweptAway(Last(rows).msg, step.before)
  }

  ghost predicate SparingRun(t: Table, steps: seq<TableStep>)
    decreases |steps|
  {
    steps != [] ==> SparesNewest(t.rows, steps[0]) && SparingRun(Stepped(t, steps[0]), steps[1..])
  }

  lemma InsertRaisesMax(rows: seq<Row>, ns: string, msgs: seq<Message>)
    requires Ordered(rows)
    ensures MaxSeq(rows) <= MaxSeq(Inserted(rows, ns, msgs))
  {
    MaxOfOrdered(rows);
    NumberedFacts(ns, MaxOffset(rows) + 1, MaxSeq(rows) + 1, msgs);
    InsertKeepsOrdered(rows, ns, msgs);
    MaxOfOrdered(Inserted(rows, ns, msgs));
  }

  lemma SparingKeepsMax(rows: seq<Row>, before: Instant)
    requires Ordered(rows) && (rows != [] ==> !SweptAway(Last(rows).msg, before))
    ensures MaxSeq(SweptRows(rows, before)) == MaxSeq(rows)
  {
    MaxOfOrdered(rows);
    SweepKeepsOrdered(rows, before);
    MaxOfOrdered(SweptRows(rows, before));
  }

  lemma StoredIsAtMostMax(rows: seq<Row>, m: Message)
    requires Ordered(rows) && m in MessagesOf(rows)
    ensures m.offset <= MaxSeq(rows)
  {
    MaxOfOrdered(rows);
    MessagesFacts(rows);
    var k :| 0 <= k < |rows| && MessagesOf(rows)[k] == m;
    assert Last(rows) == rows[|rows| - 1];
  }

  lemma PollStaysInTable(t: Table, budget: nat)
    requires Ordered(t.rows) && t.stream.since <= MaxSeq(t.rows)
    ensures Stepped(t, PollUpTo(budget)).stream.since <= MaxSeq(t.rows)
  {
    var cut := Cut(Pending(MessagesOf(t.rows), t.stream.since), budget);
    OrderedIsSorted(t.rows);
    CutFacts(MessagesOf(t.rows), t.stream, budget);
    if cut != [] { StoredIsAtMostMax(t.rows, Last(cut)); }
  }

  /** A cursor that starts within the table stays there as long as sweeps spare the newest row, so that every append passes it. */
  lemma {:induction false} SparingRunsPass(t: Table, steps: seq<TableStep>)
    requires Ordered(t.rows) && t.stream.since <= MaxSeq(t.rows) && SparingRun(t, steps)
    ensures PassingRun(t, steps)
    decreases |steps|
  {
    if steps != [] {
      StepKeepsTableOrdered(t, steps[0]);
      match steps[0] {
        case Insert(ns, msgs) => InsertRaisesMax(t.rows, ns, msgs);
        case Sweep(before) => SparingKeepsMax(t.rows, before);
        case PollUpTo(budget) => PollStaysInTable(t, budget);
      }
      SparingRunsPass(Stepped(t, steps[0]), steps[1..]);
    }
  }

  /** After a poll that was not cut, every row after the starting point still in the table has been sent, once and in order. */
  lemma UncutPollDeliversAll(t: Table, start: int)
    requires Faithful(t, start)
    ensures var all := Pending(MessagesOf(t.rows), t.stream.since);
            var sent := Stepped(t, PollUpTo(|all|)).stream.sent;
            Sorted(sent) && StillThere(sent, MessagesOf(t.rows)) == Pending(MessagesOf(t.rows), start)
  {
    var all := Pending(MessagesOf(t.rows), t.stream.since);
    PollStaysFaithful(t, start, |all|);
    OrderedIsSorted(t.rows);
    PollSplits(MessagesOf(t.rows), t.stream, |all|);
    assert Pending(MessagesOf(t.rows), Polled(t.stream, MessagesOf(t.rows), |all|).since) == [];
  }

  // ---------- What a reissued number costs ----------

  lemma WhatIsPending(rows: seq<Row>, since: int)
    requires Ordered(rows)
    ensures forall m :: m in Pending(MessagesOf(rows), since) <==> m in MessagesOf(rows) && m.offset > since
  {
    OrderedIsSorted(rows);
    MatchingIsOrdered(MessagesOf(rows), After(since));
  }

  /** For every table and cursor: all the messages of an append become pending exactly when its numbers pass the cursor. */
  lemma AppendIsPendingIff(t: Table, ns: string, msgs: seq<Message>)
    requires Ordered(t.rows)
    ensures (forall m :: m in Added(t.rows, ns, msgs) ==>
               m in Pending(MessagesOf(Inserted(t.rows, ns, msgs)), t.stream.since))
            <==> PassesCursor(t, Insert(ns, msgs))
  {
    var extra, rows := Added(t.rows, ns, msgs), Inserted(t.rows, ns, msgs);
    AddedFacts(t.rows, ns, msgs);
    InsertKeepsOrdered(t.rows, ns, msgs);
    WhatIsPending(rows, t.stream.since);
    if msgs != [] {
      assert extra[0] in extra && extra[0].offset == MaxSeq(t.rows) + 1;
      forall m | m in extra ensures m in MessagesOf(rows) && m.offset > MaxSeq(t.rows) {
        var k :| 0 <= k < |extra| && extra[k] == m;
      }
    }
  }

  /** So the first message appended after a sweep becomes pending exactly when the sweep leaves a number at or past the cursor. */
  lemma ReissuedSeqIsLost(t: Table, before: Instant, ns: string, m: Message)
    requires Ordered(t.rows)
    ensures var after := Stepped(Stepped(t, Sweep(before)), Insert(ns, [m]));
            Last(MessagesOf(after.rows)) in Pending(MessagesOf(after.rows), t.stream.since)
            <==> t.stream.since <= MaxSeq(SweptRows(t.rows, before))
  {
    var swept := Stepped(t, Sweep(before));
    SweepKeepsOrdered(t.rows, before);
    AppendIsPendingIff(swept, ns, [m]);
    AddedFacts(swept.rows, ns, [m]);
    var extra := Added(swept.rows, ns, [m]);
    assert extra == [extra[0]];
    ConcatLast(MessagesOf(swept.rows), extra[0]);
  }

  lemma SentIsPastCursor(t: Table, step: TableStep, m: Message)
    requires Ordered(t.rows) && m.offset <= t.stream.since && m !in t.stream.sent
    ensures m.offset <= Stepped(t, step).stream.since && m !in Stepped(t, step).stream.sent
  {
    if step.PollUpTo? {
      OrderedIsSorted(t.rows);
      PolledSends(MessagesOf(t.rows), t.stream, step.budget, m);
    }
  }

  lemma PolledSends(log: seq<Message>, st: Stream, budget: nat, m: Message)
    requires Sorted(log) && m.offset <= st.since
    ensures m in Polled(st, log, budget).sent <==> m in st.sent
    ensures st.since <= Polled(st, log, budget).since
  {
    var cut := Cut(Pending(log, st.since), budget);
    CutFacts(log, st, budget);
    assert m !in cut && Polled(st, log, budget).sent == st.sent + cut;
  }

  /** A message stored at or below the cursor is never delivered, whatever happens next. */
  lemma {:induction false} PassedOverForGood(t: Table, steps: seq<TableStep>, m: Message)
    requires Ordered(t.rows) && m.offset <= t.stream.since && m !in t.stream.sent
    ensures m !in SteppedAll(t, steps).stream.sent
    decreases |steps|
  {
    if steps != [] {
      SentIsPastCursor(t, steps[0], m);
      StepKeepsTableOrdered(t, steps[0]);
      PassedOverForGood(Stepped(t, steps[0]), steps[1..], m);
    }
  }

  // ---------- A run that loses a message ----------

  const CLAIM := Message(1, ClaimMsg, "ns", "ann", Payload(Some(Claim("c1", "ann", "file://x", Write, "", 1, 1)), Some("c1")), 1)
  const RELEASE := Message(0, ReleaseMsg, "ns", "", Payload(Some(Claim("c1", "", "", OtherOperation(""), "", 0, 0)), Some("c1")), 3 * SECOND)
  const ONE_CLAIM := Table([Row(1, CLAIM)], Stream(1, [CLAIM]))
  const LOSING := [Sweep(2 * SECOND), Insert("ns", [RELEASE]), PollUpTo(9)]

  lemma PendingOne(m: Message, since: int)
    ensures Pending([m], since) == if m.offset > since then [m] else []
  {
    assert [] + [m] == [m];
    MatchingConcat([], m, After(since));
  }

  lemma SweptOne(row: Row, before: Instant)
    ensures SweptRows([row], before) == if SweptAway(row.msg, before) then [] else [row]
  {
    assert Init([row]) == [];
  }

  lemma InsertedFirst(rows: seq<Row>, ns: string, m: Message)
    requires rows == []
    ensures Inserted(rows, ns, [m]) == [Row(1, m.(offset := 1, namespace := ns))]
  {
    assert Init([m]) == [];
    assert Numbered(ns, 1, 1, [m]) == [Row(1, m.(offset := 1, namespace := ns))];
  }

  lemma ThreeSteps(t: Table, a: TableStep, b: TableStep, c: TableStep)
    ensures SteppedAll(t, [a, b, c]) == Stepped(Stepped(Stepped(t, a), b), c)
  {
    assert [a, b, c][1..] == [b, c] && [b, c][1..] == [c] && [c][1..] == [];
    assert SteppedAll(Stepped(Stepped(t, a), b), [c]) == Stepped(Stepped(Stepped(t, a), b), c);
    assert SteppedAll(Stepped(t, a), [b, c]) == Stepped(Stepped(Stepped(t, a), b), c);
  }

  const LOST := RELEASE.(offset := 1)

  lemma LosingTable()
    ensures SteppedAll(ONE_CLAIM, LOSING) == Table([Row(1, LOST)], Stream(1, [CLAIM]))
  {
    var t1, t2 := Table([], Stream(1, [CLAIM])), Table([Row(1, LOST)], Stream(1, [CLAIM]));
    SweptOne(Row(1, CLAIM), 2 * SECOND);
    assert Stepped(ONE_CLAIM, LOSING[0]) == t1;
    InsertedFirst([], "ns", RELEASE);
    assert Stepped(t1, LOSING[1]) == t2;
    PendingOne(LOST, 1);
    assert Init([Row(1, LOST)]) == [] && MessagesOf(t2.rows) == [LOST];
    assert Stepped(t2, LOSING[2]) == t2;
    ThreeSteps(ONE_CLAIM, LOSING[0], LOSING[1], LOSING[2]);
  }

  lemma OneRow(m: Message, stream: Stream)
    requires m.offset == 1 && stream == Stream(1, [CLAIM])
    ensures Faithful(Table([Row(1, m)], stream), 0) <==> m == CLAIM
  {
    assert Init([Row(1, m)]) == [] && MessagesOf([Row(1, m)]) == [m];
    PendingOne(m, 0);
    PendingOne(m, 1);
    assert Init([CLAIM]) == [];
    assert StillThere([CLAIM], [m]) == if CLAIM in [m] then [CLAIM] else [];
  }

  /** A subscriber has seen the one claim of a table; the claim is swept and its release is never delivered. */
  lemma ASweepLosesARelease()
    ensures Faithful(ONE_CLAIM, 0) && !PassingRun(ONE_CLAIM, LOSING)
    ensures !Faithful(SteppedAll(ONE_CLAIM, LOSING), 0)
    ensures forall later :: LOST !in SteppedAll(SteppedAll(ONE_CLAIM, LOSING), later).stream.sent
  {
    LosingTable();
    OneRow(CLAIM, ONE_CLAIM.stream);
    OneRow(LOST, ONE_CLAIM.stream);
    if PassingRun(ONE_CLAIM, LOSING) { SqliteStreamIsFaithful(ONE_CLAIM, 0, LOSING); }
    var final := SteppedAll(ONE_CLAIM, LOSING);
    forall later ensures LOST !in SteppedAll(final, later).stream.sent { PassedOverForGood(final, later, LOST); }
  }
}
