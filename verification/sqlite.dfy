/** internal/sqlite/sqlite.go: the message table, one atomic step per call. */
module Sqlite {
  import opened Messages
  import opened ActiveClaims
  import opened Conflicts
  import opened Queries
  import opened Views

  /** A row of `messages`: the message with its offset, and the sequence number of the event stream. */
  datatype Row = Row(seqNo: nat, msg: Message)

  function MessagesOf(rows: seq<Row>): seq<Message> {
    if rows == [] then [] else MessagesOf(Init(rows)) + [Last(rows).msg]
  }

  /** `COALESCE(MAX(offset), 0)`. */
  function MaxOffset(rows: seq<Row>): nat {
    if rows == [] then 0 else Max(MaxOffset(Init(rows)), Last(rows).msg.offset)
  }

  /** `COALESCE(MAX(seq), 0)`. */
  function MaxSeq(rows: seq<Row>): nat {
    if rows == [] then 0 else Max(MaxSeq(Init(rows)), Last(rows).seqNo)
  }

  /** Rows in insertion order: offset equals seq, both positive and strictly increasing. */
  ghost predicate Ordered(rows: seq<Row>) {
    && (forall i :: 0 <= i < |rows| ==> 0 < rows[i].seqNo == rows[i].msg.offset)
    && (forall i, j :: 0 <= i < j < |rows| ==> rows[i].seqNo < rows[j].seqNo)
  }

  function Timed(m: Message, at: Instant): Message { if IsZero(m.timestamp) then m.(timestamp := at) else m }

  /** A batch as its loop writes it: a message without a time takes the clock's, each its own reading. */
  function Stamped(msgs: seq<Message>, times: seq<Instant>): (stamped: seq<Message>)
    requires |times| == |msgs|
    ensures |stamped| == |msgs|
  {
    if msgs == [] then [] else Stamped(Init(msgs), Init(times)) + [Timed(Last(msgs), Last(times))]
  }

  function Numbered(ns: string, offset: nat, seqNo: nat, msgs: seq<Message>): seq<Row> {
    if msgs == [] then []
    else
      Numbered(ns, offset, seqNo, Init(msgs))
      + [Row(seqNo + |msgs| - 1, Last(msgs).(offset := offset + |msgs| - 1, namespace := ns))]
  }

  /** The table after a stamped batch is appended: numbering continues from the largest offset and seq still present. */
  function Inserted(rows: seq<Row>, ns: string, msgs: seq<Message>): seq<Row> {
    rows + Numbered(ns, MaxOffset(rows) + 1, MaxSeq(rows) + 1, msgs)
  }

  function SweptRows(rows: seq<Row>, before: Instant): seq<Row> {
    if rows == [] then []
    else SweptRows(Init(rows), before) + if SweptAway(Last(rows).msg, before) then [] else [Last(rows)]
  }

  /** `DELETE … WHERE offset = ?` for each offset of a list. */
  function WithoutOffsets(rows: seq<Row>, offsets: seq<nat>): seq<Row> {
    if rows == [] then []
    else WithoutOffsets(Init(rows), offsets) + if Last(rows).msg.offset in offsets then [] else [Last(rows)]
  }

  // ---------- The table stays ordered ----------

  lemma {:induction false} MaxOfOrdered(rows: seq<Row>)
    requires Ordered(rows)
    ensures MaxSeq(rows) == MaxOffset(rows) == if rows == [] then 0 else Last(rows).seqNo
  {
    if rows != [] {
      assert Last(rows) == rows[|rows| - 1];
      MaxOfOrdered(Init(rows));
    }
  }

  lemma {:induction false} NumberedFacts(ns: string, offset: nat, seqNo: nat, msgs: seq<Message>)
    ensures |Numbered(ns, offset, seqNo, msgs)| == |msgs|
    ensures forall i :: 0 <= i < |msgs| ==>
              Numbered(ns, offset, seqNo, msgs)[i] == Row(seqNo + i, msgs[i].(offset := offset + i, namespace := ns))
  {
    if msgs != [] { NumberedFacts(ns, offset, seqNo, Init(msgs)); }
  }

  lemma OrderedConcat(rows: seq<Row>, later: seq<Row>, first: nat)
    requires Ordered(rows) && MaxSeq(rows) < first
    requires forall i :: 0 <= i < |later| ==> later[i].seqNo == later[i].msg.offset == first + i
    ensures Ordered(rows + later)
  {
    MaxOfOrdered(rows);
    assert forall i :: 0 <= i < |rows| ==> rows[i].seqNo <= MaxSeq(rows);
  }

  lemma InsertKeepsOrdered(rows: seq<Row>, ns: string, msgs: seq<Message>)
    requires Ordered(rows)
    ensures Ordered(Inserted(rows, ns, msgs))
  {
    MaxOfOrdered(rows);
    NumberedFacts(ns, MaxOffset(rows) + 1, MaxSeq(rows) + 1, msgs);
    OrderedConcat(rows, Numbered(ns, MaxOffset(rows) + 1, MaxSeq(rows) + 1, msgs), MaxSeq(rows) + 1);
  }

  lemma {:induction false} SweepKeepsOrdered(rows: seq<Row>, before: Instant)
    requires Ordered(rows)
    ensures Ordered(SweptRows(rows, before))
    ensures forall r :: r in SweptRows(rows, before) <==> r in rows && !SweptAway(r.msg, before)
  {
    if rows != [] {
      SweepKeepsOrdered(Init(rows), before);
      assert rows == Init(rows) + [Last(rows)];
      var kept := SweptRows(Init(rows), before);
      forall i | 0 <= i < |kept| ensures kept[i].seqNo < Last(rows).seqNo {
        assert kept[i] in Init(rows);
      }
    }
  }

  lemma {:induction false} MessagesFacts(rows: seq<Row>)
    ensures |MessagesOf(rows)| == |rows|
    ensures forall i :: 0 <= i < |rows| ==> MessagesOf(rows)[i] == rows[i].msg
  {
    if rows != [] {
      MessagesFacts(Init(rows));
      assert Last(rows) == rows[|rows| - 1];
    }
  }

  lemma OrderedIsSorted(rows: seq<Row>)
    requires Ordered(rows)
    ensures Sorted(MessagesOf(rows)) && Positive(MessagesOf(rows))
    ensures Matching(MessagesOf(rows), EVERYTHING) == MessagesOf(rows)
  {
    MessagesFacts(rows);
    MatchingEverything(MessagesOf(rows));
  }

  lemma {:induction false} MessagesOfSwept(rows: seq<Row>, before: Instant)
    ensures MessagesOf(SweptRows(rows, before)) == Swept(MessagesOf(rows), before)
  {
    if rows != [] {
      MessagesOfSwept(Init(rows), before);
      var kept := SweptRows(Init(rows), before);
      assert kept + [] == kept && Init(kept + [Last(rows)]) == kept;
      assert Init(MessagesOf(rows)) == MessagesOf(Init(rows)) && Last(MessagesOf(rows)) == Last(rows).msg;
    }
  }

  function ExpiredOffsets(rows: seq<Row>, before: Instant): seq<nat> {
    if rows == [] then []
    else ExpiredOffsets(Init(rows), before)
         + if SweptAway(Last(rows).msg, before) then [Last(rows).msg.offset] else []
  }

  lemma {:induction false} ExpiredOffsetsFacts(rows: seq<Row>, before: Instant)
    ensures forall o :: o in ExpiredOffsets(rows, before) <==>
              exists i :: 0 <= i < |rows| && SweptAway(rows[i].msg, before) && rows[i].msg.offset == o
  {
    if rows != [] {
      ExpiredOffsetsFacts(Init(rows), before);
      assert forall i :: 0 <= i < |rows| ==> rows[i] == if i < |rows| - 1 then Init(rows)[i] else Last(rows);
      if SweptAway(Last(rows).msg, before) { assert SweptAway(rows[|rows| - 1].msg, before); }
    }
  }

  /** Deleting offset by offset is deleting exactly the expired claims, offsets being unique. */
  lemma {:induction false} DeletingOffsetsSweeps(rows: seq<Row>, n: nat, before: Instant)
    requires Ordered(rows) && n <= |rows|
    ensures WithoutOffsets(rows[..n], ExpiredOffsets(rows, before)) == SweptRows(rows[..n], before)
  {
    if n > 0 {
      assert Init(rows[..n]) == rows[..n - 1] && Last(rows[..n]) == rows[n - 1];
      DeletingOffsetsSweeps(rows, n - 1, before);
      ExpiredOffsetsFacts(rows, before);
    }
  }

  lemma {:induction false} WithoutOneMore(rows: seq<Row>, offsets: seq<nat>, o: nat)
    ensures WithoutOffsets(WithoutOffsets(rows, offsets), [o]) == WithoutOffsets(rows, offsets + [o])
  {
    if rows != [] {
      WithoutOneMore(Init(rows), offsets, o);
      var kept := WithoutOffsets(Init(rows), offsets);
      assert kept + [] == kept;
      assert Init(kept + [Last(rows)]) == kept && Last(kept + [Last(rows)]) == Last(rows);
    }
  }

  lemma {:induction false} WithoutNone(rows: seq<Row>, none: seq<nat>)
    requires none == []
    ensures WithoutOffsets(rows, none) == rows
  {
    if rows != [] {
      WithoutNone(Init(rows), none);
      assert rows == Init(rows) + [Last(rows)];
    }
  }

  method CollectExpired(rows: seq<Row>, before: Instant) returns (toDelete: seq<nat>)
    ensures toDelete == ExpiredOffsets(rows, before)
  {
    toDelete := [];
    for i := 0 to |rows|
      invariant toDelete == ExpiredOffsets(rows[..i], before)
    {
      assert Init(rows[..i + 1]) == rows[..i] && Last(rows[..i + 1]) == rows[i];
      if rows[i].msg.kind.ClaimMsg? && rows[i].msg.payload.asClaim.Some? {
        var claim := rows[i].msg.payload.asClaim.value;
        if claim.createdAt + claim.Ttl() < before {
          toDelete := toDelete + [rows[i].msg.offset];
        }
      }
    }
    assert rows[..|rows|] == rows;
  }

  /** One `DELETE` per collected offset. */
  method DeleteOffsets(rows: seq<Row>, offsets: seq<nat>) returns (left: seq<Row>)
    ensures left == WithoutOffsets(rows, offsets)
  {
    left := rows;
    WithoutNone(rows, offsets[..0]);
    for i := 0 to |offsets|
      invariant left == WithoutOffsets(rows, offsets[..i])
    {
      assert offsets[..i + 1] == offsets[..i] + [offsets[i]];
      WithoutOneMore(rows, offsets[..i], offsets[i]);
      left := WithoutOffsets(left, [offsets[i]]);
    }
    assert offsets[..|offsets|] == offsets;
  }

  lemma {:induction false} StampedAt(msgs: seq<Message>, times: seq<Instant>)
    requires |times| == |msgs|
    ensures forall i :: 0 <= i < |msgs| ==> Stamped(msgs, times)[i] == Timed(msgs[i], times[i])
  {
    if msgs != [] { StampedAt(Init(msgs), Init(times)); }
  }

  /** The row of the k-th message of a batch. */
  function NumberedRow(ns: string, offset: nat, seqNo: nat, msgs: seq<Message>, times: seq<Instant>, k: nat): Row
    requires k < |msgs| == |times|
  {
    Row(seqNo + k, Timed(msgs[k], times[k]).(offset := offset + k, namespace := ns))
  }

  lemma NumberedIs(inserted: seq<Row>, ns: string, offset: nat, seqNo: nat, msgs: seq<Message>, times: seq<Instant>)
    requires |times| == |msgs| == |inserted|
    requires forall k :: 0 <= k < |msgs| ==>
               inserted[k] == NumberedRow(ns, offset, seqNo, msgs, times, k)
    ensures inserted == Numbered(ns, offset, seqNo, Stamped(msgs, times))
  {
    StampedAt(msgs, times);
    NumberedFacts(ns, offset, seqNo, Stamped(msgs, times));
  }

  /**
   * A batch of any length goes behind the rows in order, numbered on from the largest offset and seq; a
   * message keeps its own time, and one without takes the clock's reading.
   */
  lemma BatchIsInserted(rows: seq<Row>, ns: string, msgs: seq<Message>, times: seq<Instant>)
    requires |times| == |msgs|
    ensures var after := Inserted(rows, ns, Stamped(msgs, times));
            && |after| == |rows| + |msgs| && rows <= after
            && forall i :: 0 <= i < |msgs| ==>
                 && after[|rows| + i].seqNo == MaxSeq(rows) + 1 + i
                 && var m := after[|rows| + i].msg;
                    && m == msgs[i].(offset := MaxOffset(rows) + 1 + i, namespace := ns, timestamp := m.timestamp)
                    && m.timestamp == if msgs[i].timestamp == 0 then times[i] else msgs[i].timestamp
  {
    NumbersBatch(ns, MaxOffset(rows) + 1, MaxSeq(rows) + 1, msgs, times);
  }

  lemma NumbersBatch(ns: string, offset: nat, seqNo: nat, msgs: seq<Message>, times: seq<Instant>)
    requires |times| == |msgs|
    ensures |Numbered(ns, offset, seqNo, Stamped(msgs, times))| == |msgs|
    ensures forall i :: 0 <= i < |msgs| ==>
              && Numbered(ns, offset, seqNo, Stamped(msgs, times))[i].seqNo == seqNo + i
              && var m := Numbered(ns, offset, seqNo, Stamped(msgs, times))[i].msg;
                 && m == msgs[i].(offset := offset + i, namespace := ns, timestamp := m.timestamp)
                 && m.timestamp == if msgs[i].timestamp == 0 then times[i] else msgs[i].timestamp
  {
    StampedAt(msgs, times);
    NumberedFacts(ns, offset, seqNo, Stamped(msgs, times));
  }

  lemma NumberedOne(ns: string, offset: nat, seqNo: nat, m: Message, at: Instant)
    ensures Numbered(ns, offset, seqNo, Stamped([m], [at])) == [Row(seqNo, Timed(m, at).(offset := offset, namespace := ns))]
  {
    StampedAt([m], [at]);
    NumberedFacts(ns, offset, seqNo, Stamped([m], [at]));
  }

  lemma MessagesOfOneMore(rows: seq<Row>, row: Row)
    ensures MessagesOf(rows + [row]) == MessagesOf(rows) + [row.msg]
  {
    assert Init(rows + [row]) == rows && Last(rows + [row]) == row;
  }

  /** A batch of one. */
  lemma InsertedOne(rows: seq<Row>, ns: string, m: Message, at: Instant)
    ensures MessagesOf(Inserted(rows, ns, Stamped([m], [at])))
            == MessagesOf(rows) + [Timed(m, at).(offset := MaxOffset(rows) + 1, namespace := ns)]
  {
    var row := Row(MaxSeq(rows) + 1, Timed(m, at).(offset := MaxOffset(rows) + 1, namespace := ns));
    NumberedOne(ns, MaxOffset(rows) + 1, MaxSeq(rows) + 1, m, at);
    MessagesOfOneMore(rows, row);
  }

  function RowsIn(table: map<string, seq<Row>>, ns: string): seq<Row> { if ns in table then table[ns] else [] }

  class Provider {
    var table: map<string, seq<Row>>

    /** The rows of a namespace. */
    function Rows(ns: string): seq<Row>
      reads this
    {
      RowsIn(table, ns)
    }

    ghost function Log(ns: string): seq<Message>
      reads this
    {
      MessagesOf(Rows(ns))
    }

    ghost predicate Valid()
      reads this
    {
      forall ns :: Ordered(Rows(ns))
    }

    constructor ()
      ensures Valid() && table == map[]
    {
      table := map[];
    }

    /** `times` are the readings of the clock, one for each message. */
    method Append(ns: string, msgs: seq<Message>, times: seq<Instant>)
      requires Valid() && |times| == |msgs|
      modifies this
      ensures Valid()
      ensures table == old(table)[ns := Inserted(old(Rows(ns)), ns, Stamped(msgs, times))]
    {
      var rows := Rows(ns);
      InsertKeepsOrdered(rows, ns, Stamped(msgs, times));
      var inserted := NumberRows(ns, MaxOffset(rows) + 1, MaxSeq(rows) + 1, msgs, times);
      Put(ns, rows + inserted);
    }

    method Put(ns: string, rows: seq<Row>)
      requires Valid() && Ordered(rows)
      modifies this
      ensures Valid()
      ensures table == old(table)[ns := rows]
    {
      ghost var before := table;
      assert forall n :: Ordered(RowsIn(before, n)) by {
        forall n ensures Ordered(RowsIn(before, n)) { assert Ordered(Rows(n)); }
      }
      table := table[ns := rows];
      forall n ensures Ordered(Rows(n)) {
        assert Ordered(RowsIn(before, n));
      }
    }

    /** The loop of `Append`: the rows it inserts. */
    method NumberRows(ns: string, offset: nat, seqNo: nat, msgs: seq<Message>, times: seq<Instant>) returns (inserted: seq<Row>)
      requires |times| == |msgs|
      ensures inserted == Numbered(ns, offset, seqNo, Stamped(msgs, times))
    {
      var nextOffset, nextSeq := offset, seqNo;
      inserted := [];
      for i := 0 to |msgs|
        invariant nextOffset == offset + i && nextSeq == seqNo + i && |inserted| == i
        invariant forall k :: 0 <= k < i ==> inserted[k] == NumberedRow(ns, offset, seqNo, msgs, times, k)
      {
        var m := msgs[i];
        if IsZero(m.timestamp) { m := m.(timestamp := times[i]); }
        inserted := inserted + [Row(nextSeq, m.(offset := nextOffset, namespace := ns))];
        nextOffset := nextOffset + 1;
        nextSeq := nextSeq + 1;
      }
      NumberedIs(inserted, ns, offset, seqNo, msgs, times);
    }

    /** One `SELECT`; the row order of a valid table is the order by offset that the statement asks for. */
    method Query(ns: string, opts: QueryOpts) returns (result: seq<Message>)
      requires Valid()
      ensures result == Limited(Log(ns), opts) && Answers(result, Log(ns), opts)
    {
      OrderedIsSorted(Rows(ns));
      LimitedAnswers(MessagesOf(Rows(ns)), opts);
      result := Limited(MessagesOf(Rows(ns)), opts);
    }

    method ActiveClaims(ns: string, pattern: string, now: Instant) returns (result: seq<Claim>)
      requires Valid()
      ensures result == Selected(Active(SqlView(Log(ns)), now), pattern)
    {
      var msgs := Query(ns, QueryOpts(0, [ClaimMsg, ReleaseMsg, TransferMsg], "", 0));
      var claims := FilterActiveClaims(msgs, now);
      result := SelectByPattern(claims, pattern);
    }

    method GetAgentState(ns: string, agentId: string, now: Instant) returns (state: AgentState)
      requires Valid()
      ensures state == StateOf(Log(ns), agentId, now)
    {
      var msgs := Query(ns, EVERYTHING);
      OrderedIsSorted(Rows(ns));
      state := ComputeAgentState(msgs, agentId, now);
    }

    /** Collects the offsets of expired claim rows, then deletes them one by one. */
    method ReleaseExpired(ns: string, before: Instant)
      requires Valid()
      modifies this
      ensures Valid()
      ensures table == old(table)[ns := SweptRows(old(Rows(ns)), before)]
      ensures Log(ns) == Swept(old(Log(ns)), before)
    {
      var rows := Rows(ns);
      var toDelete := CollectExpired(rows, before);
      var left := DeleteOffsets(rows, toDelete);
      assert rows[..|rows|] == rows;
      DeletingOffsetsSweeps(rows, |rows|, before);
      SweepKeepsOrdered(rows, before);
      MessagesOfSwept(rows, before);
      table := table[ns := left];
      forall n ensures Ordered(Rows(n)) {
        assert Rows(n) == if n == ns then left else old(Rows(n));
        assert Ordered(old(Rows(n)));
      }
    }
  }
}
