/** How sweeping claim rows and querying by type change what the scan of a log sees. */
module Views {
  import opened Messages
  import opened ActiveClaims
  import opened Scans
  import opened Queries

  function ByKinds(kinds: seq<MessageType>): QueryOpts { QueryOpts(0, kinds, "", 0) }

  /** The types the SQL providers fetch to decide which claims are active: no heartbeats. */
  const SQL_KINDS := [ClaimMsg, ReleaseMsg, TransferMsg]

  const COORDINATION_KINDS := [ClaimMsg, ReleaseMsg, TransferMsg, HeartbeatMsg]

  function SqlView(log: seq<Message>): seq<Message> { Matching(log, ByKinds(SQL_KINDS)) }

  ghost predicate Positive(log: seq<Message>) { forall k :: 0 <= k < |log| ==> log[k].offset > 0 }

  // ---------- Live entries, filtered ----------

  function LiveIf(es: seq<Entry>, now: int, keep: Entry -> bool): seq<Claim> {
    if es == [] then []
    else LiveIf(Init(es), now, keep) + if Last(es).deadline >= now && keep(Last(es)) then [Last(es).claim] else []
  }

  /** `xs` is `ys` with some elements left out. */
  ghost predicate SubList<T>(xs: seq<T>, ys: seq<T>)
    decreases |ys|
  {
    if ys == [] then xs == []
    else SubList(xs, Init(ys)) || (xs != [] && Last(xs) == Last(ys) && SubList(Init(xs), Init(ys)))
  }

  lemma SubListConcat<T>(xs: seq<T>, ys: seq<T>, c: T)
    requires SubList(xs, ys)
    ensures SubList(xs + [c], ys + [c]) && SubList(xs, ys + [c])
  {
    ConcatLast(xs, c);
    ConcatLast(ys, c);
  }

  lemma LiveIfLast(es: seq<Entry>, now: int, keep: Entry -> bool)
    requires es != []
    ensures Live(es, now) == if Last(es).deadline >= now then Live(Init(es), now) + [Last(es).claim] else Live(Init(es), now)
    ensures LiveIf(es, now, keep)
            == if Last(es).deadline >= now && keep(Last(es)) then LiveIf(Init(es), now, keep) + [Last(es).claim]
               else LiveIf(Init(es), now, keep)
  {
    assert Live(Init(es), now) + [] == Live(Init(es), now);
    assert LiveIf(Init(es), now, keep) + [] == LiveIf(Init(es), now, keep);
  }

  /** A filter takes a sub-list. */
  lemma {:induction false} LiveIfIsSubList(es: seq<Entry>, now: int, keep: Entry -> bool)
    ensures SubList(LiveIf(es, now, keep), Live(es, now)) && |LiveIf(es, now, keep)| <= |Live(es, now)|
  {
    if es != [] {
      LiveIfIsSubList(Init(es), now, keep);
      LiveIfLast(es, now, keep);
      SubListConcat(LiveIf(Init(es), now, keep), Live(Init(es), now), Last(es).claim);
    }
  }

  lemma SameTail<T>(xs: seq<T>, ys: seq<T>, c: T)
    requires |xs| <= |ys|
    ensures xs + [c] == ys + [c] <==> xs == ys
    ensures xs != ys + [c]
  {
    ConcatLast(xs, c);
    ConcatLast(ys, c);
  }

  /** It loses nothing exactly when it rejects no live entry. */
  lemma {:induction false} LiveIfKeepsAll(es: seq<Entry>, now: int, keep: Entry -> bool)
    ensures LiveIf(es, now, keep) == Live(es, now) <==> forall e :: e in es && e.deadline >= now ==> keep(e)
  {
    if es != [] {
      LiveIfKeepsAll(Init(es), now, keep);
      LiveIfIsSubList(Init(es), now, keep);
      LiveIfLast(es, now, keep);
      SameTail(LiveIf(Init(es), now, keep), Live(Init(es), now), Last(es).claim);
      assert forall e :: e in es <==> e in Init(es) || e == Last(es);
    }
  }

  // ---------- Queries by type ----------

  function Original(e: Entry): Entry { e.(deadline := e.claim.createdAt + e.claim.Ttl()) }

  /** The entries as a scan that never saw a heartbeat would have them. */
  function Blind(es: seq<Entry>): seq<Entry> {
    if es == [] then [] else Blind(Init(es)) + [Original(Last(es))]
  }

  lemma BlindConcat(es: seq<Entry>, tail: seq<Entry>)
    requires |tail| <= 1
    ensures Blind(es + tail) == Blind(es) + Blind(tail)
  {
    if tail == [] {
      assert es + tail == es;
    } else {
      assert Init(es + tail) == es && Last(es + tail) == tail[0] && Init(tail) == [];
    }
  }

  lemma BlindOne(e: Entry)
    ensures Blind([e]) == [Original(e)]
  {
    assert Init([e]) == [];
  }

  lemma {:induction false} KindsFacts(log: seq<Message>, kinds: seq<MessageType>, id: string)
    requires Positive(log) && ReleaseMsg in kinds && TransferMsg in kinds
    ensures FirstEnd(Matching(log, ByKinds(kinds)), id) == FirstEnd(log, id)
    ensures LastBeat(Matching(log, ByKinds(kinds)), id) == if HeartbeatMsg in kinds then LastBeat(log, id) else 0
  {
    if log != [] {
      KindsFacts(Init(log), kinds, id);
      assert Last(log) == log[|log| - 1];
      if Wanted(Last(log), ByKinds(kinds)) {
        ConcatLast(Matching(Init(log), ByKinds(kinds)), Last(log));
      } else {
        assert Matching(log, ByKinds(kinds)) == Matching(Init(log), ByKinds(kinds));
      }
    }
  }

  lemma SameEntry(log: seq<Message>, other: seq<Message>, m: Message)
    requires Claims(m)
    requires FirstEnd(other, ClaimOf(m).claimId) == FirstEnd(log, ClaimOf(m).claimId)
    requires LastBeat(other, ClaimOf(m).claimId) == LastBeat(log, ClaimOf(m).claimId)
    ensures EntryOf(other, m) == EntryOf(log, m)
  {
    assert DeadlineIn(other, ClaimOf(m)) == DeadlineIn(log, ClaimOf(m));
  }

  lemma BlindEntry(log: seq<Message>, other: seq<Message>, m: Message)
    requires Claims(m)
    requires FirstEnd(other, ClaimOf(m).claimId) == FirstEnd(log, ClaimOf(m).claimId)
    requires LastBeat(other, ClaimOf(m).claimId) == 0
    ensures EntryOf(other, m) == Blind(EntryOf(log, m))
  {
    var e := Entry(ClaimOf(m), DeadlineIn(log, ClaimOf(m)));
    BlindOne(e);
    assert Original(e) == Entry(ClaimOf(m), DeadlineIn(other, ClaimOf(m)));
  }

  lemma KindsEntryOf(log: seq<Message>, kinds: seq<MessageType>, m: Message)
    requires Positive(log) && ReleaseMsg in kinds && TransferMsg in kinds
    ensures EntryOf(Matching(log, ByKinds(kinds)), m)
            == if HeartbeatMsg in kinds then EntryOf(log, m) else Blind(EntryOf(log, m))
  {
    if Claims(m) {
      KindsFacts(log, kinds, ClaimOf(m).claimId);
      if HeartbeatMsg in kinds {
        SameEntry(log, Matching(log, ByKinds(kinds)), m);
      } else {
        BlindEntry(log, Matching(log, ByKinds(kinds)), m);
      }
    }
  }

  lemma {:induction false} KindsScan(log: seq<Message>, rest: seq<Message>, kinds: seq<MessageType>)
    requires Positive(log) && Positive(rest) && ClaimMsg in kinds && ReleaseMsg in kinds && TransferMsg in kinds
    ensures Scan(Matching(log, ByKinds(kinds)), Matching(rest, ByKinds(kinds)))
            == if HeartbeatMsg in kinds then Scan(log, rest) else Blind(Scan(log, rest))
  {
    if rest != [] {
      KindsScan(log, Init(rest), kinds);
      KindsEntryOf(log, kinds, Last(rest));
      BlindConcat(Scan(log, Init(rest)), EntryOf(log, Last(rest)));
      assert Last(rest) == rest[|rest| - 1];
      if Wanted(Last(rest), ByKinds(kinds)) {
        ConcatLast(Matching(Init(rest), ByKinds(kinds)), Last(rest));
      } else {
        assert Matching(rest, ByKinds(kinds)) == Matching(Init(rest), ByKinds(kinds));
      }
    }
  }

  /** A SQL provider sees the memory provider's claims, each with its original deadline. */
  lemma SqlEntries(log: seq<Message>)
    requires Positive(log)
    ensures Entries(SqlView(log)) == Blind(Entries(log))
  {
    KindsScan(log, log, SQL_KINDS);
  }

  /** Types other than claim, release, transfer and heartbeat never matter to either provider. */
  lemma OtherTypesNeverMatter(log: seq<Message>, now: int)
    requires Positive(log)
    ensures Active(Matching(log, ByKinds(COORDINATION_KINDS)), now) == Active(log, now)
    ensures Active(SqlView(Matching(log, ByKinds(COORDINATION_KINDS))), now) == Active(SqlView(log), now)
  {
    KindsScan(log, log, COORDINATION_KINDS);
    var relevant := Matching(log, ByKinds(COORDINATION_KINDS));
    MatchingPositive(log, ByKinds(COORDINATION_KINDS));
    SqlEntries(relevant);
    SqlEntries(log);
  }

  lemma {:induction false} MatchingPositive(log: seq<Message>, opts: QueryOpts)
    requires Positive(log)
    ensures Positive(Matching(log, opts))
  {
    if log != [] {
      MatchingPositive(Init(log), opts);
      assert Last(log) == log[|log| - 1];
    }
  }

  lemma SqlViewIsWellFormed(log: seq<Message>)
    requires WellFormed(log)
    ensures WellFormed(SqlView(log))
  {
    var t := SqlView(log);
    MatchingIsOrdered(log, ByKinds(SQL_KINDS));
    forall i, j | 0 <= i < j < |t|
      ensures exists p, q :: 0 <= p < q < |log| && log[p] == t[i] && log[q] == t[j]
    {
      assert t[i] in log && t[j] in log;
      var p :| 0 <= p < |log| && log[p] == t[i];
      var q :| 0 <= q < |log| && log[q] == t[j];
      assert t[i].offset < t[j].offset && p != q;
    }
    forall i | 0 <= i < |t| ensures t[i] in log {
      assert t[i] in t;
    }
  }

  lemma {:induction false} DeadlinesOnlyMoveForward(log: seq<Message>, rest: seq<Message>)
    ensures forall e :: e in Scan(log, rest) ==> e.deadline >= Original(e).deadline
  {
    forall e | e in Scan(log, rest) ensures e.deadline >= Original(e).deadline {
      ScanOrigin(log, rest, e);
    }
  }

  lemma {:induction false} LiveBlind(es: seq<Entry>, now: int)
    requires forall e :: e in es ==> e.deadline >= Original(e).deadline
    ensures Live(Blind(es), now) == LiveIf(es, now, (e: Entry) => Original(e).deadline >= now)
  {
    if es != [] {
      assert es == Init(es) + [Last(es)];
      LiveBlind(Init(es), now);
      LiveConcat(Blind(Init(es)), [Original(Last(es))], now);
      assert Init([Original(Last(es))]) == [];
    }
  }

  /**
   * SQLite's active claims are a sub-list of the memory provider's on the same log, and the two are
   * equal exactly when no claim still active owes it to a heartbeat.
   */
  lemma SqlIsSubList(log: seq<Message>, now: int)
    requires Positive(log)
    ensures SubList(Active(SqlView(log), now), Active(log, now))
    ensures Active(SqlView(log), now) == Active(log, now)
            <==> forall e :: e in Entries(log) && e.deadline >= now ==> Original(e).deadline >= now
  {
    SqlEntries(log);
    DeadlinesOnlyMoveForward(log, log);
    LiveBlind(Entries(log), now);
    LiveIfIsSubList(Entries(log), now, (e: Entry) => Original(e).deadline >= now);
    LiveIfKeepsAll(Entries(log), now, (e: Entry) => Original(e).deadline >= now);
  }

  // ---------- Sweeping ----------

  /** `ReleaseExpired(before)` deletes the claim: its own lifetime, heartbeats ignored, is over. */
  predicate Expired(c: Claim, before: Instant) { c.createdAt + c.Ttl() < before }

  predicate SweptAway(m: Message, before: Instant) { Claims(m) && Expired(ClaimOf(m), before) }

  function Swept(log: seq<Message>, before: Instant): seq<Message> {
    if log == [] then []
    else Swept(Init(log), before) + if SweptAway(Last(log), before) then [] else [Last(log)]
  }

  lemma {:induction false} SweptMembers(log: seq<Message>, before: Instant)
    ensures forall m :: m in Swept(log, before) <==> m in log && !SweptAway(m, before)
  {
    if log != [] {
      SweptMembers(Init(log), before);
      assert log == Init(log) + [Last(log)];
    }
  }

  /** Exactly the decodable claims go whose own lifetime ended before the given time; all else stays, in order. */
  lemma SweepTakes(log: seq<Message>, before: Instant)
    ensures forall m :: m in Swept(log, before) <==>
              && m in log
              && !(m.kind == ClaimMsg && m.payload.asClaim.Some?
                   && m.payload.asClaim.value.createdAt + m.payload.asClaim.value.ttlSeconds * 1_000_000_000 < before)
    ensures SubList(Swept(log, before), log)
  {
    SweptMembers(log, before);
    SweptIsSubList(log, before);
  }

  lemma {:induction false} SweptIsSubList(log: seq<Message>, before: Instant)
    ensures SubList(Swept(log, before), log)
  {
    if log != [] {
      SweptIsSubList(Init(log), before);
      SubListConcat(Swept(Init(log), before), Init(log), Last(log));
      assert log == Init(log) + [Last(log)] && Swept(Init(log), before) + [] == Swept(Init(log), before);
    }
  }

  function Unexpired(es: seq<Entry>, before: Instant): seq<Entry> {
    if es == [] then []
    else Unexpired(Init(es), before) + if Expired(Last(es).claim, before) then [] else [Last(es)]
  }

  lemma UnexpiredConcat(es: seq<Entry>, tail: seq<Entry>, before: Instant)
    requires |tail| <= 1
    ensures Unexpired(es + tail, before) == Unexpired(es, before) + Unexpired(tail, before)
  {
    if tail == [] {
      assert es + tail == es;
    } else {
      assert Init(es + tail) == es && Last(es + tail) == tail[0] && Init(tail) == [];
    }
  }

  lemma {:induction false} SweptFacts(log: seq<Message>, before: Instant, id: string)
    ensures FirstEnd(Swept(log, before), id) == FirstEnd(log, id)
    ensures LastBeat(Swept(log, before), id) == LastBeat(log, id)
  {
    if log != [] {
      SweptFacts(Init(log), before, id);
      assert Swept(Init(log), before) + [] == Swept(Init(log), before);
      ConcatLast(Swept(Init(log), before), Last(log));
    }
  }

  lemma UnexpiredOne(e: Entry, before: Instant)
    ensures Unexpired([e], before) == if Expired(e.claim, before) then [] else [e]
  {
    assert Init([e]) == [];
  }

  lemma SweptEntryOf(log: seq<Message>, m: Message, before: Instant)
    ensures Unexpired(EntryOf(log, m), before)
            == if SweptAway(m, before) then [] else EntryOf(Swept(log, before), m)
  {
    if Claims(m) {
      SweptFacts(log, before, ClaimOf(m).claimId);
      SameEntry(log, Swept(log, before), m);
      UnexpiredOne(Entry(ClaimOf(m), DeadlineIn(log, ClaimOf(m))), before);
    }
  }

  lemma {:induction false} SweptScan(log: seq<Message>, rest: seq<Message>, before: Instant)
    ensures Scan(Swept(log, before), Swept(rest, before)) == Unexpired(Scan(log, rest), before)
  {
    if rest != [] {
      SweptScan(log, Init(rest), before);
      SweptEntryOf(log, Last(rest), before);
      UnexpiredConcat(Scan(log, Init(rest)), EntryOf(log, Last(rest)), before);
      if SweptAway(Last(rest), before) {
        assert Swept(rest, before) == Swept(Init(rest), before);
      } else {
        ConcatLast(Swept(Init(rest), before), Last(rest));
      }
    }
  }

  lemma {:induction false} LiveUnexpired(es: seq<Entry>, before: Instant, now: int)
    ensures Live(Unexpired(es, before), now) == LiveIf(es, now, (e: Entry) => !Expired(e.claim, before))
  {
    if es != [] {
      LiveUnexpired(Init(es), before, now);
      assert Unexpired(Init(es), before) + [] == Unexpired(Init(es), before);
      LiveConcat(Unexpired(Init(es), before), [Last(es)], now);
      assert Init([Last(es)]) == [];
    }
  }

  /**
   * On the whole log, heartbeats included, a sweep changes the active claims exactly when it deletes
   * a claim that a heartbeat is keeping alive.
   */
  lemma SweepIsInvisibleIff(log: seq<Message>, before: Instant, now: int)
    ensures Active(Swept(log, before), now) == Active(log, now)
            <==> forall e :: e in Entries(log) && e.deadline >= now ==> !Expired(e.claim, before)
  {
    SweptScan(log, log, before);
    LiveUnexpired(Entries(log), before, now);
    LiveIfKeepsAll(Entries(log), now, (e: Entry) => !Expired(e.claim, before));
  }

  lemma {:induction false} SweptMatching(log: seq<Message>, before: Instant, opts: QueryOpts)
    ensures Matching(Swept(log, before), opts) == Swept(Matching(log, opts), before)
  {
    if log != [] {
      var m := Last(log);
      SweptMatching(Init(log), before, opts);
      assert Swept(Init(log), before) + [] == Swept(Init(log), before);
      MatchingConcat(Swept(Init(log), before), m, opts);
      assert Matching(Init(log), opts) + [] == Matching(Init(log), opts);
      ConcatLast(Matching(Init(log), opts), m);
    }
  }

  /** The SQL provider's `ActiveClaims` never notices a sweep up to the present. */
  lemma SweepIsInvisibleToSql(log: seq<Message>, before: Instant, now: int)
    requires Positive(log) && before <= now
    ensures Active(SqlView(Swept(log, before)), now) == Active(SqlView(log), now)
  {
    SweptMatching(log, before, ByKinds(SQL_KINDS));
    SweepIsInvisibleIff(SqlView(log), before, now);
    SqlEntries(log);
    forall e | e in Entries(SqlView(log)) ensures e.deadline == Original(e).deadline {
      BlindIsOriginal(Entries(log), e);
    }
  }

  lemma {:induction false} BlindIsOriginal(es: seq<Entry>, e: Entry)
    requires e in Blind(es)
    ensures e == Original(e)
  {
    if e != Original(Last(es)) { BlindIsOriginal(Init(es), e); }
  }
}
