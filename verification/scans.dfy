/** The two scans of pkg/hearsay/activeclaims.go compared, and both compared with a replay of the log. */
module Scans {
  import opened Messages
  import opened ActiveClaims

  // ---------- What the maps of the first pass hold ----------

  lemma {:induction false} FirstEndFacts(log: seq<Message>, id: string)
    ensures FirstEnd(log, id).None? <==> forall k :: 0 <= k < |log| ==> !Ends(log[k], id)
    ensures FirstEnd(log, id).Some? ==>
              exists k :: 0 <= k < |log| && Ends(log[k], id) && log[k].offset == FirstEnd(log, id).value
    ensures forall k :: 0 <= k < |log| && Ends(log[k], id) ==> FirstEnd(log, id).value <= log[k].offset
  {
    if log != [] {
      FirstEndFacts(Init(log), id);
      assert forall k :: 0 <= k < |log| ==> log[k] == if k < |log| - 1 then Init(log)[k] else Last(log);
      if Ends(Last(log), id) { assert Ends(log[|log| - 1], id); }
    }
  }

  lemma {:induction false} LastBeatFacts(log: seq<Message>, id: string)
    ensures forall k :: 0 <= k < |log| && Beats(log[k], id) ==> log[k].timestamp <= LastBeat(log, id)
    ensures LastBeat(log, id) > 0 ==>
              exists k :: 0 <= k < |log| && Beats(log[k], id) && log[k].timestamp == LastBeat(log, id)
  {
    if log != [] {
      LastBeatFacts(Init(log), id);
      assert forall k :: 0 <= k < |log| ==> log[k] == if k < |log| - 1 then Init(log)[k] else Last(log);
      if Beats(Last(log), id) { assert Beats(log[|log| - 1], id); }
    }
  }

  // ---------- What the fast scan keeps ----------

  lemma EndedInMeans(log: seq<Message>, id: string, offset: nat)
    ensures EndedIn(log, id, offset) <==>
            && id != "" && (exists e :: e in log && Ends(e, id))
            && (forall e :: e in log && Ends(e, id) ==> e.offset > offset)
  {
    FirstEndFacts(log, id);
    forall e | e in log && Ends(e, id) ensures FirstEnd(log, id).Some? && FirstEnd(log, id).value <= e.offset {
      var k :| 0 <= k < |log| && log[k] == e;
      assert Ends(log[k], id);
    }
    if FirstEnd(log, id).Some? {
      var k :| 0 <= k < |log| && Ends(log[k], id) && log[k].offset == FirstEnd(log, id).value;
      assert log[k] in log;
    }
  }

  lemma DeadlineInMeans(log: seq<Message>, c: Claim, now: int)
    ensures now <= DeadlineIn(log, c) <==>
            || now <= c.createdAt + c.Ttl()
            || (c.claimId != "" && exists h :: h in log && Beats(h, c.claimId) && now <= h.timestamp + c.Ttl())
  {
    LastBeatFacts(log, c.claimId);
    forall h | h in log && Beats(h, c.claimId) ensures h.timestamp <= LastBeat(log, c.claimId) {
      var k :| 0 <= k < |log| && log[k] == h;
      assert Beats(log[k], c.claimId);
    }
    if LastBeat(log, c.claimId) > 0 {
      var k :| 0 <= k < |log| && Beats(log[k], c.claimId) && log[k].timestamp == LastBeat(log, c.claimId);
      assert log[k] in log;
    }
  }

  /**
   * On any log: the fast scan keeps a claim message's claim exactly when its id is empty, or nothing ends
   * the id, or something ends it no later than the claim; and when its own lifetime or that after some
   * heartbeat for its non-empty id is not over.
   */
  lemma FastScanKeeps(log: seq<Message>, m: Message, now: int)
    requires m.kind == ClaimMsg && m.payload.asClaim.Some?
    ensures var c := m.payload.asClaim.value;
            Live(EntryOf(log, m), now) ==
            if && (c.claimId == "" || (forall e :: e in log ==> !Ends(e, c.claimId))
                   || (exists e :: e in log && Ends(e, c.claimId) && e.offset <= m.offset))
               && (now <= c.createdAt + c.Ttl()
                   || (c.claimId != "" && exists h :: h in log && Beats(h, c.claimId) && now <= h.timestamp + c.Ttl()))
            then [c] else []
  {
    var c, es := m.payload.asClaim.value, EntryOf(log, m);
    EndedInMeans(log, c.claimId, m.offset);
    DeadlineInMeans(log, c, now);
    if es != [] { assert Init(es) == []; }
  }

  /** The claims the fast scan returns for a log, message by message. */
  lemma ScanConcat(log: seq<Message>, rest: seq<Message>, m: Message, now: int)
    ensures Live(Scan(log, rest + [m]), now) == Live(Scan(log, rest), now) + Live(EntryOf(log, m), now)
  {
    assert Init(rest + [m]) == rest && Last(rest + [m]) == m;
    LiveConcat(Scan(log, rest), EntryOf(log, m), now);
  }

  // ---------- When the fast scan and the slow scan agree ----------

  /** The fast scan keeps the claim `c` found at `offset`. */
  predicate Keeps(log: seq<Message>, offset: nat, c: Claim, now: int) {
    !EndedIn(log, c.claimId, offset) && now <= DeadlineIn(log, c)
  }

  ghost predicate EndedLater(log: seq<Message>, offset: nat, id: string) {
    exists k :: 0 <= k < |log| && log[k].offset > offset && Ends(log[k], id)
  }

  /**
   * What a caller can check on the log before trusting either scan with the claim at `offset`:
   * a claim that was ended has a non-empty id and no earlier release; for a claim that was not,
   * no heartbeat seen by only one of the scans is the one that decides the deadline. What lies
   * before the first instant a clock can show, as a negative TTL may put it, makes no difference.
   */
  ghost predicate Unambiguous(log: seq<Message>, offset: nat, c: Claim) {
    if EndedLater(log, offset, c.claimId) then
      || DeadlineIn(log, c) < 0
      || (c.claimId != "" && forall k :: 0 <= k < |log| && Ends(log[k], c.claimId) ==> log[k].offset > offset)
    else if c.claimId == "" then
      forall k :: 0 <= k < |log| && log[k].offset > offset && Beats(log[k], "") ==>
        log[k].timestamp <= c.createdAt || log[k].timestamp + c.Ttl() < 0
    else
      forall k :: 0 <= k < |log| && log[k].offset <= offset && Beats(log[k], c.claimId) ==>
        || log[k].timestamp <= c.createdAt || log[k].timestamp + c.Ttl() < 0
        || exists j :: 0 <= j < |log| && log[j].offset > offset && Beats(log[j], c.claimId)
                       && log[j].timestamp >= log[k].timestamp
  }

  lemma AgreeWhenUnambiguous(log: seq<Message>, offset: nat, c: Claim, now: Instant)
    requires Unambiguous(log, offset, c)
    ensures Keeps(log, offset, c, now) <==> ActiveAfter(log, offset, c, now)
  {
    FirstEndFacts(log, c.claimId);
    LastBeatFacts(log, c.claimId);
    if !EndedLater(log, offset, c.claimId) && c.claimId != "" && LastBeat(log, c.claimId) > c.createdAt {
      var k :| 0 <= k < |log| && Beats(log[k], c.claimId) && log[k].timestamp == LastBeat(log, c.claimId);
      if log[k].offset <= offset && log[k].timestamp + c.Ttl() >= 0 {
        var j :| 0 <= j < |log| && log[j].offset > offset && Beats(log[j], c.claimId)
                 && log[j].timestamp >= log[k].timestamp;
      }
    }
  }

  lemma DisagreeWhenAmbiguous(log: seq<Message>, offset: nat, c: Claim) returns (now: Instant)
    requires !Unambiguous(log, offset, c)
    ensures Keeps(log, offset, c, now) != ActiveAfter(log, offset, c, now)
  {
    FirstEndFacts(log, c.claimId);
    LastBeatFacts(log, c.claimId);
    if EndedLater(log, offset, c.claimId) {
      now := DeadlineIn(log, c);
    } else if c.claimId == "" {
      var k :| 0 <= k < |log| && log[k].offset > offset && Beats(log[k], "") && log[k].timestamp > c.createdAt
               && log[k].timestamp + c.Ttl() >= 0;
      now := log[k].timestamp + c.Ttl();
    } else {
      var k :| 0 <= k < |log| && log[k].offset <= offset && Beats(log[k], c.claimId)
               && log[k].timestamp > c.createdAt && log[k].timestamp + c.Ttl() >= 0
               && forall j :: 0 <= j < |log| && log[j].offset > offset && Beats(log[j], c.claimId) ==>
                    log[j].timestamp < log[k].timestamp;
      now := log[k].timestamp + c.Ttl();
    }
  }

  /** On every log whatsoever, the scans agree about a claim at every reading of the clock exactly when it is unambiguous. */
  lemma ScansAgreeExactly(log: seq<Message>, offset: nat, c: Claim)
    ensures (forall now: Instant :: Keeps(log, offset, c, now) <==> ActiveAfter(log, offset, c, now))
            <==> Unambiguous(log, offset, c)
  {
    if Unambiguous(log, offset, c) {
      forall now: Instant ensures Keeps(log, offset, c, now) <==> ActiveAfter(log, offset, c, now) {
        AgreeWhenUnambiguous(log, offset, c, now);
      }
    } else {
      var now := DisagreeWhenAmbiguous(log, offset, c);
      assert Keeps(log, offset, c, now) != ActiveAfter(log, offset, c, now);
    }
  }

  // ---------- Well-formed logs ----------

  predicate Mentions(m: Message, id: string) { Ends(m, id) || Beats(m, id) }

  /** Growing offsets, unique non-empty claim ids, and nothing about a claim before the claim. */
  ghost predicate WellFormed(log: seq<Message>) {
    && Sorted(log)
    && (forall i :: 0 <= i < |log| && Claims(log[i]) ==> ClaimOf(log[i]).claimId != "")
    && (forall i, j :: 0 <= i < j < |log| && Claims(log[j]) ==>
          && (Claims(log[i]) ==> ClaimOf(log[i]).claimId != ClaimOf(log[j]).claimId)
          && !Mentions(log[i], ClaimOf(log[j]).claimId))
  }

  /** The claims of the log that the per-claim scan calls active, in log order. */
  ghost function ActiveOneByOne(log: seq<Message>, rest: seq<Message>, now: int): seq<Claim> {
    if rest == [] then []
    else
      var m := Last(rest);
      ActiveOneByOne(log, Init(rest), now)
      + if Claims(m) && ActiveAfter(log, m.offset, ClaimOf(m), now) then [ClaimOf(m)] else []
  }

  lemma OnlyLaterMentions(log: seq<Message>, i: nat)
    requires WellFormed(log) && i < |log| && Claims(log[i])
    ensures forall k :: 0 <= k < |log| && Mentions(log[k], ClaimOf(log[i]).claimId) ==> log[k].offset > log[i].offset
  {
    forall k | 0 <= k < |log| && Mentions(log[k], ClaimOf(log[i]).claimId) ensures log[k].offset > log[i].offset {
      if k < i { assert false; }
      assert k != i;
    }
  }

  lemma WellFormedIsUnambiguous(log: seq<Message>, i: nat)
    requires WellFormed(log) && i < |log| && Claims(log[i])
    ensures Unambiguous(log, log[i].offset, ClaimOf(log[i]))
  {
    OnlyLaterMentions(log, i);
    assert forall k :: 0 <= k < |log| && Ends(log[k], ClaimOf(log[i]).claimId) ==> Mentions(log[k], ClaimOf(log[i]).claimId);
    assert forall k :: 0 <= k < |log| && Beats(log[k], ClaimOf(log[i]).claimId) ==> Mentions(log[k], ClaimOf(log[i]).claimId);
  }

  lemma EntryIsActive(log: seq<Message>, i: nat, now: Instant)
    requires WellFormed(log) && i < |log| && Claims(log[i])
    ensures Live(EntryOf(log, log[i]), now)
            == if ActiveAfter(log, log[i].offset, ClaimOf(log[i]), now) then [ClaimOf(log[i])] else []
  {
    WellFormedIsUnambiguous(log, i);
    AgreeWhenUnambiguous(log, log[i].offset, ClaimOf(log[i]), now);
    if EntryOf(log, log[i]) != [] { assert Init(EntryOf(log, log[i])) == []; }
  }

  lemma {:induction false} ScanKeepsActive(log: seq<Message>, n: nat, now: Instant)
    requires WellFormed(log) && n <= |log|
    ensures Live(Scan(log, log[..n]), now) == ActiveOneByOne(log, log[..n], now)
  {
    if n > 0 {
      assert Init(log[..n]) == log[..n - 1] && Last(log[..n]) == log[n - 1];
      ScanKeepsActive(log, n - 1, now);
      LiveConcat(Scan(log, log[..n - 1]), EntryOf(log, log[n - 1]), now);
      if Claims(log[n - 1]) { EntryIsActive(log, n - 1, now); }
    }
  }

  /** On well-formed logs the two scans give the same claims in the same order. */
  lemma ScansAgree(log: seq<Message>, now: Instant)
    requires WellFormed(log)
    ensures Active(log, now) == ActiveOneByOne(log, log, now)
  {
    assert log[..|log|] == log;
    ScanKeepsActive(log, |log|, now);
  }

  /** A release, its claim, and a second release: the first release hides the second from the fast scan only. */
  lemma EarlyReleaseHidesLaterOne(log: seq<Message>, c: Claim)
    requires |log| == 3 && Sorted(log) && c.claimId != ""
    requires Ends(log[0], c.claimId) && Claims(log[1]) && ClaimOf(log[1]) == c && Ends(log[2], c.claimId)
    ensures Keeps(log, log[1].offset, c, c.createdAt + c.Ttl())
    ensures !ActiveAfter(log, log[1].offset, c, c.createdAt + c.Ttl())
  {
    FirstEndFacts(log, c.claimId);
    LastBeatFacts(log, c.claimId);
    assert log[2].offset > log[1].offset > log[0].offset;
  }

  // ---------- Appending one message ----------

  /** `es` without the entries of claim `id`. */
  function Without(es: seq<Entry>, id: string): seq<Entry> {
    if es == [] then []
    else Without(Init(es), id) + if Last(es).claim.claimId == id then [] else [Last(es)]
  }

  function Extended(e: Entry, id: string, at: Instant): Entry {
    if e.claim.claimId == id then e.(deadline := Max(e.deadline, at + e.claim.Ttl())) else e
  }

  /** `es` with the deadlines of claim `id` moved forward by a heartbeat at `at`. */
  function Extend(es: seq<Entry>, id: string, at: Instant): seq<Entry> {
    if es == [] then [] else Extend(Init(es), id, at) + [Extended(Last(es), id, at)]
  }

  function RefOf(m: Message): string { if m.payload.asRef.Some? then m.payload.asRef.value else "" }

  /** How a message changes the entries already there: on any log, ids that are empty or already ended change nothing. */
  function Effect(log: seq<Message>, es: seq<Entry>, m: Message): seq<Entry> {
    var id := RefOf(m);
    if id == "" then es
    else if Ends(m, id) then if FirstEnd(log, id).None? then Without(es, id) else es
    else if Beats(m, id) then Extend(es, id, m.timestamp)
    else es
  }

  lemma ConcatLast<T>(s: seq<T>, x: T)
    ensures Init(s + [x]) == s && Last(s + [x]) == x
  {}

  lemma WithoutConcat(es: seq<Entry>, e: Entry, id: string)
    ensures Without(es + [e], id) == Without(es, id) + if e.claim.claimId == id then [] else [e]
  {
    ConcatLast(es, e);
  }

  lemma ExtendConcat(es: seq<Entry>, e: Entry, id: string, at: Instant)
    ensures Extend(es + [e], id, at) == Extend(es, id, at) + [Extended(e, id, at)]
  {
    ConcatLast(es, e);
  }

  lemma EffectConcat(log: seq<Message>, es: seq<Entry>, tail: seq<Entry>, m: Message)
    requires |tail| <= 1
    ensures Effect(log, es + tail, m) == Effect(log, es, m) + Effect(log, tail, m)
  {
    if tail == [] {
      assert es + tail == es;
    } else {
      assert es + tail == es + [tail[0]] && tail == [] + [tail[0]];
      WithoutConcat(es, tail[0], RefOf(m));
      WithoutConcat([], tail[0], RefOf(m));
      ExtendConcat(es, tail[0], RefOf(m), m.timestamp);
      ExtendConcat([], tail[0], RefOf(m), m.timestamp);
    }
  }

  lemma EffectOfOne(log: seq<Message>, e: Entry, m: Message)
    ensures var id := RefOf(m);
            Effect(log, [e], m) ==
            if id == "" || id != e.claim.claimId then [e]
            else if Ends(m, id) then if FirstEnd(log, id).None? then [] else [e]
            else if Beats(m, id) then [Extended(e, id, m.timestamp)]
            else [e]
  {
    assert [e] == [] + [e];
    WithoutConcat([], e, RefOf(m));
    ExtendConcat([], e, RefOf(m), m.timestamp);
  }

  lemma EntryOfAppended(log: seq<Message>, m: Message, earlier: Message)
    requires earlier.offset < m.offset
    ensures EntryOf(log + [m], earlier) == Effect(log, EntryOf(log, earlier), m)
  {
    ConcatLast(log, m);
    if Claims(earlier) {
      var e := Entry(ClaimOf(earlier), DeadlineIn(log, ClaimOf(earlier)));
      EffectOfOne(log, e, m);
      FirstEndFacts(log, e.claim.claimId);
    }
  }

  lemma {:induction false} ScanAppended(log: seq<Message>, m: Message, rest: seq<Message>)
    requires forall k :: 0 <= k < |rest| ==> rest[k].offset < m.offset
    ensures Scan(log + [m], rest) == Effect(log, Scan(log, rest), m)
  {
    if rest != [] {
      ScanAppended(log, m, Init(rest));
      EntryOfAppended(log, m, Last(rest));
      EffectConcat(log, Scan(log, Init(rest)), EntryOf(log, Last(rest)), m);
    }
  }

  /** The scan of a longer log, from the scan of the shorter one: holds on every log in offset order. */
  lemma EntriesAppended(log: seq<Message>, m: Message)
    requires Sorted(log + [m])
    ensures Entries(log + [m]) ==
            if Claims(m) then Entries(log) + [Entry(ClaimOf(m), DeadlineIn(log, ClaimOf(m)))]
            else Effect(log, Entries(log), m)
  {
    assert forall k :: 0 <= k < |log| ==> log[k] == (log + [m])[k] && (log + [m])[|log|] == m;
    ConcatLast(log, m);
    ScanAppended(log, m, log);
    if Claims(m) { FirstEndFacts(log, ClaimOf(m).claimId); }
  }

  // ---------- Replay ----------

  /** One message of the log as an event: claims add, releases and transfers remove, heartbeats extend. */
  function Apply(es: seq<Entry>, m: Message): seq<Entry> {
    if Claims(m) then es + [Entry(ClaimOf(m), ClaimOf(m).createdAt + ClaimOf(m).Ttl())]
    else if m.payload.asRef.None? then es
    else if Ends(m, RefOf(m)) then Without(es, RefOf(m))
    else if Beats(m, RefOf(m)) then Extend(es, RefOf(m), m.timestamp)
    else es
  }

  function Replay(log: seq<Message>): seq<Entry> {
    if log == [] then [] else Apply(Replay(Init(log)), Last(log))
  }

  lemma {:induction false} AbsentId(es: seq<Entry>, id: string, at: Instant)
    requires forall e :: e in es ==> e.claim.claimId != id
    ensures Without(es, id) == es && Extend(es, id, at) == es
  {
    if es != [] {
      assert es == Init(es) + [Last(es)];
      AbsentId(Init(es), id, at);
    }
  }

  /** Every entry is a claim message of the log that the fast scan found not ended. */
  lemma {:induction false} ScanOrigin(log: seq<Message>, rest: seq<Message>, e: Entry)
    requires e in Scan(log, rest)
    ensures exists k :: 0 <= k < |rest| && Claims(rest[k]) && ClaimOf(rest[k]) == e.claim
                        && !EndedIn(log, e.claim.claimId, rest[k].offset) && e.deadline == DeadlineIn(log, e.claim)
  {
    if e in EntryOf(log, Last(rest)) {
      assert rest[|rest| - 1] == Last(rest);
    } else {
      ScanOrigin(log, Init(rest), e);
      var k :| 0 <= k < |Init(rest)| && Claims(Init(rest)[k]) && ClaimOf(Init(rest)[k]) == e.claim
               && !EndedIn(log, e.claim.claimId, Init(rest)[k].offset) && e.deadline == DeadlineIn(log, e.claim);
      assert rest[k] == Init(rest)[k];
    }
  }

  /** On a well-formed log, no entry has an empty id or an id that has been ended. */
  lemma EntryIdsAreOpen(log: seq<Message>, id: string)
    requires WellFormed(log) && (id == "" || FirstEnd(log, id).Some?)
    ensures forall e :: e in Entries(log) ==> e.claim.claimId != id
  {
    FirstEndFacts(log, id);
    forall e | e in Entries(log) ensures e.claim.claimId != id {
      ScanOrigin(log, log, e);
      var k :| 0 <= k < |log| && Claims(log[k]) && ClaimOf(log[k]) == e.claim
               && !EndedIn(log, e.claim.claimId, log[k].offset);
      OnlyLaterMentions(log, k);
    }
  }

  lemma WellFormedPrefix(log: seq<Message>, m: Message)
    requires WellFormed(log + [m])
    ensures WellFormed(log) && Sorted(log + [m])
    ensures Claims(m) ==> forall k :: 0 <= k < |log| ==> !Mentions(log[k], ClaimOf(m).claimId)
  {
    var all := log + [m];
    assert forall k :: 0 <= k < |log| ==> all[k] == log[k];
    assert all[|log|] == m;
    if Claims(m) {
      forall k | 0 <= k < |log| ensures !Mentions(log[k], ClaimOf(m).claimId) {
        assert !Mentions(all[k], ClaimOf(all[|log|]).claimId);
      }
    }
  }

  /** On a well-formed log, one more message does to the scan exactly what it does to the replay. */
  lemma EntriesApply(log: seq<Message>, m: Message)
    requires WellFormed(log + [m])
    ensures Entries(log + [m]) == Apply(Entries(log), m)
  {
    WellFormedPrefix(log, m);
    EntriesAppended(log, m);
    if Claims(m) {
      LastBeatFacts(log, ClaimOf(m).claimId);
    } else if RefOf(m) == "" || FirstEnd(log, RefOf(m)).Some? {
      EntryIdsAreOpen(log, RefOf(m));
      AbsentId(Entries(log), RefOf(m), m.timestamp);
    }
  }

  /** The two-pass scan of a well-formed log is its replay, claim by claim and deadline by deadline. */
  lemma {:induction false} ScanIsReplay(log: seq<Message>)
    requires WellFormed(log)
    ensures Entries(log) == Replay(log)
  {
    if log != [] {
      assert log == Init(log) + [Last(log)];
      WellFormedPrefix(Init(log), Last(log));
      ScanIsReplay(Init(log));
      EntriesApply(Init(log), Last(log));
    }
  }
}
