/** pkg/hearsay/activeclaims.go: the two scans that decide which claims are still held. */
module ActiveClaims {
  import opened Messages

  predicate Claims(m: Message) { m.kind.ClaimMsg? && m.payload.asClaim.Some? }

  function ClaimOf(m: Message): Claim
    requires Claims(m)
  {
    m.payload.asClaim.value
  }

  predicate Ends(m: Message, id: string) {
    (m.kind.ReleaseMsg? || m.kind.TransferMsg?) && m.payload.asRef == Some(id)
  }

  predicate Beats(m: Message, id: string) { m.kind.HeartbeatMsg? && m.payload.asRef == Some(id) }

  // ---------- What the two-pass scan computes ----------

  /** The smallest offset at which `id` is released or transferred. */
  function FirstEnd(log: seq<Message>, id: string): Option<nat> {
    if log == [] then None
    else
      var before := FirstEnd(Init(log), id);
      if Ends(Last(log), id) && (before.None? || Last(log).offset < before.value)
      then Some(Last(log).offset)
      else before
  }

  /** The latest heartbeat for `id`, or the zero time. */
  function LastBeat(log: seq<Message>, id: string): Instant {
    if log == [] then 0
    else if Beats(Last(log), id) then Max(LastBeat(Init(log), id), Last(log).timestamp)
    else LastBeat(Init(log), id)
  }

  /** A claim that has not been released or transferred, and the instant it lapses. */
  datatype Entry = Entry(claim: Claim, deadline: int)

  function DeadlineIn(log: seq<Message>, c: Claim): int {
    Max(c.createdAt, if c.claimId == "" then 0 else LastBeat(log, c.claimId)) + c.Ttl()
  }

  predicate EndedIn(log: seq<Message>, id: string, offset: nat) {
    id != "" && FirstEnd(log, id).Some? && FirstEnd(log, id).value > offset
  }

  function EntryOf(log: seq<Message>, m: Message): seq<Entry> {
    if Claims(m) && !EndedIn(log, ClaimOf(m).claimId, m.offset)
    then [Entry(ClaimOf(m), DeadlineIn(log, ClaimOf(m)))]
    else []
  }

  function Scan(log: seq<Message>, rest: seq<Message>): seq<Entry> {
    if rest == [] then [] else Scan(log, Init(rest)) + EntryOf(log, Last(rest))
  }

  function Entries(log: seq<Message>): seq<Entry> { Scan(log, log) }

  /** The claims that have not lapsed at `now`. */
  function Live(es: seq<Entry>, now: int): seq<Claim> {
    if es == [] then []
    else Live(Init(es), now) + if Last(es).deadline >= now then [Last(es).claim] else []
  }

  function Active(log: seq<Message>, now: int): seq<Claim> { Live(Entries(log), now) }

  lemma LiveConcat(es: seq<Entry>, tail: seq<Entry>, now: int)
    requires |tail| <= 1
    ensures Live(es + tail, now) == Live(es, now) + Live(tail, now)
  {
    if tail == [] {
      assert es + tail == es;
    } else {
      assert Init(es + tail) == es && Last(es + tail) == tail[0];
      assert Init(tail) == [];
    }
  }

  /** The first pass of `FilterActiveClaims`: release offsets and last heartbeats. */
  method CollectEnds(msgs: seq<Message>) returns (released: map<string, nat>, lastHeartbeats: map<string, Instant>)
    ensures forall id :: id in released <==> id != "" && FirstEnd(msgs, id).Some?
    ensures forall id :: id in released ==> released[id] == FirstEnd(msgs, id).value
    ensures forall id :: id in lastHeartbeats <==> id != "" && LastBeat(msgs, id) > 0
    ensures forall id :: id in lastHeartbeats ==> lastHeartbeats[id] == LastBeat(msgs, id)
  {
    released, lastHeartbeats := map[], map[];
    for i := 0 to |msgs|
      invariant forall id :: id in released <==> id != "" && FirstEnd(msgs[..i], id).Some?
      invariant forall id :: id in released ==> released[id] == FirstEnd(msgs[..i], id).value
      invariant forall id :: id in lastHeartbeats <==> id != "" && LastBeat(msgs[..i], id) > 0
      invariant forall id :: id in lastHeartbeats ==> lastHeartbeats[id] == LastBeat(msgs[..i], id)
    {
      var m := msgs[i];
      assert Init(msgs[..i + 1]) == msgs[..i] && Last(msgs[..i + 1]) == m;
      if m.kind.ReleaseMsg? || m.kind.TransferMsg? {
        if m.payload.asRef.Some? && m.payload.asRef.value != "" {
          var id := m.payload.asRef.value;
          if id !in released || m.offset < released[id] {
            released := released[id := m.offset];
          }
        }
      }
      if m.kind.HeartbeatMsg? {
        if m.payload.asRef.Some? && m.payload.asRef.value != "" {
          var id := m.payload.asRef.value;
          var existing := if id in lastHeartbeats then lastHeartbeats[id] else 0;
          if m.timestamp > existing {
            lastHeartbeats := lastHeartbeats[id := m.timestamp];
          }
        }
      }
    }
    assert msgs[..|msgs|] == msgs;
  }

  /** The deadline of a claim in the second pass: a heartbeat counts if it came after the claim. */
  method Deadline(c: Claim, lastHeartbeats: map<string, Instant>) returns (deadline: int)
    ensures deadline == Max(c.createdAt, if c.claimId in lastHeartbeats then lastHeartbeats[c.claimId] else 0) + c.Ttl()
  {
    deadline := c.createdAt + c.Ttl();
    if c.claimId in lastHeartbeats && lastHeartbeats[c.claimId] > c.createdAt {
      var hbDeadline := lastHeartbeats[c.claimId] + c.Ttl();
      if hbDeadline > deadline {
        deadline := hbDeadline;
      }
    }
  }

  /** What the second pass does with one more message. */
  lemma ScanOneMore(msgs: seq<Message>, i: nat, now: int)
    requires i < |msgs|
    ensures Live(Scan(msgs, msgs[..i + 1]), now) == Live(Scan(msgs, msgs[..i]), now) + Live(EntryOf(msgs, msgs[i]), now)
    ensures Live(EntryOf(msgs, msgs[i]), now)
            == if Claims(msgs[i]) && !EndedIn(msgs, ClaimOf(msgs[i]).claimId, msgs[i].offset)
                  && now <= DeadlineIn(msgs, ClaimOf(msgs[i]))
               then [ClaimOf(msgs[i])] else []
  {
    assert Init(msgs[..i + 1]) == msgs[..i] && Last(msgs[..i + 1]) == msgs[i];
    LiveConcat(Scan(msgs, msgs[..i]), EntryOf(msgs, msgs[i]), now);
    var es := EntryOf(msgs, msgs[i]);
    if es != [] { assert Init(es) == []; }
  }

  /** `FilterActiveClaims`: release offsets and heartbeats in one pass, claims in the next. */
  method FilterActiveClaims(msgs: seq<Message>, now: Instant) returns (result: seq<Claim>)
    ensures result == Active(msgs, now)
  {
    var released, lastHeartbeats := CollectEnds(msgs);
    result := [];
    for i := 0 to |msgs|
      invariant result == Live(Scan(msgs, msgs[..i]), now)
    {
      var m := msgs[i];
      ScanOneMore(msgs, i, now);
      if !m.kind.ClaimMsg? || m.payload.asClaim.None? {
        continue;
      }
      var c := m.payload.asClaim.value;
      if c.claimId in released && released[c.claimId] > m.offset {
        continue;
      }
      var deadline := Deadline(c, lastHeartbeats);
      assert deadline == DeadlineIn(msgs, c);
      if now > deadline {
        continue;
      }
      result := result + [c];
    }
    assert msgs[..|msgs|] == msgs;
  }

  // ---------- The per-claim scan ----------

  /** The claim at `offset` has no release or transfer after it and some renewal that still covers `now`. */
  ghost predicate ActiveAfter(log: seq<Message>, offset: int, c: Claim, now: int) {
    && (forall k :: 0 <= k < |log| && log[k].offset > offset ==> !Ends(log[k], c.claimId))
    && (now <= c.createdAt + c.Ttl()
        || exists k :: 0 <= k < |log| && log[k].offset > offset && Beats(log[k], c.claimId)
                       && now <= log[k].timestamp + c.Ttl())
  }

  /** `IsClaimActive`. `now` is the reading of the clock used when `maxAgeSince` is the zero time. */
  method IsClaimActive(msgs: seq<Message>, claimOffset: int, claim: Claim, maxAgeSince: Instant, now: Instant)
    returns (active: bool)
    ensures active <==> ActiveAfter(msgs, claimOffset, claim, if IsZero(maxAgeSince) then now else maxAgeSince)
  {
    for i := 0 to |msgs|
      invariant forall k :: 0 <= k < i && msgs[k].offset > claimOffset ==> !Ends(msgs[k], claim.claimId)
    {
      var m := msgs[i];
      if m.offset <= claimOffset { continue; }
      if !m.kind.ReleaseMsg? && !m.kind.TransferMsg? { continue; }
      if m.payload.asRef.None? { continue; }
      if m.payload.asRef.value == claim.claimId { return false; }
    }
    var asOf := if IsZero(maxAgeSince) then now else maxAgeSince;
    var deadline := claim.createdAt + claim.Ttl();
    for i := 0 to |msgs|
      invariant asOf <= deadline <==>
                asOf <= claim.createdAt + claim.Ttl()
                || exists k :: 0 <= k < i && msgs[k].offset > claimOffset && Beats(msgs[k], claim.claimId)
                               && asOf <= msgs[k].timestamp + claim.Ttl()
    {
      var m := msgs[i];
      if m.offset <= claimOffset { continue; }
      if !m.kind.HeartbeatMsg? { continue; }
      if m.payload.asRef.None? { continue; }
      if m.payload.asRef.value == claim.claimId {
        var hbDeadline := m.timestamp + claim.Ttl();
        if hbDeadline > deadline {
          deadline := hbDeadline;
        }
      }
    }
    return !(asOf > deadline);
  }
}
