/** A claim that keeps being renewed is never taken for expired by the memory provider. */
module Liveness {
  import opened Messages
  import opened ActiveClaims
  import opened Scans
  import opened Protocol

  /** Each heartbeat of `c` comes at most one lifetime after its creation or after an earlier heartbeat. */
  ghost predicate RenewedInTime(log: seq<Message>, c: Claim) {
    forall k :: 0 <= k < |log| && Beats(log[k], c.claimId) ==>
      || log[k].timestamp <= c.createdAt + c.Ttl()
      || exists j :: 0 <= j < k && Beats(log[j], c.claimId) && log[k].timestamp <= log[j].timestamp + c.Ttl()
  }

  /** `now` lies within one lifetime of the creation or of some heartbeat, past or to come. */
  ghost predicate Covered(log: seq<Message>, c: Claim, now: int) {
    || now <= c.createdAt + c.Ttl()
    || exists k :: 0 <= k < |log| && Beats(log[k], c.claimId) && now <= log[k].timestamp + c.Ttl()
  }

  /** Whatever covers `now` in the whole log, something already in the log at `now` covers it too. */
  lemma {:induction false} CoveredByThePast(log: seq<Message>, n: nat, c: Claim, now: int, k: nat)
    requires n <= |log| && RenewedInTime(log, c)
    requires forall j :: n <= j < |log| ==> log[j].timestamp > now
    requires k < |log| && Beats(log[k], c.claimId) && now <= log[k].timestamp + c.Ttl()
    ensures Covered(log[..n], c, now)
    decreases k
  {
    if k < n {
      assert log[..n][k] == log[k];
    } else if log[k].timestamp > c.createdAt + c.Ttl() {
      var j :| 0 <= j < k && Beats(log[j], c.claimId) && log[k].timestamp <= log[j].timestamp + c.Ttl();
      CoveredByThePast(log, n, c, now, j);
    }
  }

  lemma {:induction false} ScanContains(log: seq<Message>, rest: seq<Message>, i: nat)
    requires i < |rest| && EntryOf(log, rest[i]) != []
    ensures EntryOf(log, rest[i])[0] in Scan(log, rest)
  {
    if i < |rest| - 1 { ScanContains(log, Init(rest), i); }
  }

  /**
   * A claim renewed in time and not ended is active at every moment from its creation until one
   * lifetime after its last heartbeat, judged on the log as it stands at that moment: the messages
   * `log[..n]`, every later one being stamped after `now`.
   */
  lemma RenewedClaimStaysActive(log: seq<Message>, i: nat, n: nat, now: int)
    requires i < n <= |log| && Claims(log[i]) && ClaimOf(log[i]).claimId != ""
    requires forall j :: n <= j < |log| ==> log[j].timestamp > now
    requires forall j :: 0 <= j < n ==> !Ends(log[j], ClaimOf(log[i]).claimId)
    requires RenewedInTime(log, ClaimOf(log[i])) && Covered(log, ClaimOf(log[i]), now)
    ensures ClaimOf(log[i]) in Active(log[..n], now)
  {
    var c, past := ClaimOf(log[i]), log[..n];
    if now > c.createdAt + c.Ttl() {
      var k :| 0 <= k < |log| && Beats(log[k], c.claimId) && now <= log[k].timestamp + c.Ttl();
      CoveredByThePast(log, n, c, now, k);
    }
    FirstEndFacts(past, c.claimId);
    LastBeatFacts(past, c.claimId);
    assert past[i] == log[i];
    assert EntryOf(past, past[i]) == [Entry(c, DeadlineIn(past, c))];
    ScanContains(past, past, i);
    LiveMembers(Entries(past), now);
  }

  /** Once nothing in the whole log covers `now`, the claim is not active: the bound above is tight. */
  lemma UncoveredClaimLapses(log: seq<Message>, c: Claim, now: int)
    requires !Covered(log, c, now)
    ensures c !in Active(log, now)
  {
    LiveMembers(Entries(log), now);
    if c in Active(log, now) {
      var e :| e in Entries(log) && e.deadline >= now && e.claim == c;
      ScanOrigin(log, log, e);
      LastBeatFacts(log, c.claimId);
    }
  }
}
