/** What a sweep of expired claims does to the state the SQL provider reports for an agent. */
module AgentSweeps {
  import opened Messages
  import opened ActiveClaims
  import opened Scans
  import opened Queries
  import opened Views

  /** A message that stays shows the agent at least as late as `m` does. */
  ghost predicate Outlived(log: seq<Message>, m: Message, before: Instant) {
    exists k :: k in log && !SweptAway(k, before) && k.agentId == m.agentId && k.timestamp >= m.timestamp
  }

  /** A sweep never makes an agent look fresher, and changes nothing exactly when what it deletes is outlived. */
  lemma SweepAndLastSeen(log: seq<Message>, before: Instant, agentId: string)
    ensures LastSeen(Swept(log, before), agentId) <= LastSeen(log, agentId)
    ensures LastSeen(Swept(log, before), agentId) == LastSeen(log, agentId) <==>
            forall m :: m in log && m.agentId == agentId && m.timestamp > 0 && SweptAway(m, before) ==> Outlived(log, m, before)
  {
    var left := Swept(log, before);
    LastSeenFacts(log, agentId);
    LastSeenFacts(left, agentId);
    SweptMembers(log, before);
    if LastSeen(left, agentId) == LastSeen(log, agentId) {
      forall m | m in log && m.agentId == agentId && m.timestamp > 0 && SweptAway(m, before) ensures Outlived(log, m, before) {
        var k :| k in left && k.agentId == agentId && k.timestamp == LastSeen(left, agentId);
        assert k in log;
      }
    } else if LastSeen(log, agentId) > 0 {
      var m :| m in log && m.agentId == agentId && m.timestamp == LastSeen(log, agentId);
      assert m !in left && !Outlived(log, m, before);
    }
  }

  /** Leaving out a live entry shortens its owner's list of claims. */
  lemma {:induction false} FewerIds(es: seq<Entry>, now: int, keep: Entry -> bool, agentId: string)
    ensures |IdsOf(LiveIf(es, now, keep), agentId)| <= |IdsOf(Live(es, now), agentId)|
    ensures (exists e :: e in es && e.deadline >= now && !keep(e) && e.claim.agentId == agentId) ==>
              |IdsOf(LiveIf(es, now, keep), agentId)| < |IdsOf(Live(es, now), agentId)|
  {
    if es != [] {
      var e := Last(es);
      FewerIds(Init(es), now, keep, agentId);
      assert es == Init(es) + [e];
      if e.deadline >= now {
        ConcatLast(Live(Init(es), now), e.claim);
        ConcatLast(LiveIf(Init(es), now, keep), e.claim);
        assert LiveIf(Init(es), now, keep) + [] == LiveIf(Init(es), now, keep);
      } else {
        assert LiveIf(Init(es), now, keep) + [] == LiveIf(Init(es), now, keep);
        assert Live(Init(es), now) + [] == Live(Init(es), now);
      }
    }
  }

  /**
   * `AgentState` reads heartbeats, so it can notice a sweep. For every log and both times: no agent's
   * state changes exactly when no live claim owes its life to a heartbeat and no agent was last seen
   * in a claim message that goes.
   */
  lemma SweepIsInvisibleToAgentsIff(log: seq<Message>, before: Instant, now: Instant)
    ensures (forall a :: StateOf(Swept(log, before), a, now) == StateOf(log, a, now)) <==>
            && (forall e :: e in Entries(log) && e.deadline >= now ==> !Expired(e.claim, before))
            && (forall m :: m in log && m.timestamp > 0 && SweptAway(m, before) ==> Outlived(log, m, before))
  {
    var es, keep := Entries(log), (e: Entry) => !Expired(e.claim, before);
    SweptScan(log, log, before);
    LiveUnexpired(es, before, now);
    assert Active(Swept(log, before), now) == LiveIf(es, now, keep);
    SweepIsInvisibleIff(log, before, now);
    forall a ensures LastSeen(Swept(log, before), a) == LastSeen(log, a) <==>
                     forall m :: m in log && m.agentId == a && m.timestamp > 0 && SweptAway(m, before) ==> Outlived(log, m, before)
    {
      SweepAndLastSeen(log, before, a);
    }
    if forall a :: StateOf(Swept(log, before), a, now) == StateOf(log, a, now) {
      forall e | e in es && e.deadline >= now ensures keep(e) {
        FewerIds(es, now, keep, e.claim.agentId);
        assert StateOf(Swept(log, before), e.claim.agentId, now) == StateOf(log, e.claim.agentId, now);
      }
      forall m | m in log && m.timestamp > 0 && SweptAway(m, before) ensures Outlived(log, m, before) {
        assert StateOf(Swept(log, before), m.agentId, now) == StateOf(log, m.agentId, now);
      }
    }
  }
}
