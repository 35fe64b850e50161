/** cmd/hearsay/cmd_serve.go, lines 131-179: one tick of the loop that releases the claims of dead agents. */
module DeathDetector {
  import opened Messages
  import opened ActiveClaims
  import opened Conflicts
  import opened Scans
  import opened Queries
  import opened Views
  import opened Protocol
  import opened Heartbeats
  import opened Client
  import opened AgentSweeps

  /** The agent has been seen, but not within the timeout. */
  predicate Dead(log: seq<Message>, agentId: string, now: Instant, timeout: nat) {
    LastSeen(log, agentId) != 0 && now - LastSeen(log, agentId) > timeout * SECOND
  }

  function ClaimsBy(claims: seq<Claim>, agentId: string): seq<Claim> {
    if claims == [] then []
    else ClaimsBy(Init(claims), agentId) + if Last(claims).agentId == agentId then [Last(claims)] else []
  }

  /** The claims whose owner is not in `gone`. */
  function OwnedByOthers(claims: seq<Claim>, gone: set<string>): seq<Claim> {
    if claims == [] then []
    else OwnedByOthers(Init(claims), gone) + if Last(claims).agentId in gone then [] else [Last(claims)]
  }

  /** The readings of the clock by which releases are stamped: one for each agent and each of its claims. */
  type Clock = (string, nat) -> Instant

  function ReleaseAll(log: seq<Message>, ns: string, agentId: string, claims: seq<Claim>, clock: Clock): seq<Message> {
    if claims == [] then log
    else
      Store(ReleaseAll(log, ns, agentId, Init(claims), clock), ns,
            RefDraft(ReleaseMsg, agentId, Last(claims).claimId), clock(agentId, |claims| - 1))
  }

  /** The tick over the agents in `order`, an agent's state being read when its turn comes. */
  function TickLog(
    log: seq<Message>, ns: string, order: seq<string>, claims: seq<Claim>, now: Instant, timeout: nat, clock: Clock)
    : seq<Message>
  {
    if order == [] then log
    else
      var before := TickLog(log, ns, Init(order), claims, now, timeout, clock);
      if Dead(before, Last(order), now, timeout)
      then ReleaseAll(before, ns, Last(order), ClaimsBy(claims, Last(order)), clock)
      else before
  }

  /** The agents of `order` that are dead in `log`. */
  function DeadAmong(log: seq<Message>, order: seq<string>, now: Instant, timeout: nat): set<string> {
    set a | a in order && Dead(log, a, now, timeout)
  }

  // ---------- The loop ----------

  method ReleaseEach(provider: Provider, ns: string, agentId: string, claims: seq<Claim>, clock: Clock)
    requires provider.Valid()
    modifies provider.Objects()
    ensures provider.Valid()
    ensures provider.LogAt(ns) == ReleaseAll(old(provider.LogAt(ns)), ns, agentId, claims, clock)
  {
    for i := 0 to |claims|
      invariant provider.Valid()
      invariant provider.LogAt(ns) == ReleaseAll(old(provider.LogAt(ns)), ns, agentId, claims[..i], clock)
    {
      assert Init(claims[..i + 1]) == claims[..i] && Last(claims[..i + 1]) == claims[i];
      provider.Append(ns, RefDraft(ReleaseMsg, agentId, claims[i].claimId), clock(agentId, i));
    }
    assert claims[..|claims|] == claims;
  }

  method GroupByAgent(claims: seq<Claim>) returns (agentClaims: map<string, seq<Claim>>)
    ensures forall a :: a in agentClaims <==> ClaimsBy(claims, a) != []
    ensures forall a :: a in agentClaims ==> agentClaims[a] == ClaimsBy(claims, a)
  {
    agentClaims := map[];
    for i := 0 to |claims|
      invariant forall a :: a in agentClaims <==> ClaimsBy(claims[..i], a) != []
      invariant forall a :: a in agentClaims ==> agentClaims[a] == ClaimsBy(claims[..i], a)
    {
      var c := claims[i];
      assert Init(claims[..i + 1]) == claims[..i] && Last(claims[..i + 1]) == c;
      var group := if c.agentId in agentClaims then agentClaims[c.agentId] else [];
      assert group == ClaimsBy(claims[..i], c.agentId);
      agentClaims := agentClaims[c.agentId := group + [c]];
    }
    assert claims[..|claims|] == claims;
  }

  /** The body of the loop over agents. */
  method CheckAgent(provider: Provider, ns: string, agentId: string, claims: seq<Claim>, now: Instant, timeout: nat, clock: Clock)
    requires provider.Valid()
    modifies provider.Objects()
    ensures provider.Valid()
    ensures provider.LogAt(ns)
            == if Dead(old(provider.LogAt(ns)), agentId, now, timeout)
               then ReleaseAll(old(provider.LogAt(ns)), ns, agentId, claims, clock) else old(provider.LogAt(ns))
  {
    var state := provider.GetAgentState(ns, agentId, now);
    if IsZero(state.lastSeen) { return; }
    if now - state.lastSeen > timeout * SECOND {
      ReleaseEach(provider, ns, agentId, claims, clock);
    }
  }

  /**
   * One tick. `now` is its own reading of the clock, `read` the one by which the provider filters the
   * active claims; `order` is the order in which Go's map iteration happens to visit the agents.
   */
  method Tick(provider: Provider, ns: string, now: Instant, read: Instant, timeout: nat, clock: Clock)
    returns (order: seq<string>)
    requires provider.Valid()
    modifies provider.Objects()
    ensures provider.Valid()
    ensures var active := Active(Seen(provider.Kind(), old(provider.LogAt(ns))), read);
            IsVisit(order, active)
            && provider.LogAt(ns) == TickLog(old(provider.LogAt(ns)), ns, order, active, now, timeout, clock)
  {
    ghost var log := provider.LogAt(ns);
    var claims := provider.ActiveClaims(ns, "", read);
    EmptyPatternSelectsAll(Active(Seen(provider.Kind(), log), read));
    var agentClaims := GroupByAgent(claims);
    order := VisitAll(provider, ns, claims, agentClaims, now, timeout, clock);
    OwnersAreVisited(claims, order);
  }

  lemma OwnersAreVisited(claims: seq<Claim>, order: seq<string>)
    requires NoRepeats(order) && forall a :: a in order <==> ClaimsBy(claims, a) != []
    ensures IsVisit(order, claims)
  {
    forall a ensures a in order <==> exists c :: c in claims && c.agentId == a {
      ClaimsByFacts(claims, a);
      if ClaimsBy(claims, a) != [] { assert ClaimsBy(claims, a)[0] in ClaimsBy(claims, a); }
    }
  }

  method VisitAll(
    provider: Provider, ns: string, claims: seq<Claim>, agentClaims: map<string, seq<Claim>>, now: Instant, timeout: nat, clock: Clock)
    returns (order: seq<string>)
    requires provider.Valid()
    requires forall a :: a in agentClaims ==> agentClaims[a] == ClaimsBy(claims, a)
    modifies provider.Objects()
    ensures provider.Valid()
    ensures NoRepeats(order) && forall a :: a in order <==> a in agentClaims
    ensures provider.LogAt(ns) == TickLog(old(provider.LogAt(ns)), ns, order, claims, now, timeout, clock)
  {
    var left := agentClaims.Keys;
    ghost var log := provider.LogAt(ns);
    order := [];
    while left != {}
      invariant provider.Valid()
      invariant left <= agentClaims.Keys && VisitedAllBut(order, agentClaims.Keys, left)
      invariant provider.LogAt(ns) == TickLog(log, ns, order, claims, now, timeout, clock)
      decreases |left|
    {
      var agentId :| agentId in left;
      VisitedOneMore(order, agentClaims.Keys, left, agentId);
      left := left - {agentId};
      CheckAgent(provider, ns, agentId, agentClaims[agentId], now, timeout, clock);
      OneMoreAgent(log, ns, order, agentId, claims, now, timeout, clock);
      order := order + [agentId];
    }
  }

  ghost predicate VisitedAllBut(order: seq<string>, agents: set<string>, left: set<string>) {
    NoRepeats(order) && forall a :: a in order <==> a in agents && a !in left
  }

  lemma VisitedOneMore(order: seq<string>, agents: set<string>, left: set<string>, agentId: string)
    requires VisitedAllBut(order, agents, left) && agentId in left && left <= agents
    ensures VisitedAllBut(order + [agentId], agents, left - {agentId})
  {
    var longer := order + [agentId];
    forall a ensures a in longer <==> a in agents && a !in left - {agentId} {
      assert a in longer <==> a in order || a == agentId;
    }
  }

  lemma OneMoreAgent(
    log: seq<Message>, ns: string, order: seq<string>, agentId: string, claims: seq<Claim>, now: Instant, timeout: nat, clock: Clock)
    ensures var before := TickLog(log, ns, order, claims, now, timeout, clock);
            TickLog(log, ns, order + [agentId], claims, now, timeout, clock)
            == if Dead(before, agentId, now, timeout)
               then ReleaseAll(before, ns, agentId, ClaimsBy(claims, agentId), clock) else before
  {
    assert Init(order + [agentId]) == order && Last(order + [agentId]) == agentId;
  }

  ghost predicate NoRepeats(order: seq<string>) { forall i, j :: 0 <= i < j < |order| ==> order[i] != order[j] }

  /** `order` visits each owner of an active claim exactly once. */
  ghost predicate IsVisit(order: seq<string>, active: seq<Claim>) {
    NoRepeats(order) && forall a :: a in order <==> exists c :: c in active && c.agentId == a
  }

  lemma {:induction false} SelectedAll(claims: seq<Claim>, pattern: string)
    requires forall c :: c in claims ==> ResourceMatchesPattern(pattern, c.resourceUri)
    ensures Selected(claims, pattern) == claims
  {
    if claims != [] {
      assert claims == Init(claims) + [Last(claims)];
      SelectedAll(Init(claims), pattern);
    }
  }

  lemma EmptyPatternSelectsAll(claims: seq<Claim>)
    ensures Selected(claims, "") == claims
  {
    forall c | c in claims ensures ResourceMatchesPattern("", c.resourceUri) {}
    SelectedAll(claims, "");
  }

  // ---------- What a release removes ----------

  /** The entries whose id is not in `ids`. */
  function NotIn(es: seq<Entry>, ids: set<string>): seq<Entry> {
    if es == [] then []
    else NotIn(Init(es), ids) + if Last(es).claim.claimId in ids then [] else [Last(es)]
  }

  lemma {:induction false} WithoutNotIn(es: seq<Entry>, ids: set<string>, id: string)
    ensures Without(NotIn(es, ids), id) == NotIn(es, ids + {id})
  {
    if es != [] {
      WithoutNotIn(Init(es), ids, id);
      if Last(es).claim.claimId in ids {
        assert NotIn(es, ids) == NotIn(Init(es), ids);
      } else {
        WithoutConcat(NotIn(Init(es), ids), Last(es), id);
      }
    }
  }

  lemma {:induction false} NotInNone(es: seq<Entry>, none: set<string>)
    requires none == {}
    ensures NotIn(es, none) == es
  {
    if es != [] {
      NotInNone(Init(es), none);
      assert es == Init(es) + [Last(es)];
    }
  }

  lemma ReleaseKeepsWellFormed(log: seq<Message>, ns: string, agentId: string, id: string, at: Instant)
    requires WellFormed(log) && Good(log)
    ensures WellFormed(Store(log, ns, RefDraft(ReleaseMsg, agentId, id), at))
    ensures Good(Store(log, ns, RefDraft(ReleaseMsg, agentId, id), at))
  {
    var t := Store(log, ns, RefDraft(ReleaseMsg, agentId, id), at);
    StoreKeepsGood(log, ns, RefDraft(ReleaseMsg, agentId, id), at);
    assert forall i :: 0 <= i < |t| ==> t[i] == if i < |log| then log[i] else Last(t);
    assert !Claims(Last(t));
  }

  /** On a well-formed log a release takes out the claim it names and nothing else, on either backend. */
  lemma ReleaseRemoves(b: Backend, log: seq<Message>, ns: string, agentId: string, id: string, at: Instant)
    requires WellFormed(log) && Good(log)
    ensures Entries(Seen(b, Store(log, ns, RefDraft(ReleaseMsg, agentId, id), at))) == Without(Entries(Seen(b, log)), id)
  {
    EndEntries(b, log, ns, ReleaseMsg, agentId, id, at);
    SqlViewIsWellFormed(log);
    if id == "" || FirstEnd(Seen(b, log), id).Some? {
      EntryIdsAreOpen(Seen(b, log), id);
      AbsentId(Entries(Seen(b, log)), id, at);
    }
  }

  function IdsIn(claims: seq<Claim>): set<string> { set c | c in claims :: c.claimId }

  lemma {:induction false} ReleaseAllRemoves(
    b: Backend, log: seq<Message>, ns: string, agentId: string, claims: seq<Claim>, clock: Clock, es: seq<Entry>, ids: set<string>)
    requires WellFormed(log) && Good(log) && Entries(Seen(b, log)) == NotIn(es, ids)
    ensures WellFormed(ReleaseAll(log, ns, agentId, claims, clock)) && Good(ReleaseAll(log, ns, agentId, claims, clock))
    ensures Entries(Seen(b, ReleaseAll(log, ns, agentId, claims, clock))) == NotIn(es, ids + IdsIn(claims))
  {
    if claims == [] {
      assert ids + IdsIn(claims) == ids;
    } else {
      var before := ReleaseAll(log, ns, agentId, Init(claims), clock);
      var id, at := Last(claims).claimId, clock(agentId, |claims| - 1);
      ReleaseAllRemoves(b, log, ns, agentId, Init(claims), clock, es, ids);
      ReleaseKeepsWellFormed(before, ns, agentId, id, at);
      ReleaseRemoves(b, before, ns, agentId, id, at);
      WithoutNotIn(es, ids + IdsIn(Init(claims)), id);
      IdsOneMore(claims, ids);
    }
  }

  lemma IdsOneMore(claims: seq<Claim>, ids: set<string>)
    requires claims != []
    ensures ids + IdsIn(Init(claims)) + {Last(claims).claimId} == ids + IdsIn(claims)
  {
    assert claims == Init(claims) + [Last(claims)];
  }

  lemma {:induction false} ReleaseAllSeen(log: seq<Message>, ns: string, agentId: string, claims: seq<Claim>, clock: Clock, other: string)
    requires other != agentId
    ensures LastSeen(ReleaseAll(log, ns, agentId, claims, clock), other) == LastSeen(log, other)
  {
    if claims != [] {
      ReleaseAllSeen(log, ns, agentId, Init(claims), clock, other);
      ConcatLast(ReleaseAll(log, ns, agentId, Init(claims), clock), Last(ReleaseAll(log, ns, agentId, claims, clock)));
    }
  }

  // ---------- What a tick writes ----------

  /** A release in an agent's own name, of one of its claims. */
  ghost predicate ReleasesOwn(m: Message, claims: seq<Claim>) {
    m.kind == ReleaseMsg && exists c :: c in claims && c.agentId == m.agentId && m.payload.asRef == Some(c.claimId)
  }

  lemma {:induction false} ReleaseAllWrites(
    log: seq<Message>, ns: string, agentId: string, own: seq<Claim>, clock: Clock, claims: seq<Claim>)
    requires forall c :: c in own ==> c in claims && c.agentId == agentId
    ensures var after := ReleaseAll(log, ns, agentId, own, clock);
            && |after| == |log| + |own| && log <= after
            && forall k :: |log| <= k < |after| ==> ReleasesOwn(after[k], claims)
  {
    if own != [] {
      assert own == Init(own) + [Last(own)] && Last(own) in own;
      ReleaseAllWrites(log, ns, agentId, Init(own), clock, claims);
    }
  }

  /** A tick only appends, and only releases, each in the name of the agent whose claim it is. */
  lemma {:induction false} TickWrites(
    log: seq<Message>, ns: string, order: seq<string>, claims: seq<Claim>, now: Instant, timeout: nat, clock: Clock)
    ensures var after := TickLog(log, ns, order, claims, now, timeout, clock);
            log <= after && forall k :: |log| <= k < |after| ==> ReleasesOwn(after[k], claims)
  {
    if order != [] {
      var before := TickLog(log, ns, Init(order), claims, now, timeout, clock);
      TickWrites(log, ns, Init(order), claims, now, timeout, clock);
      ClaimsByFacts(claims, Last(order));
      ReleaseAllWrites(before, ns, Last(order), ClaimsBy(claims, Last(order)), clock, claims);
    }
  }

  // ---------- The tick ----------

  lemma {:induction false} ClaimsByFacts(claims: seq<Claim>, agentId: string)
    ensures forall c :: c in ClaimsBy(claims, agentId) <==> c in claims && c.agentId == agentId
  {
    if claims != [] {
      ClaimsByFacts(Init(claims), agentId);
      assert claims == Init(claims) + [Last(claims)];
    }
  }

  /** The ids of the claims owned by `gone`. */
  function IdsOwnedBy(claims: seq<Claim>, gone: set<string>): set<string> {
    set c | c in claims && c.agentId in gone :: c.claimId
  }

  lemma {:induction false} TickSeen(
    log: seq<Message>, ns: string, order: seq<string>, claims: seq<Claim>, now: Instant, timeout: nat, clock: Clock, other: string)
    requires other !in order
    ensures LastSeen(TickLog(log, ns, order, claims, now, timeout, clock), other) == LastSeen(log, other)
  {
    if order != [] {
      assert order[|order| - 1] in order;
      TickSeen(log, ns, Init(order), claims, now, timeout, clock, other);
      ReleaseAllSeen(TickLog(log, ns, Init(order), claims, now, timeout, clock), ns, Last(order), ClaimsBy(claims, Last(order)), clock, other);
    }
  }

  lemma DeadOneMore(log: seq<Message>, order: seq<string>, claims: seq<Claim>, now: Instant, timeout: nat)
    requires order != []
    ensures var gone, a := IdsOwnedBy(claims, DeadAmong(log, Init(order), now, timeout)), Last(order);
            IdsOwnedBy(claims, DeadAmong(log, order, now, timeout))
            == if Dead(log, a, now, timeout) then gone + IdsIn(ClaimsBy(claims, a)) else gone
  {
    assert order == Init(order) + [Last(order)];
    ClaimsByFacts(claims, Last(order));
  }

  lemma {:induction false} TickRemoves(
    b: Backend, log: seq<Message>, ns: string, order: seq<string>, claims: seq<Claim>, now: Instant, timeout: nat, clock: Clock)
    requires WellFormed(log) && Good(log) && NoRepeats(order)
    ensures WellFormed(TickLog(log, ns, order, claims, now, timeout, clock)) && Good(TickLog(log, ns, order, claims, now, timeout, clock))
    ensures Entries(Seen(b, TickLog(log, ns, order, claims, now, timeout, clock)))
            == NotIn(Entries(Seen(b, log)), IdsOwnedBy(claims, DeadAmong(log, order, now, timeout)))
  {
    var es := Entries(Seen(b, log));
    if order == [] {
      NotInNone(es, IdsOwnedBy(claims, DeadAmong(log, order, now, timeout)));
    } else {
      var a := Last(order);
      var before := TickLog(log, ns, Init(order), claims, now, timeout, clock);
      TickRemoves(b, log, ns, Init(order), claims, now, timeout, clock);
      assert a == order[|order| - 1] && a !in Init(order);
      TickSeen(log, ns, Init(order), claims, now, timeout, clock, a);
      DeadOneMore(log, order, claims, now, timeout);
      if Dead(log, a, now, timeout) {
        ReleaseAllRemoves(b, before, ns, a, ClaimsBy(claims, a), clock, es,
                          IdsOwnedBy(claims, DeadAmong(log, Init(order), now, timeout)));
      }
    }
  }

  lemma {:induction false} LiveNotIn(es: seq<Entry>, ids: set<string>, gone: set<string>, now: int)
    requires forall e :: e in es && e.deadline >= now ==> (e.claim.claimId in ids <==> e.claim.agentId in gone)
    ensures Live(NotIn(es, ids), now) == OwnedByOthers(Live(es, now), gone)
  {
    if es != [] {
      var e := Last(es);
      assert es == Init(es) + [e];
      LiveNotIn(Init(es), ids, gone, now);
      assert NotIn(Init(es), ids) + [] == NotIn(Init(es), ids);
      LiveConcat(NotIn(Init(es), ids), [e], now);
      assert Init([e]) == [];
      assert Live(Init(es), now) + [] == Live(Init(es), now);
      if e.deadline >= now {
        assert Init(Live(Init(es), now) + [e.claim]) == Live(Init(es), now);
      }
    }
  }

  lemma SeenHasDistinctIds(b: Backend, log: seq<Message>)
    requires WellFormed(log)
    ensures DistinctIds(Entries(Seen(b, log)))
  {
    SqlViewIsWellFormed(log);
    EntriesHaveDistinctIds(Seen(b, log));
  }

  lemma ActiveAtOnce(b: Backend, log: seq<Message>, read: Instant, e: Entry, gone: set<string>)
    requires WellFormed(log) && e in Entries(Seen(b, log)) && e.deadline >= read
    ensures e.claim.claimId in IdsOwnedBy(Active(Seen(b, log), read), gone) <==> e.claim.agentId in gone
  {
    var es, active := Entries(Seen(b, log)), Active(Seen(b, log), read);
    LiveMembers(es, read);
    SeenHasDistinctIds(b, log);
    assert e.claim in active;
    forall c | c in active && c.claimId == e.claim.claimId ensures c == e.claim {
      var f :| f in es && f.deadline >= read && f.claim == c;
      var i :| 0 <= i < |es| && es[i] == e;
      var j :| 0 <= j < |es| && es[j] == f;
      assert i == j;
    }
  }

  /**
   * After one tick, the claims active at the moment the tick read them, and at every later moment,
   * are exactly those of before minus those of dead agents, in the same order, whatever order the
   * agents were visited in and whenever the releases were stamped.
   */
  lemma TickReleasesTheDead(
    b: Backend, log: seq<Message>, ns: string, order: seq<string>, now: Instant, read: Instant, timeout: nat, clock: Clock,
    later: Instant)
    requires WellFormed(log) && Good(log) && IsVisit(order, Active(Seen(b, log), read)) && read <= later
    ensures var after := TickLog(log, ns, order, Active(Seen(b, log), read), now, timeout, clock);
            Active(Seen(b, after), later) == OwnedByOthers(Active(Seen(b, log), later), DeadAmong(log, order, now, timeout))
    ensures forall c :: c in Active(Seen(b, log), later) ==>
              (c.agentId in DeadAmong(log, order, now, timeout) <==> Dead(log, c.agentId, now, timeout))
  {
    var es, active := Entries(Seen(b, log)), Active(Seen(b, log), read);
    var gone := DeadAmong(log, order, now, timeout);
    TickRemoves(b, log, ns, order, active, now, timeout, clock);
    forall e | e in es && e.deadline >= later
      ensures e.claim.claimId in IdsOwnedBy(active, gone) <==> e.claim.agentId in gone
    {
      ActiveAtOnce(b, log, read, e, gone);
    }
    LiveNotIn(es, IdsOwnedBy(active, gone), gone, later);
    LiveMembers(es, later);
    LiveMembers(es, read);
  }

  lemma {:induction false} FewerClaimsStayConflictFree(claims: seq<Claim>, gone: set<string>)
    requires ConflictFree(claims)
    ensures ConflictFree(OwnedByOthers(claims, gone))
    ensures forall c :: c in OwnedByOthers(claims, gone) <==> c in claims && c.agentId !in gone
  {
    if claims != [] {
      assert claims == Init(claims) + [Last(claims)];
      ConflictFreeConcat(Init(claims), Last(claims));
      FewerClaimsStayConflictFree(Init(claims), gone);
      ConflictFreeConcat(OwnedByOthers(Init(claims), gone), Last(claims));
      assert OwnedByOthers(Init(claims), gone) + [] == OwnedByOthers(Init(claims), gone);
    }
  }

  /** A tick in a safe state leaves a safe, well-formed one in which only claims of living agents are active. */
  lemma TickKeepsSafe(
    b: Backend, log: seq<Message>, ns: string, order: seq<string>, now: Instant, read: Instant, timeout: nat, clock: Clock,
    later: Instant)
    requires WellFormed(log) && Good(log) && IsVisit(order, Active(Seen(b, log), read)) && read <= later
    requires ConflictFree(Active(Seen(b, log), later))
    ensures var after := TickLog(log, ns, order, Active(Seen(b, log), read), now, timeout, clock);
            && WellFormed(after) && Good(after) && ConflictFree(Active(Seen(b, after), later))
            && forall c :: c in Active(Seen(b, after), later) <==>
                 c in Active(Seen(b, log), later) && !Dead(log, c.agentId, now, timeout)
  {
    TickRemoves(b, log, ns, order, Active(Seen(b, log), read), now, timeout, clock);
    TickReleasesTheDead(b, log, ns, order, now, read, timeout, clock, later);
    FewerClaimsStayConflictFree(Active(Seen(b, log), later), DeadAmong(log, order, now, timeout));
  }

  // ---------- Heartbeats do not keep an agent alive ----------

  /**
   * The design (docs/superpowers/specs/2026-05-26-death-detection-design.md) promises that a heartbeat
   * moves an agent's last-seen time. `Client.Heartbeat` puts no agent on its message, so it never does.
   */
  lemma HeartbeatsAreNotSeen(b: Backend, log: seq<Message>, ns: string, claimId: string, at: Instant, agentId: string)
    ensures agentId != "" ==>
              LastSeen(Next(b, ns, log, HeartbeatStep(claimId, at)), agentId) == LastSeen(log, agentId)
    ensures LastSeen(Next(b, ns, log, HeartbeatStep(claimId, at)), "") >= at
  {
    var t := Next(b, ns, log, HeartbeatStep(claimId, at));
    ConcatLast(log, Last(t));
  }

  /** So an agent whose last claim is older than the timeout is dead however many heartbeats follow it. */
  lemma {:induction false} HeartbeatingAgentStillDies(b: Backend, log: seq<Message>, ns: string, beats: seq<Step>, agentId: string, now: Instant, timeout: nat)
    requires agentId != "" && forall beat :: beat in beats ==> beat.HeartbeatStep?
    ensures Dead(Final(b, ns, State(log, 0, {}), beats).log, agentId, now, timeout) <==> Dead(log, agentId, now, timeout)
    decreases |beats|
  {
    FinalOfHeartbeats(b, State(log, 0, {}), ns, beats, agentId);
  }

  lemma {:induction false} FinalOfHeartbeats(b: Backend, s: State, ns: string, beats: seq<Step>, agentId: string)
    requires agentId != "" && forall beat :: beat in beats ==> beat.HeartbeatStep?
    ensures LastSeen(Final(b, ns, s, beats).log, agentId) == LastSeen(s.log, agentId)
    decreases |beats|
  {
    if beats != [] {
      assert beats[0] in beats;
      HeartbeatsAreNotSeen(b, s.log, ns, beats[0].claimId, beats[0].stored, agentId);
      FinalOfHeartbeats(b, After(b, ns, s, beats[0]), ns, beats[1..], agentId);
    }
  }

  /** Ann claims once and heartbeats 50 seconds later; at 70 seconds, with a timeout of 60, she is dead. */
  lemma AHeartbeatingAgentDies(ns: string, c: Claim)
    requires c == Claim("c1", "ann", "file://x", Write, "", 300, 1)
    ensures var log := Store(Store([], ns, ClaimDraft(c), 1), ns, RefDraft(HeartbeatMsg, "", "c1"), 50 * SECOND);
            Dead(log, "ann", 70 * SECOND, 60) && log == Next(SqlBackend, ns, Store([], ns, ClaimDraft(c), 1), HeartbeatStep("c1", 50 * SECOND))
  {
    var claimed := Store([], ns, ClaimDraft(c), 1);
    assert Init(claimed) == [] && LastSeen(claimed, "ann") == 1;
    HeartbeatsAreNotSeen(SqlBackend, claimed, ns, "c1", 50 * SECOND, "ann");
  }

  // ---------- Sweeps can make a living agent look dead ----------

  /**
   * SQLite's sweep deletes the claim messages an agent was last seen in. The agent is dead afterwards
   * exactly when something it sent is left, and nothing it sent within the timeout.
   */
  lemma SweepKillsIff(log: seq<Message>, before: Instant, agentId: string, now: Instant, timeout: nat)
    ensures Dead(Swept(log, before), agentId, now, timeout) <==>
            && (exists m :: m in log && m.agentId == agentId && m.timestamp > 0 && !SweptAway(m, before))
            && (forall m :: m in log && m.agentId == agentId && now - m.timestamp <= timeout * SECOND ==> SweptAway(m, before))
    ensures Dead(log, agentId, now, timeout) && LastSeen(Swept(log, before), agentId) != 0 ==>
              Dead(Swept(log, before), agentId, now, timeout)
  {
    var left := Swept(log, before);
    SweptMembers(log, before);
    LastSeenFacts(left, agentId);
    SweepAndLastSeen(log, before, agentId);
    if LastSeen(left, agentId) > 0 {
      var m :| m in left && m.agentId == agentId && m.timestamp == LastSeen(left, agentId);
      assert m in log && m.timestamp > 0 && !SweptAway(m, before);
    }
  }

  /** Ann holds a long claim from second 1 and a one-second claim from second 100. Sweeping the second claim makes her dead. */
  lemma ASweepKillsTheLiving(ns: string, long: Claim, short: Claim)
    requires long == Claim("c1", "ann", "file://x", Write, "", 300, SECOND)
    requires short == Claim("c2", "ann", "file://y", Write, "", 1, 100 * SECOND)
    ensures var log := Store(Store([], ns, ClaimDraft(long), SECOND), ns, ClaimDraft(short), 100 * SECOND);
            && !Dead(log, "ann", 120 * SECOND, 60)
            && Dead(Swept(log, 120 * SECOND), "ann", 120 * SECOND, 60)
  {
    var first := Store([], ns, ClaimDraft(long), SECOND);
    var log := Store(first, ns, ClaimDraft(short), 100 * SECOND);
    assert Init(first) == [] && Init(log) == first;
    assert Swept(first, 120 * SECOND) == first && Swept(log, 120 * SECOND) == first;
    assert LastSeen(first, "ann") == SECOND && LastSeen(log, "ann") == 100 * SECOND;
  }
}
