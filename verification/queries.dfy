/** What the providers answer from a namespace's log, whichever way they store it. */
module Queries {
  import opened Messages
  import opened ActiveClaims
  import opened Conflicts

  datatype QueryOpts = QueryOpts(since: int, types: seq<MessageType>, agentId: string, limit: int)

  const EVERYTHING := QueryOpts(0, [], "", 0)

  predicate Wanted(m: Message, opts: QueryOpts) {
    && m.offset > opts.since
    && (opts.types == [] || m.kind in opts.types)
    && (opts.agentId == "" || m.agentId == opts.agentId)
  }

  function Matching(log: seq<Message>, opts: QueryOpts): seq<Message> {
    if log == [] then []
    else Matching(Init(log), opts) + if Wanted(Last(log), opts) then [Last(log)] else []
  }

  function Limited(log: seq<Message>, opts: QueryOpts): seq<Message> {
    var all := Matching(log, opts);
    if 0 < opts.limit < |all| then all[..opts.limit] else all
  }

  lemma MatchingConcat(log: seq<Message>, m: Message, opts: QueryOpts)
    ensures Matching(log + [m], opts) == Matching(log, opts) + if Wanted(m, opts) then [m] else []
  {
    assert Init(log + [m]) == log && Last(log + [m]) == m;
  }

  lemma {:induction false} MatchingPrefix(log: seq<Message>, n: nat, opts: QueryOpts)
    requires n <= |log|
    ensures Matching(log[..n], opts) <= Matching(log, opts)
  {
    if n < |log| {
      MatchingPrefix(Init(log), n, opts);
      assert Init(log)[..n] == log[..n];
    } else {
      assert log[..n] == log;
    }
  }

  lemma {:induction false} MatchingEverything(log: seq<Message>)
    requires forall k :: 0 <= k < |log| ==> log[k].offset > 0
    ensures Matching(log, EVERYTHING) == log
  {
    if log != [] {
      MatchingEverything(Init(log));
      assert log == Init(log) + [Last(log)];
    }
  }

  lemma {:induction false} MatchingIsOrdered(log: seq<Message>, opts: QueryOpts)
    requires Sorted(log)
    ensures Sorted(Matching(log, opts))
    ensures forall m :: m in Matching(log, opts) <==> m in log && Wanted(m, opts)
  {
    if log != [] {
      MatchingIsOrdered(Init(log), opts);
      assert log == Init(log) + [Last(log)];
      var before := Matching(Init(log), opts);
      forall k | 0 <= k < |before| ensures before[k].offset < Last(log).offset {
        assert before[k] in Init(log);
      }
    }
  }

  /**
   * What a query returns: wanted messages only, in offset order, no more than the limit; and a wanted
   * message is missing only when the limit is used up by earlier ones.
   */
  ghost predicate Answers(result: seq<Message>, log: seq<Message>, opts: QueryOpts) {
    && Sorted(result)
    && (forall m :: m in result ==> m in log && Wanted(m, opts))
    && (opts.limit > 0 ==> |result| <= opts.limit)
    && (forall m :: m in log && Wanted(m, opts) && m !in result ==>
          opts.limit > 0 && |result| == opts.limit && Last(result).offset < m.offset)
  }

  lemma LimitedAnswers(log: seq<Message>, opts: QueryOpts)
    requires Sorted(log)
    ensures Answers(Limited(log, opts), log, opts)
  {
    MatchingIsOrdered(log, opts);
    PrefixAnswers(Matching(log, opts), Limited(log, opts), opts.limit);
  }

  lemma PrefixAnswers(all: seq<Message>, result: seq<Message>, limit: int)
    requires Sorted(all) && result == if 0 < limit < |all| then all[..limit] else all
    ensures Sorted(result) && forall m :: m in result ==> m in all
    ensures forall m :: m in all && m !in result ==> limit > 0 && |result| == limit && Last(result).offset < m.offset
  {
    forall k | 0 <= k < |result| ensures all[k] in result {
      assert all[k] == result[k];
    }
    forall k | |result| <= k < |all| ensures limit > 0 && |result| == limit && Last(result).offset < all[k].offset {
      assert Last(result) == all[limit - 1];
    }
  }

  // ---------- Agent state ----------

  datatype AgentState = AgentState(agentId: string, activeClaims: seq<string>, lastSeen: Instant)

  /** The latest timestamp of a message carrying the agent's name, or the zero time. */
  function LastSeen(log: seq<Message>, agentId: string): Instant {
    if log == [] then 0
    else if Last(log).agentId == agentId then Max(LastSeen(Init(log), agentId), Last(log).timestamp)
    else LastSeen(Init(log), agentId)
  }

  function IdsOf(claims: seq<Claim>, agentId: string): seq<string> {
    if claims == [] then []
    else IdsOf(Init(claims), agentId) + if Last(claims).agentId == agentId then [Last(claims).claimId] else []
  }

  function StateOf(log: seq<Message>, agentId: string, now: Instant): AgentState {
    AgentState(agentId, IdsOf(Active(log, now), agentId), LastSeen(log, agentId))
  }

  /** The loop both providers run over the messages of a namespace. */
  method ComputeAgentState(msgs: seq<Message>, agentId: string, now: Instant) returns (state: AgentState)
    ensures state == StateOf(msgs, agentId, now)
  {
    var lastSeen: Instant := 0;
    for i := 0 to |msgs|
      invariant lastSeen == LastSeen(msgs[..i], agentId)
    {
      assert Init(msgs[..i + 1]) == msgs[..i] && Last(msgs[..i + 1]) == msgs[i];
      if msgs[i].agentId == agentId && msgs[i].timestamp > lastSeen {
        lastSeen := msgs[i].timestamp;
      }
    }
    assert msgs[..|msgs|] == msgs;
    var claims := FilterActiveClaims(msgs, now);
    var active: seq<string> := [];
    for i := 0 to |claims|
      invariant active == IdsOf(claims[..i], agentId)
    {
      assert Init(claims[..i + 1]) == claims[..i] && Last(claims[..i + 1]) == claims[i];
      if claims[i].agentId == agentId {
        active := active + [claims[i].claimId];
      }
    }
    assert claims[..|claims|] == claims;
    state := AgentState(agentId, active, lastSeen);
  }

  /** The loop both providers run to filter active claims by a resource pattern. */
  method SelectByPattern(claims: seq<Claim>, pattern: string) returns (result: seq<Claim>)
    ensures result == Selected(claims, pattern)
  {
    result := [];
    for i := 0 to |claims|
      invariant result == Selected(claims[..i], pattern)
    {
      assert Init(claims[..i + 1]) == claims[..i] && Last(claims[..i + 1]) == claims[i];
      if ResourceMatchesPattern(pattern, claims[i].resourceUri) {
        result := result + [claims[i]];
      }
    }
    assert claims[..|claims|] == claims;
  }

  // ---------- What answers hold ----------

  /** Without a limit, a query returns exactly the messages behind `since`, of the given types, by the given agent. */
  lemma QueryReturns(log: seq<Message>, since: int, types: seq<MessageType>, agentId: string)
    requires Sorted(log)
    ensures forall m :: m in Limited(log, QueryOpts(since, types, agentId, 0)) <==>
              && m in log && m.offset > since && (types == [] || m.kind in types) && (agentId == "" || m.agentId == agentId)
  {
    MatchingIsOrdered(log, QueryOpts(since, types, agentId, 0));
  }

  lemma {:induction false} IdsOfFacts(claims: seq<Claim>, agentId: string)
    ensures forall id :: id in IdsOf(claims, agentId) <==> exists c :: c in claims && c.agentId == agentId && c.claimId == id
    ensures |IdsOf(claims, agentId)| <= |claims|
  {
    if claims != [] {
      var c := Last(claims);
      IdsOfFacts(Init(claims), agentId);
      assert claims == Init(claims) + [c] && c in claims;
      forall id ensures id in IdsOf(claims, agentId) <==> exists d :: d in claims && d.agentId == agentId && d.claimId == id {
        assert id in IdsOf(claims, agentId) <==> id in IdsOf(Init(claims), agentId) || (c.agentId == agentId && c.claimId == id);
      }
    }
  }

  lemma {:induction false} LastSeenFacts(log: seq<Message>, agentId: string)
    ensures forall m :: m in log && m.agentId == agentId ==> m.timestamp <= LastSeen(log, agentId)
    ensures LastSeen(log, agentId) > 0 ==> exists m :: m in log && m.agentId == agentId && m.timestamp == LastSeen(log, agentId)
  {
    if log != [] {
      LastSeenFacts(Init(log), agentId);
      assert log == Init(log) + [Last(log)];
      assert Last(log) in log;
    }
  }

  /** An agent's state lists the ids of its own active claims, and the time of the latest message in its name, if there is one. */
  lemma AgentStateTells(log: seq<Message>, agentId: string, now: Instant)
    ensures var state := StateOf(log, agentId, now);
            && state.agentId == agentId
            && (forall id :: id in state.activeClaims <==> exists c :: c in Active(log, now) && c.agentId == agentId && c.claimId == id)
            && (forall m :: m in log && m.agentId == agentId ==> m.timestamp <= state.lastSeen)
            && (state.lastSeen > 0 ==> exists m :: m in log && m.agentId == agentId && m.timestamp == state.lastSeen)
  {
    IdsOfFacts(Active(log, now), agentId);
    LastSeenFacts(log, agentId);
  }

  // ---------- Paging ----------

  /** Repeated queries with a positive limit, each starting after the last offset of the page before. */
  function Pages(log: seq<Message>, opts: QueryOpts): seq<seq<Message>>
    requires Sorted(log) && opts.limit > 0
    decreases |Matching(log, opts)|
  {
    var page := Limited(log, opts);
    if page == [] then []
    else
      NextPage(log, opts);
      [page] + Pages(log, opts.(since := Last(page).offset))
  }

  function Flatten<T>(parts: seq<seq<T>>): seq<T> {
    if parts == [] then [] else parts[0] + Flatten(parts[1..])
  }

  /** Moving the cursor to the k-th match leaves the matches after it. */
  lemma {:induction false} MatchingAfter(log: seq<Message>, opts: QueryOpts, k: nat)
    requires Sorted(log) && k < |Matching(log, opts)|
    ensures Matching(log, opts.(since := Matching(log, opts)[k].offset)) == Matching(log, opts)[k + 1..]
  {
    var earlier, last := Init(log), Last(log);
    var before, cursor := Matching(earlier, opts), Matching(log, opts)[k];
    var later := opts.(since := cursor.offset);
    assert log == earlier + [last];
    MatchingConcat(earlier, last, opts);
    MatchingConcat(earlier, last, later);
    if k < |before| {
      CursorIsEarlier(earlier, last, opts, k);
      MatchingAfter(earlier, opts, k);
      RestConcat(before, if Wanted(last, opts) then [last] else [], k + 1);
    } else {
      assert cursor == last;
      NothingAfter(earlier, later);
    }
  }

  lemma RestConcat(a: seq<Message>, b: seq<Message>, n: nat)
    requires n <= |a|
    ensures (a + b)[n..] == a[n..] + b
  {}

  lemma CursorIsEarlier(earlier: seq<Message>, last: Message, opts: QueryOpts, k: nat)
    requires Sorted(earlier + [last]) && k < |Matching(earlier, opts)|
    ensures opts.since < Matching(earlier, opts)[k].offset < last.offset
  {
    var cursor := Matching(earlier, opts)[k];
    assert forall i :: 0 <= i < |earlier| ==> (earlier + [last])[i] == earlier[i];
    MatchingIsOrdered(earlier, opts);
    assert cursor in Matching(earlier, opts);
    var i :| 0 <= i < |earlier| && earlier[i] == cursor;
    assert (earlier + [last])[|earlier|] == last;
  }

  lemma {:induction false} NothingAfter(log: seq<Message>, opts: QueryOpts)
    requires forall j :: 0 <= j < |log| ==> log[j].offset <= opts.since
    ensures Matching(log, opts) == []
  {
    if log != [] {
      assert Last(log) == log[|log| - 1];
      NothingAfter(Init(log), opts);
    }
  }

  lemma FirstPart(page: seq<Message>, all: seq<Message>)
    requires page != [] && page <= all
    ensures all == page + all[|page|..] && Last(page) == all[|page| - 1]
  {}

  lemma NextPage(log: seq<Message>, opts: QueryOpts)
    requires Sorted(log) && opts.limit > 0 && Limited(log, opts) != []
    ensures Matching(log, opts)
            == Limited(log, opts) + Matching(log, opts.(since := Last(Limited(log, opts)).offset))
    ensures |Matching(log, opts.(since := Last(Limited(log, opts)).offset))| < |Matching(log, opts)|
  {
    var page := Limited(log, opts);
    FirstPart(page, Matching(log, opts));
    MatchingAfter(log, opts, |page| - 1);
  }

  /** Paging terminates and, put end to end, the pages are the unlimited answer; no page is empty or too long. */
  lemma {:induction false} PagingIsComplete(log: seq<Message>, opts: QueryOpts)
    requires Sorted(log) && opts.limit > 0
    ensures Flatten(Pages(log, opts)) == Matching(log, opts)
    ensures forall page :: page in Pages(log, opts) ==> 1 <= |page| <= opts.limit
    decreases |Matching(log, opts)|
  {
    var page := Limited(log, opts);
    if page != [] {
      NextPage(log, opts);
      PagingIsComplete(log, opts.(since := Last(page).offset));
      assert Pages(log, opts)[1..] == Pages(log, opts.(since := Last(page).offset));
    }
  }
}
