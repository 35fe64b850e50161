/** internal/server/ratelimit.go: the per-agent sliding window. */
module RateLimiting {
  import opened Messages

  type Times = seq<int>

  function NameOf(header: string): string { if header == "" then "unknown" else header }

  function TimesOf(store: map<string, Times>, agentId: string): Times {
    if agentId in store then store[agentId] else []
  }

  /** The list from its first timestamp after `windowStart`. */
  function Recent(ts: Times, windowStart: int): Times {
    if ts == [] then [] else if ts[0] > windowStart then ts else Recent(ts[1..], windowStart)
  }

  /** A request, in the order the lock is taken. */
  datatype Request = Request(agentId: string, at: int)

  predicate Admits(limit: int, store: map<string, Times>, r: Request) {
    |Recent(TimesOf(store, r.agentId), r.at - SECOND)| < limit
  }

  /** A refused request leaves the stored list as it was, stale timestamps included. */
  function Served(limit: int, store: map<string, Times>, r: Request): map<string, Times> {
    if Admits(limit, store, r)
    then store[r.agentId := Recent(TimesOf(store, r.agentId), r.at - SECOND) + [r.at]]
    else store
  }

  /** A call of the wrapped handler: the `X-Agent-ID` header and the clock's reading. */
  datatype Call = Call(header: string, at: int)

  function RequestOf(call: Call): Request { Request(NameOf(call.header), call.at) }

  class RateLimiter {
    var perAgent: map<string, Times>
    const limit: int

    /** `burst` is accepted and never used. */
    constructor (limit: int, burst: int)
      ensures this.limit == limit && perAgent == map[]
    {
      this.limit := limit;
      this.perAgent := map[];
    }

    method Wrap(header: string, now: int) returns (limited: bool, remaining: int)
      modifies this
      ensures limit <= 0 ==> !limited && perAgent == old(perAgent)
      ensures limit > 0 ==> perAgent == Served(limit, old(perAgent), RequestOf(Call(header, now)))
      ensures limit > 0 ==> limited == !Admits(limit, old(perAgent), RequestOf(Call(header, now)))
      ensures limit > 0 ==>
                remaining == Max(0, limit - |Recent(TimesOf(old(perAgent), NameOf(header)), now - SECOND)| - 1)
    {
      if limit <= 0 { return false, 0; }
      var agentId := if header == "" then "unknown" else header;
      var windowStart := now - SECOND;
      var timestamps := if agentId in perAgent then perAgent[agentId] else [];
      var cutoff := |timestamps|;
      for i := 0 to |timestamps|
        invariant cutoff == |timestamps|
        invariant Recent(timestamps, windowStart) == Recent(timestamps[i..], windowStart)
      {
        assert timestamps[i..][1..] == timestamps[i + 1..];
        if timestamps[i] > windowStart {
          cutoff := i;
          break;
        }
      }
      assert Recent(timestamps, windowStart) == timestamps[cutoff..];
      timestamps := timestamps[cutoff..];
      var count := |timestamps|;
      limited := count >= limit;
      if !limited {
        timestamps := timestamps + [now];
        perAgent := perAgent[agentId := timestamps];
      }
      remaining := limit - count - 1;
      if remaining < 0 { remaining := 0; }
    }
  }

  // ---------- Runs ----------

  /** Lock order follows clock order. */
  ghost predicate Ordered(reqs: seq<Request>) {
    forall i, j :: 0 <= i < j < |reqs| ==> reqs[i].at <= reqs[j].at
  }

  function StoreAfter(limit: int, reqs: seq<Request>): map<string, Times> {
    if reqs == [] then map[] else Served(limit, StoreAfter(limit, Init(reqs)), Last(reqs))
  }

  function Admitted(limit: int, reqs: seq<Request>): seq<Request> {
    if reqs == [] then []
    else Admitted(limit, Init(reqs)) + if Admits(limit, StoreAfter(limit, Init(reqs)), Last(reqs)) then [Last(reqs)] else []
  }

  /** How many of an agent's requests fall in `(after, upTo]`. */
  function Count(reqs: seq<Request>, agentId: string, after: int, upTo: int): nat {
    if reqs == [] then 0
    else Count(Init(reqs), agentId, after, upTo)
         + if Last(reqs).agentId == agentId && after < Last(reqs).at <= upTo then 1 else 0
  }

  function CountTimes(ts: Times, after: int, upTo: int): nat {
    if ts == [] then 0 else (if after < ts[0] <= upTo then 1 else 0) + CountTimes(ts[1..], after, upTo)
  }

  ghost predicate Sorted(ts: Times) { forall i, j :: 0 <= i < j < |ts| ==> ts[i] <= ts[j] }

  ghost predicate UpTo(ts: Times, now: int) { forall k :: 0 <= k < |ts| ==> ts[k] <= now }

  lemma {:induction false} CountTimesConcat(ts: Times, t: int, after: int, upTo: int)
    ensures CountTimes(ts + [t], after, upTo) == CountTimes(ts, after, upTo) + if after < t <= upTo then 1 else 0
  {
    if ts == [] {
      assert ts + [t] == [t];
    } else {
      assert (ts + [t])[1..] == ts[1..] + [t];
      CountTimesConcat(ts[1..], t, after, upTo);
    }
  }

  lemma CountConcat(reqs: seq<Request>, r: Request, agentId: string, after: int, upTo: int)
    ensures Count(reqs + [r], agentId, after, upTo)
            == Count(reqs, agentId, after, upTo) + if r.agentId == agentId && after < r.at <= upTo then 1 else 0
  {
    assert Init(reqs + [r]) == reqs && Last(reqs + [r]) == r;
  }

  /** Evicting up to `windowStart` changes no count that begins there or later. */
  lemma {:induction false} RecentCounts(ts: Times, windowStart: int, after: int, upTo: int)
    requires windowStart <= after
    ensures CountTimes(Recent(ts, windowStart), after, upTo) == CountTimes(ts, after, upTo)
  {
    if ts != [] && ts[0] <= windowStart { RecentCounts(ts[1..], windowStart, after, upTo); }
  }

  /** What is left is exactly the window. */
  lemma {:induction false} RecentIsWindow(ts: Times, windowStart: int, now: int)
    requires Sorted(ts) && UpTo(ts, now)
    ensures |Recent(ts, windowStart)| == CountTimes(ts, windowStart, now)
    ensures Sorted(Recent(ts, windowStart)) && UpTo(Recent(ts, windowStart), now)
  {
    if ts != [] {
      if ts[0] <= windowStart {
        RecentIsWindow(ts[1..], windowStart, now);
      } else {
        AllCounted(ts, windowStart, now);
      }
    }
  }

  lemma {:induction false} AllCounted(ts: Times, after: int, upTo: int)
    requires forall k :: 0 <= k < |ts| ==> after < ts[k] <= upTo
    ensures CountTimes(ts, after, upTo) == |ts|
  {
    if ts != [] {
      AllCounted(ts[1..], after, upTo);
    }
  }

  lemma {:induction false} CountIsMonotone(reqs: seq<Request>, agentId: string, after: int, later: int, upTo: int, further: int)
    requires after <= later && upTo <= further
    ensures Count(reqs, agentId, later, upTo) <= Count(reqs, agentId, after, further)
  {
    if reqs != [] { CountIsMonotone(Init(reqs), agentId, after, later, upTo, further); }
  }

  // ---------- What the limiter keeps ----------

  /** An agent's stored list answers every question about windows that begin after `clock - SECOND`. */
  ghost predicate Remembers(ts: Times, admitted: seq<Request>, agentId: string, clock: int) {
    && Sorted(ts) && UpTo(ts, clock)
    && forall after, upTo :: after >= clock - SECOND ==>
         Count(admitted, agentId, after, upTo) == CountTimes(ts, after, upTo)
  }

  lemma AdmittedRemembers(ts: Times, admitted: seq<Request>, r: Request, clock: int)
    requires Remembers(ts, admitted, r.agentId, clock) && clock <= r.at
    ensures Remembers(Recent(ts, r.at - SECOND) + [r.at], admitted + [r], r.agentId, r.at)
  {
    var next := Recent(ts, r.at - SECOND) + [r.at];
    RecentIsWindow(ts, r.at - SECOND, clock);
    forall after, upTo | after >= r.at - SECOND
      ensures Count(admitted + [r], r.agentId, after, upTo) == CountTimes(next, after, upTo)
    {
      CountConcat(admitted, r, r.agentId, after, upTo);
      RecentCounts(ts, r.at - SECOND, after, upTo);
      CountTimesConcat(Recent(ts, r.at - SECOND), r.at, after, upTo);
    }
  }

  lemma OthersRemember(ts: Times, admitted: seq<Request>, r: Request, agentId: string, clock: int)
    requires Remembers(ts, admitted, agentId, clock) && clock <= r.at && agentId != r.agentId
    ensures Remembers(ts, admitted + [r], agentId, r.at)
  {
    forall after, upTo | after >= r.at - SECOND
      ensures Count(admitted + [r], agentId, after, upTo) == CountTimes(ts, after, upTo)
    {
      CountConcat(admitted, r, agentId, after, upTo);
    }
  }

  lemma ServeRemembers(limit: int, store: map<string, Times>, admitted: seq<Request>, r: Request, agentId: string, clock: int)
    requires Remembers(TimesOf(store, agentId), admitted, agentId, clock) && clock <= r.at
    ensures Remembers(TimesOf(Served(limit, store, r), agentId),
                      admitted + if Admits(limit, store, r) then [r] else [], agentId, r.at)
  {
    if !Admits(limit, store, r) {
      assert admitted + [] == admitted;
    } else if agentId == r.agentId {
      AdmittedRemembers(TimesOf(store, agentId), admitted, r, clock);
    } else {
      OthersRemember(TimesOf(store, agentId), admitted, r, agentId, clock);
    }
  }

  function Clock(reqs: seq<Request>): int { if reqs == [] then 0 else Last(reqs).at }

  lemma {:induction false} RunRemembers(limit: int, reqs: seq<Request>, agentId: string)
    requires Ordered(reqs)
    ensures Remembers(TimesOf(StoreAfter(limit, reqs), agentId), Admitted(limit, reqs), agentId, Clock(reqs))
  {
    if reqs != [] {
      RunRemembers(limit, Init(reqs), agentId);
      if Init(reqs) != [] {
        assert Last(Init(reqs)) == reqs[|reqs| - 2];
        ServeRemembers(limit, StoreAfter(limit, Init(reqs)), Admitted(limit, Init(reqs)), Last(reqs), agentId, Clock(Init(reqs)));
      } else {
        NothingRemembered(agentId, Last(reqs).at);
        ServeRemembers(limit, map[], [], Last(reqs), agentId, Last(reqs).at);
      }
    }
  }

  lemma NothingRemembered(agentId: string, clock: int)
    ensures Remembers([], [], agentId, clock)
  {}

  lemma OrderedPrefix(reqs: seq<Request>, r: Request)
    requires Ordered(reqs + [r])
    ensures Ordered(reqs) && forall k :: 0 <= k < |reqs| ==> reqs[k].at <= r.at
    ensures reqs != [] ==> Clock(reqs) <= r.at
  {
    var all := reqs + [r];
    assert all[|reqs|] == r && forall i :: 0 <= i < |reqs| ==> reqs[i] == all[i];
  }

  /** After any run, a request is refused exactly when `limit` requests were admitted in the second before it. */
  lemma RefusedIff(limit: int, reqs: seq<Request>, r: Request)
    requires limit > 0 && Ordered(reqs + [r])
    ensures !Admits(limit, StoreAfter(limit, reqs), r)
            <==> Count(Admitted(limit, reqs), r.agentId, r.at - SECOND, r.at) == limit
    ensures Count(Admitted(limit, reqs), r.agentId, r.at - SECOND, r.at) <= limit
  {
    OrderedPrefix(reqs, r);
    WindowsAreLimited(limit, reqs, r.agentId, r.at - SECOND);
    WindowIsList(limit, reqs, r);
  }

  lemma WindowIsList(limit: int, reqs: seq<Request>, r: Request)
    requires Ordered(reqs) && (reqs != [] ==> Clock(reqs) <= r.at)
    ensures |Recent(TimesOf(StoreAfter(limit, reqs), r.agentId), r.at - SECOND)|
            == Count(Admitted(limit, reqs), r.agentId, r.at - SECOND, r.at)
  {
    if reqs != [] {
      RunRemembers(limit, reqs, r.agentId);
      RecentIsWindow(TimesOf(StoreAfter(limit, reqs), r.agentId), r.at - SECOND, r.at);
    }
  }

  lemma AdmittedLast(limit: int, earlier: seq<Request>, r: Request)
    ensures var before := Admitted(limit, earlier);
            Admitted(limit, earlier + [r]) == if Admits(limit, StoreAfter(limit, earlier), r) then before + [r] else before
  {
    assert Init(earlier + [r]) == earlier && Last(earlier + [r]) == r;
    assert Admitted(limit, earlier) + [] == Admitted(limit, earlier);
  }

  /** An admitted request finds room in every window that contains it. */
  lemma AdmittedHasRoom(limit: int, earlier: seq<Request>, r: Request, after: int)
    requires Ordered(earlier + [r]) && Admits(limit, StoreAfter(limit, earlier), r) && after < r.at <= after + SECOND
    ensures Count(Admitted(limit, earlier), r.agentId, after, after + SECOND) < limit
  {
    OrderedPrefix(earlier, r);
    WindowIsList(limit, earlier, r);
    NoneLater(limit, earlier, r.at, r.agentId, after, after + SECOND);
    CountIsMonotone(Admitted(limit, earlier), r.agentId, r.at - SECOND, after, r.at, r.at);
  }

  lemma OneMoreRequest(limit: int, earlier: seq<Request>, r: Request, agentId: string, after: int)
    requires Ordered(earlier + [r]) && Count(Admitted(limit, earlier), agentId, after, after + SECOND) <= limit
    ensures Count(Admitted(limit, earlier + [r]), agentId, after, after + SECOND) <= limit
  {
    AdmittedLast(limit, earlier, r);
    CountConcat(Admitted(limit, earlier), r, agentId, after, after + SECOND);
    if Admits(limit, StoreAfter(limit, earlier), r) && r.agentId == agentId && after < r.at <= after + SECOND {
      AdmittedHasRoom(limit, earlier, r, after);
    }
  }

  /** In every run, no window of one second, wherever it begins, admits more than `limit` requests of an agent. */
  lemma {:induction false} WindowsAreLimited(limit: int, reqs: seq<Request>, agentId: string, after: int)
    requires limit > 0 && Ordered(reqs)
    ensures Count(Admitted(limit, reqs), agentId, after, after + SECOND) <= limit
  {
    if reqs != [] {
      var earlier, r := Init(reqs), Last(reqs);
      assert earlier + [r] == reqs;
      OrderedPrefix(earlier, r);
      WindowsAreLimited(limit, earlier, agentId, after);
      OneMoreRequest(limit, earlier, r, agentId, after);
    }
  }

  /** Nothing was admitted after the clock. */
  lemma {:induction false} NoneLater(limit: int, reqs: seq<Request>, now: int, agentId: string, after: int, upTo: int)
    requires forall k :: 0 <= k < |reqs| ==> reqs[k].at <= now
    requires now <= upTo
    ensures Count(Admitted(limit, reqs), agentId, after, upTo) == Count(Admitted(limit, reqs), agentId, after, now)
  {
    if reqs != [] {
      var earlier, r := Init(reqs), Last(reqs);
      assert reqs == earlier + [r] && r == reqs[|reqs| - 1];
      NoneLater(limit, earlier, now, agentId, after, upTo);
      AdmittedLast(limit, earlier, r);
      CountConcat(Admitted(limit, earlier), r, agentId, after, upTo);
      CountConcat(Admitted(limit, earlier), r, agentId, after, now);
    }
  }

  /** No stored list ever grows beyond the limit; this needs no clock order. */
  lemma {:induction false} StoredListsAreBounded(limit: int, reqs: seq<Request>, agentId: string)
    requires limit > 0
    ensures |TimesOf(StoreAfter(limit, reqs), agentId)| <= limit
  {
    if reqs != [] { StoredListsAreBounded(limit, Init(reqs), agentId); }
  }

  // ---------- Runs of calls, by header ----------

  function StoreAfterCalls(limit: int, calls: seq<Call>): map<string, Times> {
    if calls == [] then map[] else Served(limit, StoreAfterCalls(limit, Init(calls)), RequestOf(Last(calls)))
  }

  predicate Refuses(limit: int, calls: seq<Call>, call: Call) { !Admits(limit, StoreAfterCalls(limit, calls), RequestOf(call)) }

  /** The calls that got through. */
  function AdmittedCalls(limit: int, calls: seq<Call>): seq<Call> {
    if calls == [] then []
    else AdmittedCalls(limit, Init(calls)) + if Refuses(limit, Init(calls), Last(calls)) then [] else [Last(calls)]
  }

  /** Calls count together when they carry the same header, or each has none or the name `unknown`. */
  predicate CountTogether(h: string, g: string) { h == g || ((h == "" || h == "unknown") && (g == "" || g == "unknown")) }

  function CountCalls(calls: seq<Call>, header: string, after: int, upTo: int): nat {
    if calls == [] then 0
    else CountCalls(Init(calls), header, after, upTo)
         + if CountTogether(Last(calls).header, header) && after < Last(calls).at <= upTo then 1 else 0
  }

  /** The calls that count together with `header`. */
  function OnlyTogether(calls: seq<Call>, header: string): seq<Call> {
    if calls == [] then []
    else OnlyTogether(Init(calls), header) + if CountTogether(Last(calls).header, header) then [Last(calls)] else []
  }

  ghost predicate CallsInOrder(calls: seq<Call>) { forall i, j :: 0 <= i < j < |calls| ==> calls[i].at <= calls[j].at }

  function RequestsOf(calls: seq<Call>): seq<Request> {
    if calls == [] then [] else RequestsOf(Init(calls)) + [RequestOf(Last(calls))]
  }

  lemma NamesTellBuckets(h: string, g: string)
    ensures NameOf(h) == NameOf(g) <==> CountTogether(h, g)
  {}

  lemma {:induction false} RequestsAt(calls: seq<Call>)
    ensures |RequestsOf(calls)| == |calls|
    ensures forall k :: 0 <= k < |calls| ==> RequestsOf(calls)[k] == RequestOf(calls[k])
  {
    if calls != [] { RequestsAt(Init(calls)); }
  }

  lemma StoreLast(limit: int, earlier: seq<Request>, r: Request)
    ensures StoreAfter(limit, earlier + [r]) == Served(limit, StoreAfter(limit, earlier), r)
  {
    assert Init(earlier + [r]) == earlier && Last(earlier + [r]) == r;
  }

  lemma {:induction false} StoresAgree(limit: int, calls: seq<Call>)
    ensures StoreAfterCalls(limit, calls) == StoreAfter(limit, RequestsOf(calls))
  {
    if calls != [] {
      StoresAgree(limit, Init(calls));
      StoreLast(limit, RequestsOf(Init(calls)), RequestOf(Last(calls)));
    }
  }

  lemma {:induction false} AdmittedAgree(limit: int, calls: seq<Call>)
    ensures RequestsOf(AdmittedCalls(limit, calls)) == Admitted(limit, RequestsOf(calls))
  {
    if calls != [] {
      var before := AdmittedCalls(limit, Init(calls));
      AdmittedAgree(limit, Init(calls));
      StoresAgree(limit, Init(calls));
      AdmittedLast(limit, RequestsOf(Init(calls)), RequestOf(Last(calls)));
      RequestsOneMore(before, Last(calls));
      assert before + [] == before;
    }
  }

  lemma RequestsOneMore(calls: seq<Call>, call: Call)
    ensures RequestsOf(calls + [call]) == RequestsOf(calls) + [RequestOf(call)]
  {
    assert Init(calls + [call]) == calls && Last(calls + [call]) == call;
  }

  lemma {:induction false} CountsAgree(calls: seq<Call>, header: string, after: int, upTo: int)
    ensures Count(RequestsOf(calls), NameOf(header), after, upTo) == CountCalls(calls, header, after, upTo)
  {
    if calls != [] {
      CountsAgree(Init(calls), header, after, upTo);
      CountConcat(RequestsOf(Init(calls)), RequestOf(Last(calls)), NameOf(header), after, upTo);
      NamesTellBuckets(Last(calls).header, header);
    }
  }

  lemma RequestsInOrder(calls: seq<Call>)
    requires CallsInOrder(calls)
    ensures Ordered(RequestsOf(calls))
  {
    RequestsAt(calls);
  }

  /** In every run of calls with clocks in order, no second lets more than `limit` calls through that count together. */
  lemma CallWindowsAreLimited(limit: int, calls: seq<Call>, header: string, after: int)
    requires limit > 0 && CallsInOrder(calls)
    ensures CountCalls(AdmittedCalls(limit, calls), header, after, after + 1_000_000_000) <= limit
  {
    RequestsInOrder(calls);
    AdmittedAgree(limit, calls);
    WindowsAreLimited(limit, RequestsOf(calls), NameOf(header), after);
    CountsAgree(AdmittedCalls(limit, calls), header, after, after + SECOND);
  }

  /** After such a run a call is refused exactly when `limit` calls that count together with it got through in the second before it. */
  lemma CallRefusedIff(limit: int, calls: seq<Call>, call: Call)
    requires limit > 0 && CallsInOrder(calls + [call])
    ensures Refuses(limit, calls, call) <==>
            CountCalls(AdmittedCalls(limit, calls), call.header, call.at - 1_000_000_000, call.at) == limit
  {
    OneMoreInOrder(calls, call);
    RefusedIff(limit, RequestsOf(calls), RequestOf(call));
    AnswerAndCount(limit, calls, call);
  }

  lemma OneMoreInOrder(calls: seq<Call>, call: Call)
    requires CallsInOrder(calls + [call])
    ensures Ordered(RequestsOf(calls) + [RequestOf(call)])
  {
    RequestsInOrder(calls + [call]);
    RequestsOneMore(calls, call);
  }

  lemma AnswerAndCount(limit: int, calls: seq<Call>, call: Call)
    ensures Refuses(limit, calls, call) <==> !Admits(limit, StoreAfter(limit, RequestsOf(calls)), RequestOf(call))
    ensures Count(Admitted(limit, RequestsOf(calls)), RequestOf(call).agentId, call.at - SECOND, call.at)
            == CountCalls(AdmittedCalls(limit, calls), call.header, call.at - SECOND, call.at)
  {
    StoresAgree(limit, calls);
    AdmittedAgree(limit, calls);
    CountsAgree(AdmittedCalls(limit, calls), call.header, call.at - SECOND, call.at);
  }

  lemma {:induction false} OthersLeaveTheList(limit: int, calls: seq<Call>, header: string)
    ensures TimesOf(StoreAfterCalls(limit, calls), NameOf(header))
            == TimesOf(StoreAfterCalls(limit, OnlyTogether(calls, header)), NameOf(header))
  {
    if calls != [] {
      var call, kept := Last(calls), OnlyTogether(Init(calls), header);
      OthersLeaveTheList(limit, Init(calls), header);
      NamesTellBuckets(call.header, header);
      assert Init(kept + [call]) == kept && Last(kept + [call]) == call && kept + [] == kept;
    }
  }

  /** Calls of others never change the answer, whatever the clocks do. */
  lemma OthersNeverMatter(limit: int, calls: seq<Call>, call: Call)
    ensures Refuses(limit, calls, call) <==> Refuses(limit, OnlyTogether(calls, call.header), call)
  {
    OthersLeaveTheList(limit, calls, call.header);
  }
}
