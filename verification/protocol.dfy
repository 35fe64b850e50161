/** pkg/hearsay/client.go as a protocol: atomic steps on one namespace's log, and what holds in all runs. */
module Protocol {
  import opened Messages
  import opened ActiveClaims
  import opened Conflicts
  import opened Scans
  import opened Queries
  import opened Views

  datatype Backend = MemoryBackend | SqlBackend

  /** The messages a backend's `ActiveClaims` scans. */
  function Seen(b: Backend, log: seq<Message>): seq<Message> { if b.SqlBackend? then SqlView(log) else log }

  // ---------- The messages a client appends ----------

  datatype ClaimRequest = ClaimRequest(
    resourceUri: string, agentId: string, operation: Operation, intent: string, ttlSeconds: int)

  const DEFAULT_TTL := 300

  function NewClaim(req: ClaimRequest, claimId: string, createdAt: Instant): Claim {
    Claim(claimId, req.agentId, req.resourceUri, req.operation, req.intent,
          if req.ttlSeconds == 0 then DEFAULT_TTL else req.ttlSeconds, createdAt)
  }

  /** Both providers continue from the last offset: a counter in memory, `MAX(offset) + 1` in SQL. */
  function NextOffset(log: seq<Message>): nat { if log == [] then 1 else Last(log).offset + 1 }

  /** A message as the client builds it: no offset, namespace or timestamp yet. */
  function Draft(kind: MessageType, agentId: string, payload: Payload): Message {
    Message(0, kind, "", agentId, payload, 0)
  }

  function ClaimDraft(c: Claim): Message { Draft(ClaimMsg, c.agentId, Payload(Some(c), Some(c.claimId))) }

  /** A payload with a `claim_id` and, of the other fields of a claim, at most the intent. */
  function RefPayload(claimId: string, intent: string): Payload {
    Payload(Some(Claim(claimId, "", "", OtherOperation(""), intent, 0, 0)), Some(claimId))
  }

  function RefDraft(kind: MessageType, agentId: string, claimId: string, intent: string := ""): Message {
    Draft(kind, agentId, RefPayload(claimId, intent))
  }

  /** The message a draft becomes when it is stored at `at`. */
  function Stored(log: seq<Message>, ns: string, draft: Message, at: Instant): Message {
    draft.(offset := NextOffset(log), namespace := ns, timestamp := at)
  }

  function Store(log: seq<Message>, ns: string, draft: Message, at: Instant): seq<Message> {
    log + [Stored(log, ns, draft, at)]
  }

  // ---------- Steps ----------

  /**
   * One call, atomically. A claim reads the clock three times: when the active claims are filtered,
   * when the claim is stamped, and when the message is stored.
   */
  datatype Step =
    | ClaimStep(req: ClaimRequest, claimId: string, checked: Instant, created: Instant, stored: Instant)
    | ReleaseStep(claimId: string, agentId: string, stored: Instant)
    | TransferStep(claimId: string, stored: Instant)
    | HeartbeatStep(claimId: string, stored: Instant)
    | IntentStep(claimId: string, intent: string, stored: Instant)
    | SweepStep(before: Instant, stored: Instant)

  function ReportFor(b: Backend, log: seq<Message>, c: Claim, checked: Instant): seq<Conflict> {
    Report(c, Selected(Active(Seen(b, log), checked), c.resourceUri))
  }

  function ClaimLog(b: Backend, log: seq<Message>, ns: string, c: Claim, checked: Instant, stored: Instant): seq<Message> {
    if ReportFor(b, log, c, checked) == [] then Store(log, ns, ClaimDraft(c), stored) else log
  }

  function Next(b: Backend, ns: string, log: seq<Message>, step: Step): seq<Message> {
    match step
    case ClaimStep(req, id, checked, created, stored) => ClaimLog(b, log, ns, NewClaim(req, id, created), checked, stored)
    case ReleaseStep(id, agentId, stored) => Store(log, ns, RefDraft(ReleaseMsg, agentId, id), stored)
    case TransferStep(id, stored) => Store(log, ns, RefDraft(TransferMsg, "", id), stored)
    case HeartbeatStep(id, stored) => Store(log, ns, RefDraft(HeartbeatMsg, "", id), stored)
    case IntentStep(id, intent, stored) => Store(log, ns, RefDraft(IntentMsg, "", id, intent), stored)
    case SweepStep(before, _) => if b.SqlBackend? then Swept(log, before) else log
  }

  /** The log, the latest clock reading, and every claim id handed out so far. */
  datatype State = State(log: seq<Message>, clock: Instant, used: set<string>)

  const EMPTY := State([], 0, {})

  function After(b: Backend, ns: string, s: State, step: Step): State {
    State(Next(b, ns, s.log, step), step.stored, s.used + if step.ClaimStep? then {step.claimId} else {})
  }

  /** Clocks never run backwards, within a step or from one step to the next. */
  predicate Legal(s: State, step: Step) {
    if step.ClaimStep? then s.clock <= step.checked <= step.created <= step.stored
    else s.clock <= step.stored
  }

  ghost predicate LegalRun(b: Backend, ns: string, s: State, steps: seq<Step>)
    decreases |steps|
  {
    steps != [] ==> Legal(s, steps[0]) && LegalRun(b, ns, After(b, ns, s, steps[0]), steps[1..])
  }

  /** Claim ids are new, and other messages name an id that has been handed out. */
  predicate Disciplined(s: State, step: Step) {
    if step.ClaimStep? then step.claimId != "" && step.claimId !in s.used
    else step.SweepStep? || step.claimId in s.used
  }

  ghost predicate DisciplinedRun(b: Backend, ns: string, s: State, steps: seq<Step>)
    decreases |steps|
  {
    steps != [] ==> Disciplined(s, steps[0]) && DisciplinedRun(b, ns, After(b, ns, s, steps[0]), steps[1..])
  }

  function Final(b: Backend, ns: string, s: State, steps: seq<Step>): State
    decreases |steps|
  {
    if steps == [] then s else Final(b, ns, After(b, ns, s, steps[0]), steps[1..])
  }

  // ---------- Safety ----------

  /** No claim of the list was granted against an earlier one of another agent. */
  ghost predicate ConflictFree(claims: seq<Claim>) {
    forall i, j :: 0 <= i < j < |claims| ==> !Blocks(claims[i], claims[j])
  }

  ghost predicate SafeState(b: Backend, s: State) { ConflictFree(Active(Seen(b, s.log), s.clock)) }

  ghost predicate SafeThroughout(b: Backend, ns: string, s: State, steps: seq<Step>)
    decreases |steps|
  {
    SafeState(b, s) && (steps != [] ==> SafeThroughout(b, ns, After(b, ns, s, steps[0]), steps[1..]))
  }

  /** The same on entries: of two conflicting entries, one has lapsed. */
  ghost predicate Safe(es: seq<Entry>, now: int) {
    forall i, j :: 0 <= i < j < |es| && Blocks(es[i].claim, es[j].claim) ==> es[i].deadline < now || es[j].deadline < now
  }

  ghost predicate ClearOf(es: seq<Entry>, e: Entry, now: int) {
    forall x :: x in es && Blocks(x.claim, e.claim) ==> x.deadline < now || e.deadline < now
  }

  lemma SafeConcat(es: seq<Entry>, e: Entry, now: int)
    ensures Safe(es + [e], now) <==> Safe(es, now) && ClearOf(es, e, now)
  {
    var all := es + [e];
    assert forall i :: 0 <= i < |all| ==> all[i] == if i < |es| then es[i] else e;
    if Safe(all, now) {
      forall i, j | 0 <= i < j < |es| && Blocks(es[i].claim, es[j].claim)
        ensures es[i].deadline < now || es[j].deadline < now
      {
        assert all[i] == es[i] && all[j] == es[j];
      }
      forall x | x in es && Blocks(x.claim, e.claim) ensures x.deadline < now || e.deadline < now {
        var i :| 0 <= i < |es| && es[i] == x;
        assert all[i] == x && all[|es|] == e;
      }
    }
  }

  lemma ConflictFreeConcat(claims: seq<Claim>, c: Claim)
    ensures ConflictFree(claims + [c]) <==> ConflictFree(claims) && forall a :: a in claims ==> !Blocks(a, c)
  {
    var all := claims + [c];
    assert forall i :: 0 <= i < |all| ==> all[i] == if i < |claims| then claims[i] else c;
    if ConflictFree(all) {
      forall i, j | 0 <= i < j < |claims| ensures !Blocks(claims[i], claims[j]) {
        assert all[i] == claims[i] && all[j] == claims[j];
      }
      forall a | a in claims ensures !Blocks(a, c) {
        var i :| 0 <= i < |claims| && claims[i] == a;
        assert all[i] == a && all[|claims|] == c;
      }
    }
  }

  lemma {:induction false} LiveMembers(es: seq<Entry>, now: int)
    ensures forall c :: c in Live(es, now) <==> exists e :: e in es && e.deadline >= now && e.claim == c
  {
    if es != [] {
      LiveMembers(Init(es), now);
      assert es == Init(es) + [Last(es)];
    }
  }

  lemma {:induction false} SafeIsConflictFree(es: seq<Entry>, now: int)
    ensures Safe(es, now) <==> ConflictFree(Live(es, now))
  {
    if es != [] {
      var e := Last(es);
      assert es == Init(es) + [e];
      SafeIsConflictFree(Init(es), now);
      SafeConcat(Init(es), e, now);
      LiveMembers(Init(es), now);
      if e.deadline >= now {
        ConflictFreeConcat(Live(Init(es), now), e.claim);
      } else {
        assert Live(es, now) == Live(Init(es), now);
      }
    }
  }

  /** A state that is safe stays safe however much time passes without a message. */
  lemma SafeStaysSafe(b: Backend, s: State, later: int)
    requires SafeState(b, s) && s.clock <= later
    ensures ConflictFree(Active(Seen(b, s.log), later))
  {
    SafeIsConflictFree(Entries(Seen(b, s.log)), s.clock);
    SafeIsConflictFree(Entries(Seen(b, s.log)), later);
  }

  // ---------- Steps and safety ----------

  lemma {:induction false} SafeWithout(es: seq<Entry>, id: string, now: int)
    requires Safe(es, now)
    ensures Safe(Without(es, id), now)
    ensures forall e :: e in Without(es, id) ==> e in es
  {
    if es != [] {
      assert es == Init(es) + [Last(es)];
      SafeConcat(Init(es), Last(es), now);
      SafeWithout(Init(es), id, now);
      SafeConcat(Without(Init(es), id), Last(es), now);
      assert Without(Init(es), id) + [] == Without(Init(es), id);
    }
  }

  lemma {:induction false} SafeUnexpired(es: seq<Entry>, before: Instant, now: int)
    requires Safe(es, now)
    ensures Safe(Unexpired(es, before), now)
    ensures forall e :: e in Unexpired(es, before) ==> e in es
  {
    if es != [] {
      assert es == Init(es) + [Last(es)];
      SafeConcat(Init(es), Last(es), now);
      SafeUnexpired(Init(es), before, now);
      SafeConcat(Unexpired(Init(es), before), Last(es), now);
      assert Unexpired(Init(es), before) + [] == Unexpired(Init(es), before);
    }
  }

  /** A granted claim conflicts with no entry still live when the active claims were read. */
  lemma GrantIsClear(b: Backend, log: seq<Message>, c: Claim, checked: Instant, deadline: int)
    requires ReportFor(b, log, c, checked) == []
    ensures ClearOf(Entries(Seen(b, log)), Entry(c, deadline), checked)
  {
    var active := Active(Seen(b, log), checked);
    FilteringKeepsReport(c, active);
    ReportIsEmptyIff(c, active);
    LiveMembers(Entries(Seen(b, log)), checked);
  }

  ghost predicate Good(log: seq<Message>) { Sorted(log) && Positive(log) }

  lemma StoreKeepsGood(log: seq<Message>, ns: string, draft: Message, at: Instant)
    requires Good(log)
    ensures Good(Store(log, ns, draft, at))
  {
    var t := Store(log, ns, draft, at);
    assert forall i :: 0 <= i < |t| ==> t[i] == if i < |log| then log[i] else Last(t);
    if log != [] { assert Last(log) == log[|log| - 1]; }
  }

  lemma SqlViewAppended(log: seq<Message>, m: Message)
    requires Good(log + [m])
    ensures SqlView(log + [m]) == if m.kind in SQL_KINDS then SqlView(log) + [m] else SqlView(log)
    ensures Sorted(SqlView(log + [m]))
  {
    MatchingConcat(log, m, ByKinds(SQL_KINDS));
    MatchingIsOrdered(log + [m], ByKinds(SQL_KINDS));
    assert m == (log + [m])[|log|];
  }

  /** What a stored message does to the entries a backend sees. */
  lemma SeenEntries(b: Backend, log: seq<Message>, ns: string, draft: Message, at: Instant)
    requires Good(log)
    ensures Entries(Seen(b, Store(log, ns, draft, at))) ==
            if b.SqlBackend? && draft.kind !in SQL_KINDS then Entries(Seen(b, log))
            else if Claims(draft) then Entries(Seen(b, log)) + [Entry(ClaimOf(draft), DeadlineIn(Seen(b, log), ClaimOf(draft)))]
            else Effect(Seen(b, log), Entries(Seen(b, log)), Stored(log, ns, draft, at))
  {
    var m := Stored(log, ns, draft, at);
    StoreKeepsGood(log, ns, draft, at);
    if b.MemoryBackend? {
      EntriesAppended(log, m);
    } else {
      SqlViewAppended(log, m);
      if m.kind in SQL_KINDS { EntriesAppended(SqlView(log), m); }
    }
  }

  lemma GoodConcat(log: seq<Message>, m: Message)
    requires Good(log) && m.offset > 0 && forall x :: x in log ==> x.offset < m.offset
    ensures Good(log + [m])
  {
    var t := log + [m];
    assert forall i :: 0 <= i < |t| ==> t[i] == if i < |log| then log[i] else m;
    forall i | 0 <= i < |log| ensures log[i].offset < m.offset { assert log[i] in log; }
  }

  lemma {:induction false} SweptIsGood(log: seq<Message>, before: Instant)
    requires Good(log)
    ensures Good(Swept(log, before))
  {
    if log != [] {
      var earlier, m := Init(log), Last(log);
      assert m == log[|log| - 1];
      SweptIsGood(earlier, before);
      SweptMembers(earlier, before);
      if SweptAway(m, before) {
        assert Swept(log, before) == Swept(earlier, before);
      } else {
        forall x | x in Swept(earlier, before) ensures x.offset < m.offset {
          var k :| 0 <= k < |earlier| && earlier[k] == x;
          assert log[k] == x;
        }
        GoodConcat(Swept(earlier, before), m);
      }
    }
  }

  lemma NextIsGood(b: Backend, ns: string, log: seq<Message>, step: Step)
    requires Good(log)
    ensures Good(Next(b, ns, log, step))
  {
    match step
    case ClaimStep(req, id, checked, created, stored) => StoreKeepsGood(log, ns, ClaimDraft(NewClaim(req, id, created)), stored);
    case ReleaseStep(id, agentId, stored) => StoreKeepsGood(log, ns, RefDraft(ReleaseMsg, agentId, id), stored);
    case TransferStep(id, stored) => StoreKeepsGood(log, ns, RefDraft(TransferMsg, "", id), stored);
    case HeartbeatStep(id, stored) => StoreKeepsGood(log, ns, RefDraft(HeartbeatMsg, "", id), stored);
    case IntentStep(id, intent, stored) => StoreKeepsGood(log, ns, RefDraft(IntentMsg, "", id, intent), stored);
    case SweepStep(before, _) => SweptIsGood(log, before);
  }

  /** A release or transfer takes out the entries of an id that is not empty and not yet ended. */
  lemma EndEntries(b: Backend, log: seq<Message>, ns: string, kind: MessageType, agentId: string, id: string, at: Instant)
    requires Good(log) && (kind == ReleaseMsg || kind == TransferMsg)
    ensures Entries(Seen(b, Store(log, ns, RefDraft(kind, agentId, id), at)))
            == if id == "" || FirstEnd(Seen(b, log), id).Some? then Entries(Seen(b, log)) else Without(Entries(Seen(b, log)), id)
  {
    var draft := RefDraft(kind, agentId, id);
    var m := Stored(log, ns, draft, at);
    SeenEntries(b, log, ns, draft, at);
    assert draft.kind in SQL_KINDS && !Claims(draft) && RefOf(m) == id && Ends(m, id);
  }

  lemma EndKeepsSafe(b: Backend, ns: string, s: State, kind: MessageType, agentId: string, id: string, stored: Instant)
    requires Good(s.log) && SafeState(b, s) && s.clock <= stored && (kind == ReleaseMsg || kind == TransferMsg)
    ensures ConflictFree(Active(Seen(b, Store(s.log, ns, RefDraft(kind, agentId, id), stored)), stored))
  {
    var es := Entries(Seen(b, s.log));
    SafeIsConflictFree(es, s.clock);
    EndEntries(b, s.log, ns, kind, agentId, id, stored);
    SafeWithout(es, id, stored);
    SafeIsConflictFree(Entries(Seen(b, Store(s.log, ns, RefDraft(kind, agentId, id), stored))), stored);
  }

  lemma SafeLater(es: seq<Entry>, now: int, later: int)
    requires Safe(es, now) && now <= later
    ensures Safe(es, later)
  {}

  /** A granted claim adds one entry. */
  lemma GrantedEntries(b: Backend, log: seq<Message>, ns: string, c: Claim, at: Instant)
    requires Good(log)
    ensures Entries(Seen(b, Store(log, ns, ClaimDraft(c), at)))
            == Entries(Seen(b, log)) + [Entry(c, DeadlineIn(Seen(b, log), c))]
  {
    SeenEntries(b, log, ns, ClaimDraft(c), at);
    assert ClaimDraft(c).kind in SQL_KINDS && Claims(ClaimDraft(c)) && ClaimOf(ClaimDraft(c)) == c;
  }

  lemma GrantKeepsSafe(b: Backend, ns: string, s: State, c: Claim, checked: Instant, stored: Instant)
    requires Good(s.log) && SafeState(b, s) && s.clock <= checked <= stored && ReportFor(b, s.log, c, checked) == []
    ensures ConflictFree(Active(Seen(b, Store(s.log, ns, ClaimDraft(c), stored)), stored))
  {
    var es, e := Entries(Seen(b, s.log)), Entry(c, DeadlineIn(Seen(b, s.log), c));
    SafeIsConflictFree(es, s.clock);
    SafeLater(es, s.clock, checked);
    GrantIsClear(b, s.log, c, checked, e.deadline);
    SafeConcat(es, e, checked);
    SafeLater(es + [e], checked, stored);
    GrantedEntries(b, s.log, ns, c, stored);
    SafeIsConflictFree(es + [e], stored);
  }

  lemma ClaimKeepsSafe(b: Backend, ns: string, s: State, c: Claim, checked: Instant, stored: Instant)
    requires Good(s.log) && SafeState(b, s) && s.clock <= checked <= stored
    ensures ConflictFree(Active(Seen(b, ClaimLog(b, s.log, ns, c, checked, stored)), stored))
  {
    if ReportFor(b, s.log, c, checked) == [] {
      GrantKeepsSafe(b, ns, s, c, checked, stored);
    } else {
      SafeStaysSafe(b, s, stored);
    }
  }

  /** A message SQL does not fetch changes nothing there. */
  lemma UnseenChangesNothing(log: seq<Message>, ns: string, draft: Message, at: Instant)
    requires Good(log) && (draft.kind == IntentMsg || draft.kind == HeartbeatMsg)
    ensures SqlView(Store(log, ns, draft, at)) == SqlView(log)
  {
    StoreKeepsGood(log, ns, draft, at);
    assert draft.kind !in SQL_KINDS;
    SqlViewAppended(log, Stored(log, ns, draft, at));
  }

  /** An intent says nothing about claims. */
  lemma IntentChangesNothing(log: seq<Message>, ns: string, draft: Message, at: Instant)
    requires Good(log) && draft.kind == IntentMsg
    ensures Entries(Store(log, ns, draft, at)) == Entries(log)
  {
    var m := Stored(log, ns, draft, at);
    StoreKeepsGood(log, ns, draft, at);
    EntriesAppended(log, m);
    assert !Claims(m) && !Ends(m, RefOf(m)) && !Beats(m, RefOf(m));
  }

  lemma IdleKeepsSafe(b: Backend, ns: string, s: State, kind: MessageType, id: string, intent: string, stored: Instant)
    requires Good(s.log) && SafeState(b, s) && s.clock <= stored
    requires kind == IntentMsg || (kind == HeartbeatMsg && b.SqlBackend?)
    ensures ConflictFree(Active(Seen(b, Store(s.log, ns, RefDraft(kind, "", id, intent), stored)), stored))
  {
    var draft := RefDraft(kind, "", id, intent);
    if b.SqlBackend? {
      UnseenChangesNothing(s.log, ns, draft, stored);
    } else {
      IntentChangesNothing(s.log, ns, draft, stored);
    }
    SafeStaysSafe(b, s, stored);
  }

  lemma SweepKeepsSafe(s: State, before: Instant, stored: Instant)
    requires SafeState(SqlBackend, s) && s.clock <= stored
    ensures ConflictFree(Active(SqlView(Swept(s.log, before)), stored))
  {
    var es := Entries(SqlView(s.log));
    SafeIsConflictFree(es, s.clock);
    SweptMatching(s.log, before, ByKinds(SQL_KINDS));
    SweptScan(SqlView(s.log), SqlView(s.log), before);
    SafeUnexpired(es, before, stored);
    SafeIsConflictFree(Unexpired(es, before), stored);
  }

  lemma ClaimStepKeepsSafe(b: Backend, ns: string, s: State, step: Step)
    requires Good(s.log) && SafeState(b, s) && Legal(s, step) && step.ClaimStep?
    ensures SafeState(b, After(b, ns, s, step))
  {
    ClaimKeepsSafe(b, ns, s, NewClaim(step.req, step.claimId, step.created), step.checked, step.stored);
  }

  lemma EndStepKeepsSafe(b: Backend, ns: string, s: State, step: Step)
    requires Good(s.log) && SafeState(b, s) && Legal(s, step) && (step.ReleaseStep? || step.TransferStep?)
    ensures SafeState(b, After(b, ns, s, step))
  {
    if step.ReleaseStep? {
      EndKeepsSafe(b, ns, s, ReleaseMsg, step.agentId, step.claimId, step.stored);
    } else {
      EndKeepsSafe(b, ns, s, TransferMsg, "", step.claimId, step.stored);
    }
  }

  lemma IdleStepKeepsSafe(b: Backend, ns: string, s: State, step: Step)
    requires Good(s.log) && SafeState(b, s) && Legal(s, step)
    requires step.IntentStep? || (step.HeartbeatStep? && b.SqlBackend?)
    ensures SafeState(b, After(b, ns, s, step))
  {
    if step.IntentStep? {
      IdleKeepsSafe(b, ns, s, IntentMsg, step.claimId, step.intent, step.stored);
    } else {
      IdleKeepsSafe(b, ns, s, HeartbeatMsg, step.claimId, "", step.stored);
    }
  }

  lemma SqlSweepKeepsSafe(ns: string, s: State, step: Step)
    requires SafeState(SqlBackend, s) && s.clock <= step.stored && step.SweepStep?
    ensures SafeState(SqlBackend, After(SqlBackend, ns, s, step))
  {
    SweepKeepsSafe(s, step.before, step.stored);
  }

  lemma MemorySweepKeepsSafe(ns: string, s: State, step: Step)
    requires SafeState(MemoryBackend, s) && s.clock <= step.stored && step.SweepStep?
    ensures SafeState(MemoryBackend, After(MemoryBackend, ns, s, step))
  {
    SafeStaysSafe(MemoryBackend, s, step.stored);
  }

  /** Every step except a heartbeat keeps a safe state safe; no id discipline is needed. */
  lemma StepKeepsSafe(b: Backend, ns: string, s: State, step: Step)
    requires Good(s.log) && SafeState(b, s) && Legal(s, step)
    requires b.MemoryBackend? ==> !step.HeartbeatStep?
    ensures SafeState(b, After(b, ns, s, step))
  {
    match step {
      case ClaimStep(_, _, _, _, _) => ClaimStepKeepsSafe(b, ns, s, step);
      case ReleaseStep(_, _, _) => EndStepKeepsSafe(b, ns, s, step);
      case TransferStep(_, _) => EndStepKeepsSafe(b, ns, s, step);
      case HeartbeatStep(_, _) => IdleStepKeepsSafe(b, ns, s, step);
      case IntentStep(_, _, _) => IdleStepKeepsSafe(b, ns, s, step);
      case SweepStep(_, _) => if b.SqlBackend? { SqlSweepKeepsSafe(ns, s, step); } else { MemorySweepKeepsSafe(ns, s, step); }
    }
  }

  /**
   * Over a SQL provider every run is safe: whatever ids are used, whatever is released, and whenever
   * the sweeper deletes, no claim is active next to an earlier active claim it conflicts with.
   */
  lemma {:induction false} SqlRunsAreSafe(ns: string, s: State, steps: seq<Step>)
    requires Good(s.log) && SafeState(SqlBackend, s) && LegalRun(SqlBackend, ns, s, steps)
    ensures SafeThroughout(SqlBackend, ns, s, steps)
    decreases |steps|
  {
    if steps != [] {
      StepKeepsSafe(SqlBackend, ns, s, steps[0]);
      NextIsGood(SqlBackend, ns, s.log, steps[0]);
      SqlRunsAreSafe(ns, After(SqlBackend, ns, s, steps[0]), steps[1..]);
    }
  }

  // ---------- Well-formed logs ----------

  /** Every id the log claims or mentions has been handed out. */
  ghost predicate Tracked(s: State) {
    && (forall m :: m in s.log && Claims(m) ==> ClaimOf(m).claimId in s.used)
    && (forall m, id :: m in s.log && Mentions(m, id) ==> id in s.used)
  }

  lemma StoreKeepsWellFormed(s: State, ns: string, draft: Message, at: Instant)
    requires WellFormed(s.log) && Good(s.log) && Tracked(s)
    requires Claims(draft) ==> ClaimOf(draft).claimId != "" && ClaimOf(draft).claimId !in s.used
    ensures WellFormed(Store(s.log, ns, draft, at))
  {
    StoreKeepsGood(s.log, ns, draft, at);
    var t := Store(s.log, ns, draft, at);
    assert forall i :: 0 <= i < |t| ==> t[i] == if i < |s.log| then s.log[i] else Stored(s.log, ns, draft, at);
    forall i | 0 <= i < |s.log| ensures s.log[i] in s.log {}
  }

  lemma StoreKeepsTracked(s: State, ns: string, draft: Message, at: Instant, used: set<string>)
    requires Tracked(s) && s.used <= used
    requires Claims(draft) ==> ClaimOf(draft).claimId in used
    requires forall id :: Mentions(draft, id) ==> id in used
    ensures Tracked(State(Store(s.log, ns, draft, at), at, used))
  {
    forall m, id | m in Store(s.log, ns, draft, at) && Mentions(m, id) ensures id in used {
      if m !in s.log { assert Mentions(draft, id); }
    }
  }

  /** A release, transfer, heartbeat or intent naming an id that has been handed out. */
  lemma RefKeepsWellFormed(s: State, ns: string, kind: MessageType, agentId: string, id: string, intent: string, at: Instant)
    requires WellFormed(s.log) && Good(s.log) && Tracked(s) && id in s.used && !kind.ClaimMsg?
    ensures WellFormed(Store(s.log, ns, RefDraft(kind, agentId, id, intent), at))
    ensures Tracked(State(Store(s.log, ns, RefDraft(kind, agentId, id, intent), at), at, s.used + {}))
  {
    StoreKeepsWellFormed(s, ns, RefDraft(kind, agentId, id, intent), at);
    StoreKeepsTracked(s, ns, RefDraft(kind, agentId, id, intent), at, s.used + {});
  }

  lemma ClaimKeepsWellFormed(b: Backend, ns: string, s: State, c: Claim, checked: Instant, stored: Instant)
    requires WellFormed(s.log) && Good(s.log) && Tracked(s) && c.claimId != "" && c.claimId !in s.used
    ensures WellFormed(ClaimLog(b, s.log, ns, c, checked, stored))
    ensures Tracked(State(ClaimLog(b, s.log, ns, c, checked, stored), stored, s.used + {c.claimId}))
  {
    StoreKeepsWellFormed(s, ns, ClaimDraft(c), stored);
    StoreKeepsTracked(s, ns, ClaimDraft(c), stored, s.used + {c.claimId});
  }

  lemma SweptIsWellFormed(log: seq<Message>, before: Instant)
    requires WellFormed(log) && Good(log)
    ensures WellFormed(Swept(log, before))
  {
    var t := Swept(log, before);
    SweptIsGood(log, before);
    SweptMembers(log, before);
    forall i, j | 0 <= i < j < |t|
      ensures exists p, q :: 0 <= p < q < |log| && log[p] == t[i] && log[q] == t[j]
    {
      assert t[i] in log && t[j] in log;
      var p :| 0 <= p < |log| && log[p] == t[i];
      var q :| 0 <= q < |log| && log[q] == t[j];
      assert t[i].offset < t[j].offset && p != q;
    }
    forall i | 0 <= i < |t| ensures t[i] in log {}
  }

  /** Every disciplined step keeps the log well formed, so that scan, per-claim scan and replay agree on it. */
  lemma StepKeepsWellFormed(b: Backend, ns: string, s: State, step: Step)
    requires WellFormed(s.log) && Good(s.log) && Tracked(s) && Disciplined(s, step)
    ensures WellFormed(After(b, ns, s, step).log) && Tracked(After(b, ns, s, step))
  {
    match step
    case ClaimStep(req, id, checked, created, stored) =>
      ClaimKeepsWellFormed(b, ns, s, NewClaim(req, id, created), checked, stored);
    case ReleaseStep(id, agentId, stored) => RefKeepsWellFormed(s, ns, ReleaseMsg, agentId, id, "", stored);
    case TransferStep(id, stored) => RefKeepsWellFormed(s, ns, TransferMsg, "", id, "", stored);
    case HeartbeatStep(id, stored) => RefKeepsWellFormed(s, ns, HeartbeatMsg, "", id, "", stored);
    case IntentStep(id, intent, stored) => RefKeepsWellFormed(s, ns, IntentMsg, "", id, intent, stored);
    case SweepStep(before, _) =>
      SweptIsWellFormed(s.log, before);
      SweptMembers(s.log, before);
  }

  lemma {:induction false} RunKeepsWellFormed(b: Backend, ns: string, s: State, steps: seq<Step>)
    requires WellFormed(s.log) && Good(s.log) && Tracked(s) && DisciplinedRun(b, ns, s, steps)
    ensures WellFormed(Final(b, ns, s, steps).log)
    decreases |steps|
  {
    if steps != [] {
      StepKeepsWellFormed(b, ns, s, steps[0]);
      NextIsGood(b, ns, s.log, steps[0]);
      RunKeepsWellFormed(b, ns, After(b, ns, s, steps[0]), steps[1..]);
    }
  }
}
