/** What heartbeats can and cannot do to a memory-backed namespace, and what a dry run predicts. */
module Heartbeats {
  import opened Messages
  import opened ActiveClaims
  import opened Conflicts
  import opened Scans
  import opened Protocol

  // ---------- When a heartbeat is safe ----------

  predicate Conflicted(es: seq<Entry>, i: nat, j: nat)
    requires i < |es| && j < |es|
  {
    if i < j then Blocks(es[i].claim, es[j].claim) else Blocks(es[j].claim, es[i].claim)
  }

  /** A heartbeat at `at` brings back a lapsed claim while a claim it conflicts with is held by someone else. */
  ghost predicate Revives(es: seq<Entry>, id: string, at: Instant) {
    exists i, j :: 0 <= i < |es| && 0 <= j < |es| && i != j
                   && es[i].claim.claimId == id && es[i].deadline < at <= at + es[i].claim.Ttl()
                   && es[j].deadline >= at && Conflicted(es, i, j)
  }

  ghost predicate DistinctIds(es: seq<Entry>) {
    forall i, j :: 0 <= i < j < |es| ==> es[i].claim.claimId != es[j].claim.claimId
  }

  lemma {:induction false} ExtendAt(es: seq<Entry>, id: string, at: Instant)
    ensures |Extend(es, id, at)| == |es|
    ensures forall i :: 0 <= i < |es| ==> Extend(es, id, at)[i] == Extended(es[i], id, at)
  {
    if es != [] {
      ExtendAt(Init(es), id, at);
      assert Last(es) == es[|es| - 1];
    }
  }

  lemma ExtendIsSafeIff(es: seq<Entry>, id: string, at: Instant)
    requires Safe(es, at) && DistinctIds(es)
    ensures Safe(Extend(es, id, at), at) <==> !Revives(es, id, at)
  {
    var fs := Extend(es, id, at);
    ExtendAt(es, id, at);
    if Revives(es, id, at) {
      var i, j :| 0 <= i < |es| && 0 <= j < |es| && i != j
                  && es[i].claim.claimId == id && es[i].deadline < at <= at + es[i].claim.Ttl()
                  && es[j].deadline >= at && Conflicted(es, i, j);
      assert fs[i].deadline >= at && fs[j].deadline >= at;
      assert fs[i].claim == es[i].claim && fs[j].claim == es[j].claim;
    } else {
      forall i, j | 0 <= i < j < |fs| && Blocks(fs[i].claim, fs[j].claim)
        ensures fs[i].deadline < at || fs[j].deadline < at
      {
        assert fs[i].claim == es[i].claim && fs[j].claim == es[j].claim;
        assert es[i].deadline < at || es[j].deadline < at;
        assert Conflicted(es, i, j) && Conflicted(es, j, i);
      }
    }
  }

  lemma {:induction false} ScanHasDistinctIds(log: seq<Message>, n: nat)
    requires WellFormed(log) && n <= |log|
    ensures DistinctIds(Scan(log, log[..n]))
  {
    if n > 0 {
      var rest := log[..n];
      assert Init(rest) == log[..n - 1] && Last(rest) == log[n - 1];
      ScanHasDistinctIds(log, n - 1);
      var es := Scan(log, log[..n - 1]);
      forall e | e in es && Claims(log[n - 1]) ensures e.claim.claimId != ClaimOf(log[n - 1]).claimId {
        ScanOrigin(log, log[..n - 1], e);
      }
    }
  }

  /** A step that cannot undo safety: anything but a heartbeat that revives a claim. */
  ghost predicate Harmless(s: State, step: Step) {
    step.HeartbeatStep? ==> !Revives(Entries(s.log), step.claimId, step.stored)
  }

  ghost predicate HarmlessThroughout(ns: string, s: State, steps: seq<Step>)
    decreases |steps|
  {
    steps != [] ==> Harmless(s, steps[0]) && HarmlessThroughout(ns, After(MemoryBackend, ns, s, steps[0]), steps[1..])
  }

  lemma HeartbeatExtends(log: seq<Message>, ns: string, id: string, stored: Instant)
    requires Good(log) && id != ""
    ensures Entries(Next(MemoryBackend, ns, log, HeartbeatStep(id, stored))) == Extend(Entries(log), id, stored)
  {
    var draft := RefDraft(HeartbeatMsg, "", id);
    var m := Stored(log, ns, draft, stored);
    SeenEntries(MemoryBackend, log, ns, draft, stored);
    assert !Claims(draft) && RefOf(m) == id && !Ends(m, id) && Beats(m, id) && m.timestamp == stored;
  }

  lemma EntriesHaveDistinctIds(log: seq<Message>)
    requires WellFormed(log)
    ensures DistinctIds(Entries(log))
  {
    assert log[..|log|] == log;
    ScanHasDistinctIds(log, |log|);
  }

  /** Over the memory provider a heartbeat keeps a safe state safe exactly when it is harmless. */
  lemma HeartbeatIsSafeIff(ns: string, s: State, id: string, stored: Instant)
    requires WellFormed(s.log) && Good(s.log) && SafeState(MemoryBackend, s) && s.clock <= stored && id != ""
    ensures SafeState(MemoryBackend, After(MemoryBackend, ns, s, HeartbeatStep(id, stored)))
            <==> Harmless(s, HeartbeatStep(id, stored))
  {
    var es := Entries(s.log);
    SafeIsConflictFree(es, s.clock);
    HeartbeatExtends(s.log, ns, id, stored);
    EntriesHaveDistinctIds(s.log);
    ExtendIsSafeIff(es, id, stored);
    SafeIsConflictFree(Extend(es, id, stored), stored);
  }

  lemma MemoryStepIsSafeIff(ns: string, s: State, step: Step)
    requires WellFormed(s.log) && Good(s.log) && Tracked(s) && "" !in s.used && SafeState(MemoryBackend, s)
    requires Legal(s, step) && Disciplined(s, step)
    ensures SafeState(MemoryBackend, After(MemoryBackend, ns, s, step)) <==> Harmless(s, step)
  {
    if step.HeartbeatStep? {
      HeartbeatIsSafeIff(ns, s, step.claimId, step.stored);
    } else {
      StepKeepsSafe(MemoryBackend, ns, s, step);
    }
  }

  /**
   * Over the memory provider, a disciplined run is safe at every moment exactly when each of its
   * heartbeats is harmless: none brings back a lapsed claim whose resource has since been granted.
   */
  lemma {:induction false} MemoryRunsAreSafeIff(ns: string, s: State, steps: seq<Step>)
    requires WellFormed(s.log) && Good(s.log) && Tracked(s) && "" !in s.used && SafeState(MemoryBackend, s)
    requires LegalRun(MemoryBackend, ns, s, steps) && DisciplinedRun(MemoryBackend, ns, s, steps)
    ensures SafeThroughout(MemoryBackend, ns, s, steps) <==> HarmlessThroughout(ns, s, steps)
    decreases |steps|
  {
    if steps != [] {
      var next := After(MemoryBackend, ns, s, steps[0]);
      StepKeepsWellFormed(MemoryBackend, ns, s, steps[0]);
      NextIsGood(MemoryBackend, ns, s.log, steps[0]);
      MemoryStepIsSafeIff(ns, s, steps[0]);
      if Harmless(s, steps[0]) {
        MemoryRunsAreSafeIff(ns, next, steps[1..]);
      } else {
        assert !SafeThroughout(MemoryBackend, ns, next, steps[1..]);
      }
    }
  }

  /** Agents that only renew claims they still hold never do harm. */
  lemma RenewingIsHarmless(s: State, id: string, stored: Instant)
    requires WellFormed(s.log)
    requires exists c :: c in Active(s.log, stored) && c.claimId == id
    ensures Harmless(s, HeartbeatStep(id, stored))
  {
    var es := Entries(s.log);
    LiveMembers(es, stored);
    var c :| c in Active(s.log, stored) && c.claimId == id;
    var e :| e in es && e.deadline >= stored && e.claim == c;
    EntriesHaveDistinctIds(s.log);
    forall i | 0 <= i < |es| && es[i].claim.claimId == id ensures es[i] == e {
      var k :| 0 <= k < |es| && es[k] == e;
      assert k == i;
    }
  }

  /** Each heartbeat of the run names a claim that is active when it is stored. */
  ghost predicate RenewsOnly(ns: string, s: State, steps: seq<Step>)
    decreases |steps|
  {
    steps != [] ==>
      && (steps[0].HeartbeatStep? ==>
            exists c :: c in Active(s.log, steps[0].stored) && c.claimId == steps[0].claimId)
      && RenewsOnly(ns, After(MemoryBackend, ns, s, steps[0]), steps[1..])
  }

  lemma {:induction false} RenewingRunsAreHarmless(ns: string, s: State, steps: seq<Step>)
    requires WellFormed(s.log) && Good(s.log) && Tracked(s)
    requires DisciplinedRun(MemoryBackend, ns, s, steps) && RenewsOnly(ns, s, steps)
    ensures HarmlessThroughout(ns, s, steps)
    decreases |steps|
  {
    if steps != [] {
      StepKeepsWellFormed(MemoryBackend, ns, s, steps[0]);
      NextIsGood(MemoryBackend, ns, s.log, steps[0]);
      if steps[0].HeartbeatStep? { RenewingIsHarmless(s, steps[0].claimId, steps[0].stored); }
      RenewingRunsAreHarmless(ns, After(MemoryBackend, ns, s, steps[0]), steps[1..]);
    }
  }

  /** Over the memory provider every run whose agents heartbeat only claims still active is safe at every moment. */
  lemma RenewingRunsAreSafe(ns: string, s: State, steps: seq<Step>)
    requires WellFormed(s.log) && Good(s.log) && Tracked(s) && "" !in s.used && SafeState(MemoryBackend, s)
    requires LegalRun(MemoryBackend, ns, s, steps) && DisciplinedRun(MemoryBackend, ns, s, steps)
    requires RenewsOnly(ns, s, steps)
    ensures SafeThroughout(MemoryBackend, ns, s, steps)
  {
    RenewingRunsAreHarmless(ns, s, steps);
    MemoryRunsAreSafeIff(ns, s, steps);
  }

  // ---------- A run that is not safe ----------

  const ANN := ClaimStep(ClaimRequest("file://x", "ann", Write, "", 1), "c1", 1, 1, 1)
  const BOB := ClaimStep(ClaimRequest("file://x", "bob", Write, "", 9), "c2", 3 * SECOND, 3 * SECOND, 3 * SECOND)
  const LATE := HeartbeatStep("c1", 3 * SECOND)
  const ANNS := NewClaim(ANN.req, "c1", 1)
  const BOBS := NewClaim(BOB.req, "c2", 3 * SECOND)

  lemma AfterAnn(ns: string)
    ensures var s := After(MemoryBackend, ns, EMPTY, ANN);
            && s.log == Store([], ns, ClaimDraft(ANNS), 1) && Good(s.log)
            && Entries(s.log) == [Entry(ANNS, 1 + SECOND)]
  {
    SeenEntries(MemoryBackend, [], ns, ClaimDraft(ANNS), 1);
    StoreKeepsGood([], ns, ClaimDraft(ANNS), 1);
  }

  lemma AfterBob(ns: string)
    ensures var s := After(MemoryBackend, ns, After(MemoryBackend, ns, EMPTY, ANN), BOB);
            Entries(s.log) == [Entry(ANNS, 1 + SECOND), Entry(BOBS, 12 * SECOND)]
  {
    AfterAnn(ns);
    var s := After(MemoryBackend, ns, EMPTY, ANN);
    var es := Entries(s.log);
    assert Init(es) == [];
    assert Live(es, 3 * SECOND) == [];
    assert ReportFor(MemoryBackend, s.log, BOBS, 3 * SECOND) == [];
    SeenEntries(MemoryBackend, s.log, ns, ClaimDraft(BOBS), 3 * SECOND);
    NoHeartbeats(s.log, "c2");
  }

  lemma LateRunIsLegal(ns: string)
    ensures LegalRun(MemoryBackend, ns, EMPTY, [ANN, BOB, LATE])
    ensures DisciplinedRun(MemoryBackend, ns, EMPTY, [ANN, BOB, LATE])
  {
    var s1 := After(MemoryBackend, ns, EMPTY, ANN);
    var s2 := After(MemoryBackend, ns, s1, BOB);
    var s3 := After(MemoryBackend, ns, s2, LATE);
    assert [ANN, BOB, LATE][1..] == [BOB, LATE] && [BOB, LATE][1..] == [LATE] && [LATE][1..] == [];
    assert LegalRun(MemoryBackend, ns, s3, []) && DisciplinedRun(MemoryBackend, ns, s3, []);
    assert LegalRun(MemoryBackend, ns, s2, [LATE]) && DisciplinedRun(MemoryBackend, ns, s2, [LATE]);
    assert LegalRun(MemoryBackend, ns, s1, [BOB, LATE]) && DisciplinedRun(MemoryBackend, ns, s1, [BOB, LATE]);
  }

  lemma LateRevives(ns: string)
    ensures !Harmless(After(MemoryBackend, ns, After(MemoryBackend, ns, EMPTY, ANN), BOB), LATE)
  {
    AfterBob(ns);
    assert Conflicted([Entry(ANNS, 1 + SECOND), Entry(BOBS, 12 * SECOND)], 0, 1);
  }

  lemma LateRunIsHarmful(ns: string)
    ensures !HarmlessThroughout(ns, EMPTY, [ANN, BOB, LATE])
  {
    var s1 := After(MemoryBackend, ns, EMPTY, ANN);
    var s2 := After(MemoryBackend, ns, s1, BOB);
    assert [ANN, BOB, LATE][1..] == [BOB, LATE] && [BOB, LATE][1..] == [LATE];
    LateRevives(ns);
    assert !HarmlessThroughout(ns, s2, [LATE]);
    assert !HarmlessThroughout(ns, s1, [BOB, LATE]);
  }

  /** A late heartbeat in a concrete run: two agents end up holding write claims on one file. */
  lemma LateHeartbeatBreaksSafety(ns: string)
    ensures LegalRun(MemoryBackend, ns, EMPTY, [ANN, BOB, LATE])
    ensures DisciplinedRun(MemoryBackend, ns, EMPTY, [ANN, BOB, LATE])
    ensures !SafeThroughout(MemoryBackend, ns, EMPTY, [ANN, BOB, LATE])
  {
    LateRunIsLegal(ns);
    LateRunIsHarmful(ns);
    MemoryRunsAreSafeIff(ns, EMPTY, [ANN, BOB, LATE]);
  }

  lemma NoHeartbeats(log: seq<Message>, id: string)
    requires forall k :: 0 <= k < |log| ==> !log[k].kind.HeartbeatMsg?
    ensures LastBeat(log, id) == 0
  {
    LastBeatFacts(log, id);
  }

  // ---------- Dry runs against real claims ----------

  /**
   * At one reading of the clock, every agent's claim would be granted exactly when the dry run is
   * clear and the agent called `_check_` holds nothing in the way.
   */
  lemma DryRunPredictsClaims(b: Backend, log: seq<Message>, uri: string, op: Operation, now: Instant)
    ensures (forall req: ClaimRequest, id: string ::
               req.resourceUri == uri && req.operation == op ==> ReportFor(b, log, NewClaim(req, id, now), now) == [])
            <==>
            && ReportFor(b, log, DryRunClaim(uri, op), now) == []
            && forall a :: a in Active(Seen(b, log), now) && a.agentId == "_check_" ==> !IsConflicting(uri, op, a)
  {
    var active := Active(Seen(b, log), now);
    DryRunIsExact(active, uri, op);
    FilteringKeepsReport(DryRunClaim(uri, op), active);
    forall req: ClaimRequest, id: string | req.resourceUri == uri && req.operation == op
      ensures ReportFor(b, log, NewClaim(req, id, now), now) == Report(ProposedBy(req.agentId, uri, op), active)
    {
      FilteringKeepsReport(NewClaim(req, id, now), active);
      SameReport(NewClaim(req, id, now), ProposedBy(req.agentId, uri, op), active);
    }
    forall agentId
      ensures (forall req: ClaimRequest, id: string ::
                 req.resourceUri == uri && req.operation == op ==> ReportFor(b, log, NewClaim(req, id, now), now) == [])
              ==> Report(ProposedBy(agentId, uri, op), active) == []
    {
      var req := ClaimRequest(uri, agentId, op, "", 0);
      assert ReportFor(b, log, NewClaim(req, "", now), now) == Report(ProposedBy(req.agentId, uri, op), active);
    }
  }

  /** A report depends only on who asks, for what resource and operation. */
  lemma {:induction false} SameReport(c: Claim, d: Claim, active: seq<Claim>)
    requires c.agentId == d.agentId && c.resourceUri == d.resourceUri && c.operation == d.operation
    ensures Report(c, active) == Report(d, active)
  {
    if active != [] { SameReport(c, d, Init(active)); }
  }
}
