/** What a grant, a refusal and a release mean to agents: said in operations, resources and times, on whole runs. */
module Grants {
  import opened Messages
  import opened ActiveClaims
  import opened Conflicts
  import opened Scans
  import opened Views
  import opened Protocol
  import opened Heartbeats
  import opened Client

  // ---------- Who may hold a resource beside whom ----------

  /**
   * A claim for `later` may be granted beside a held claim for `earlier`: of the five operations only
   * reading and writing beside a reader, and reading beside a writer or a refactorer. Operations the
   * code does not know stand in nobody's way but a rename's or a refactoring's.
   */
  predicate AllowedBeside(earlier: Operation, later: Operation) {
    || (earlier.Read? && (later.Read? || later.Write?))
    || ((earlier.Write? || earlier.Refactor?) && later.Read?)
    || later.OtherOperation?
    || (earlier.OtherOperation? && !later.Rename? && !later.Refactor?)
  }

  lemma MatrixAllows(earlier: Operation, later: Operation)
    ensures AllowedBeside(earlier, later) <==> !OperationsConflict(later, earlier)
  {}

  ghost predicate LiesBelow(tree: string, uri: string) {
    exists root: string, rest: string :: tree == root + "/**" && uri == root + "/" + rest
  }

  /** The later URI is the earlier one, or a tree above it, or a concrete URI below it. */
  ghost predicate Meets(later: string, earlier: string) {
    later == earlier || LiesBelow(later, earlier) || ('*' !in later && LiesBelow(earlier, later))
  }

  lemma MeetingUrisMatch(later: string, earlier: string)
    requires Meets(later, earlier)
    ensures ResourceMatches(later, earlier)
  {
    if LiesBelow(later, earlier) {
      var root: string, rest: string :| later == root + "/**" && earlier == root + "/" + rest;
      TreeCovers(root, earlier);
    } else if later != earlier {
      var root: string, rest: string :| earlier == root + "/**" && later == root + "/" + rest;
      TreeCovers(root, later);
    }
  }

  /** Two agents' claims that meet, the first earlier: nothing but the allowed pairs. */
  ghost predicate SharesOnlyAllowed(active: seq<Claim>) {
    forall i, j :: 0 <= i < j < |active| && active[i].agentId != active[j].agentId
                   && Meets(active[j].resourceUri, active[i].resourceUri) ==>
      AllowedBeside(active[i].operation, active[j].operation)
  }

  ghost predicate SharesOnlyAllowedThroughout(b: Backend, ns: string, s: State, steps: seq<Step>)
    decreases |steps|
  {
    && SharesOnlyAllowed(Active(Seen(b, s.log), s.clock))
    && (steps != [] ==> SharesOnlyAllowedThroughout(b, ns, After(b, ns, s, steps[0]), steps[1..]))
  }

  lemma ConflictFreeSharesOnlyAllowed(active: seq<Claim>)
    requires ConflictFree(active)
    ensures SharesOnlyAllowed(active)
  {
    forall i, j | 0 <= i < j < |active| && active[i].agentId != active[j].agentId
                  && Meets(active[j].resourceUri, active[i].resourceUri)
      ensures AllowedBeside(active[i].operation, active[j].operation)
    {
      MatrixAllows(active[i].operation, active[j].operation);
      MeetingUrisMatch(active[j].resourceUri, active[i].resourceUri);
      assert !Blocks(active[i], active[j]);
    }
  }

  /** At every point of a safe run two agents share a URI, or a tree and what lies below it, only as the list allows. */
  lemma {:induction false} SafeRunsShareOnlyAllowed(b: Backend, ns: string, s: State, steps: seq<Step>)
    requires SafeThroughout(b, ns, s, steps)
    ensures SharesOnlyAllowedThroughout(b, ns, s, steps)
    decreases |steps|
  {
    ConflictFreeSharesOnlyAllowed(Active(Seen(b, s.log), s.clock));
    if steps != [] { SafeRunsShareOnlyAllowed(b, ns, After(b, ns, s, steps[0]), steps[1..]); }
  }

  /** Over a SQL provider that is every run from an empty log. */
  lemma SqlRunsShareOnlyAllowed(ns: string, steps: seq<Step>)
    requires LegalRun(SqlBackend, ns, EMPTY, steps)
    ensures SharesOnlyAllowedThroughout(SqlBackend, ns, EMPTY, steps)
  {
    SqlRunsAreSafe(ns, EMPTY, steps);
    SafeRunsShareOnlyAllowed(SqlBackend, ns, EMPTY, steps);
  }

  /** Over the memory provider, every disciplined run from an empty log that renews only claims still active. */
  lemma RenewingRunsShareOnlyAllowed(ns: string, steps: seq<Step>)
    requires LegalRun(MemoryBackend, ns, EMPTY, steps) && DisciplinedRun(MemoryBackend, ns, EMPTY, steps)
    requires RenewsOnly(ns, EMPTY, steps)
    ensures SharesOnlyAllowedThroughout(MemoryBackend, ns, EMPTY, steps)
  {
    RenewingRunsAreSafe(ns, EMPTY, steps);
    SafeRunsShareOnlyAllowed(MemoryBackend, ns, EMPTY, steps);
  }

  // ---------- Grants and refusals ----------

  /** An active claim of another agent on a matching resource that the list does not allow beside the request. */
  predicate InTheWay(a: Claim, agentId: string, uri: string, op: Operation) {
    a.agentId != agentId && ResourceMatches(uri, a.resourceUri) && !AllowedBeside(a.operation, op)
  }

  lemma InTheWayBlocks(a: Claim, c: Claim)
    ensures InTheWay(a, c.agentId, c.resourceUri, c.operation) <==> Blocks(a, c)
  {
    MatrixAllows(a.operation, c.operation);
  }

  /** The conflict that tells of a claim, field by field. */
  predicate TellsOf(conflict: Conflict, a: Claim) {
    && conflict.claimId == a.claimId && conflict.agentId == a.agentId && conflict.resource == a.resourceUri
    && conflict.operation == a.operation && conflict.intent == a.intent && conflict.since == a.createdAt
  }

  /** A report tells, in order and once each, of the claims in the way. */
  ghost predicate ReportsAll(conflicts: seq<Conflict>, active: seq<Claim>, agentId: string, uri: string, op: Operation)
    decreases |active|
  {
    if active == [] then conflicts == []
    else if InTheWay(Last(active), agentId, uri, op) then
      conflicts != [] && TellsOf(Last(conflicts), Last(active)) && ReportsAll(Init(conflicts), Init(active), agentId, uri, op)
    else ReportsAll(conflicts, Init(active), agentId, uri, op)
  }

  lemma {:induction false} ReportReportsAll(c: Claim, active: seq<Claim>)
    ensures ReportsAll(Report(c, active), active, c.agentId, c.resourceUri, c.operation)
  {
    if active != [] {
      ReportReportsAll(c, Init(active));
      InTheWayBlocks(Last(active), c);
      var before := Report(c, Init(active));
      if Blocks(Last(active), c) { ConcatLast(before, ConflictFor(Last(active))); } else { assert before + [] == before; }
    }
  }

  /**
   * `Claim` is granted exactly when no active claim is in the way, and a refusal tells of every claim
   * that is.
   */
  lemma GrantedIff(b: Backend, log: seq<Message>, req: ClaimRequest, claimId: string, checked: Instant, created: Instant)
    ensures var active, outcome := Active(Seen(b, log), checked), ClaimOutcome(b, log, NewClaim(req, claimId, created), checked);
            && outcome.claimId == claimId
            && (outcome.ClaimGranted? <==>
                forall a :: a in active ==> !InTheWay(a, req.agentId, req.resourceUri, req.operation))
            && (outcome.ClaimRefused? ==>
                outcome.report.hasConflict
                && ReportsAll(outcome.report.conflicts, active, req.agentId, req.resourceUri, req.operation))
  {
    var active, c := Active(Seen(b, log), checked), NewClaim(req, claimId, created);
    FilteringKeepsReport(c, active);
    ReportIsEmptyIff(c, active);
    forall a ensures InTheWay(a, req.agentId, req.resourceUri, req.operation) <==> Blocks(a, c) { InTheWayBlocks(a, c); }
    ReportReportsAll(c, active);
  }

  /** The claim a request asks for, with a default lifetime of 300 seconds. */
  predicate IsFor(c: Claim, req: ClaimRequest, claimId: string, created: Instant) {
    && c.claimId == claimId && c.agentId == req.agentId && c.resourceUri == req.resourceUri
    && c.operation == req.operation && c.intent == req.intent && c.createdAt == created
    && c.ttlSeconds == if req.ttlSeconds == 0 then 300 else req.ttlSeconds
  }

  lemma LiveOneMore(es: seq<Entry>, e: Entry, now: int)
    ensures Live(es + [e], now) == Live(es, now) + if e.deadline >= now then [e.claim] else []
  {
    ConcatLast(es, e);
  }

  /**
   * A granted claim is active, behind those that were, from then until its lifetime is over, and a refused
   * one leaves the log alone.
   */
  lemma GrantedIsActive(
    b: Backend, log: seq<Message>, ns: string, req: ClaimRequest, claimId: string,
    checked: Instant, created: Instant, stored: Instant, later: Instant)
    requires Good(log)
    requires later <= created + (if req.ttlSeconds == 0 then 300 else req.ttlSeconds) * 1_000_000_000
    ensures var c := NewClaim(req, claimId, created);
            var after := ClaimLog(b, log, ns, c, checked, stored);
            if ClaimOutcome(b, log, c, checked).ClaimGranted?
            then Active(Seen(b, after), later) == Active(Seen(b, log), later) + [c] && IsFor(c, req, claimId, created)
            else after == log
  {
    var c := NewClaim(req, claimId, created);
    if ReportFor(b, log, c, checked) == [] {
      GrantedEntries(b, log, ns, c, stored);
      LiveOneMore(Entries(Seen(b, log)), Entry(c, DeadlineIn(Seen(b, log), c)), later);
    }
  }

  // ---------- Releases and transfers ----------

  lemma {:induction false} LiveWithout(es: seq<Entry>, id: string, now: int)
    ensures forall c :: c in Live(Without(es, id), now) <==> c in Live(es, now) && c.claimId != id
    ensures SubList(Live(Without(es, id), now), Live(es, now))
  {
    if es != [] {
      var e, kept := Last(es), Without(Init(es), id);
      LiveWithout(Init(es), id, now);
      LiveOneMore(kept, e, now);
      assert kept + [] == kept && Live(kept, now) + [] == Live(kept, now) && Live(Init(es), now) + [] == Live(Init(es), now);
      SubListConcat(Live(kept, now), Live(Init(es), now), e.claim);
    }
  }

  /** On a well-formed log a release or a transfer makes the claim it names inactive, for good, and no other. */
  lemma EndedIsInactive(b: Backend, log: seq<Message>, ns: string, step: Step, later: Instant)
    requires WellFormed(log) && Good(log) && (step.ReleaseStep? || step.TransferStep?)
    ensures var before, after := Active(Seen(b, log), later), Active(Seen(b, Next(b, ns, log, step)), later);
            && (forall c :: c in after <==> c in before && c.claimId != step.claimId)
            && SubList(after, before)
  {
    var es := Entries(Seen(b, log));
    if step.ReleaseStep? {
      EndEntries(b, log, ns, ReleaseMsg, step.agentId, step.claimId, step.stored);
    } else {
      EndEntries(b, log, ns, TransferMsg, "", step.claimId, step.stored);
    }
    SqlViewIsWellFormed(log);
    if step.claimId == "" || FirstEnd(Seen(b, log), step.claimId).Some? {
      EntryIdsAreOpen(Seen(b, log), step.claimId);
      AbsentId(es, step.claimId, 0);
    }
    LiveWithout(es, step.claimId, later);
  }

  // ---------- What each call writes ----------

  /** The one message of a log's last step. */
  ghost predicate AppendsOne(log: seq<Message>, after: seq<Message>, kind: MessageType, agentId: string, claimId: string, stored: Instant) {
    && |after| == |log| + 1 && log <= after
    && var m := Last(after);
       && m.kind == kind && m.agentId == agentId && m.payload.asRef == Some(claimId) && m.timestamp == stored
       && (log != [] ==> m.offset == Last(log).offset + 1) && (log == [] ==> m.offset == 1)
  }

  /** Releases, transfers, heartbeats and intents each write one message that names the claim; none but a release carries an agent. */
  lemma CallsWriteOneMessage(b: Backend, ns: string, log: seq<Message>, step: Step)
    requires !step.ClaimStep? && !step.SweepStep?
    ensures var after := Next(b, ns, log, step);
            match step
            case ReleaseStep(id, agentId, stored) => AppendsOne(log, after, ReleaseMsg, agentId, id, stored)
            case TransferStep(id, stored) => AppendsOne(log, after, TransferMsg, "", id, stored)
            case HeartbeatStep(id, stored) => AppendsOne(log, after, HeartbeatMsg, "", id, stored)
            case IntentStep(id, intent, stored) =>
              AppendsOne(log, after, IntentMsg, "", id, stored)
              && Last(after).payload.asClaim.Some? && Last(after).payload.asClaim.value.intent == intent
            case _ => true
  {}
}
