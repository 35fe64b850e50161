/** pkg/hearsay/client.go over either provider; each call refines one step of the protocol. */
module Client {
  import opened Messages
  import opened ActiveClaims
  import opened Conflicts
  import opened Queries
  import opened Protocol
  import Memory
  import Sqlite

  /** The `Provider` interface, closed over the two providers modelled here. */
  datatype Provider = MemoryProvider(mem: Memory.Provider) | SqliteProvider(sql: Sqlite.Provider) {

    ghost function Objects(): set<object> {
      match this
      case MemoryProvider(mem) => {mem}
      case SqliteProvider(sql) => {sql}
    }

    function Kind(): Backend { if MemoryProvider? then MemoryBackend else SqlBackend }

    ghost predicate Valid()
      reads Objects()
    {
      match this
      case MemoryProvider(mem) => mem.Valid()
      case SqliteProvider(sql) => sql.Valid()
    }

    ghost function LogAt(ns: string): seq<Message>
      reads Objects()
    {
      match this
      case MemoryProvider(mem) => Memory.LogOf(mem.Contents(), ns)
      case SqliteProvider(sql) => sql.Log(ns)
    }

    /** Every valid provider's log meets what the theorems about runs ask of it. */
    lemma LogIsGood(ns: string)
      requires Valid()
      ensures Good(LogAt(ns))
    {
      match this
      case MemoryProvider(mem) =>
        assert Memory.ContiguousAt(mem.Contents(), ns);
        Memory.ContiguousIsSorted(mem.Contents(), ns);
      case SqliteProvider(sql) => Sqlite.OrderedIsSorted(sql.Rows(ns));
    }

    method ActiveClaims(ns: string, pattern: string, now: Instant) returns (result: seq<Claim>)
      requires Valid()
      ensures result == Selected(Active(Seen(Kind(), LogAt(ns)), now), pattern)
    {
      match this
      case MemoryProvider(mem) => result := mem.ActiveClaims(ns, pattern, now);
      case SqliteProvider(sql) => result := sql.ActiveClaims(ns, pattern, now);
    }

    method GetAgentState(ns: string, agentId: string, now: Instant) returns (state: AgentState)
      requires Valid()
      ensures state == StateOf(LogAt(ns), agentId, now)
    {
      match this
      case MemoryProvider(mem) => state := mem.GetAgentState(ns, agentId, now);
      case SqliteProvider(sql) => state := sql.GetAgentState(ns, agentId, now);
    }

    /** Stores one message; nothing but this namespace's log changes. */
    method Append(ns: string, draft: Message, at: Instant)
      requires Valid() && IsZero(draft.timestamp)
      modifies Objects()
      ensures Valid()
      ensures LogAt(ns) == Protocol.Store(old(LogAt(ns)), ns, draft, at)
      ensures forall other :: other != ns ==> LogAt(other) == old(LogAt(other))
      ensures MemoryProvider? ==> mem.Contents() == Memory.Appended(old(mem.Contents()), ns, draft, at)
    {
      match this
      case MemoryProvider(mem) =>
        AppendedMessage(mem.Contents(), ns, draft, at);
        ghost var before := mem.Contents();
        mem.Append(ns, [draft], [at]);
        assert Init([draft]) == [] && Init([at]) == [];
        assert mem.Contents() == Memory.Appended(before, ns, draft, at);
      case SqliteProvider(sql) =>
        AppendedRow(sql.Rows(ns), ns, draft, at);
        sql.Append(ns, [draft], [at]);
        assert sql.Rows(ns) == Sqlite.Inserted(old(sql.Rows(ns)), ns, Sqlite.Stamped([draft], [at]));
        assert forall other :: other != ns ==> sql.Rows(other) == old(sql.Rows(other));
    }

    method ReleaseExpired(ns: string, before: Instant)
      requires Valid()
      modifies Objects()
      ensures Valid()
      ensures LogAt(ns) == Next(Kind(), ns, old(LogAt(ns)), SweepStep(before, before))
      ensures forall other :: other != ns ==> LogAt(other) == old(LogAt(other))
    {
      match this
      case MemoryProvider(mem) => mem.ReleaseExpired(ns, before);
      case SqliteProvider(sql) =>
        sql.ReleaseExpired(ns, before);
        assert forall other :: other != ns ==> sql.Rows(other) == old(sql.Rows(other));
    }
  }

  /** The log of any valid SQL provider can be the start of a run: from there on every run is safe. */
  lemma RunsOverProviderAreSafe(provider: Provider, ns: string, s: State, steps: seq<Step>)
    requires provider.Valid() && provider.SqliteProvider? && s.log == provider.LogAt(ns)
    requires SafeState(SqlBackend, s) && LegalRun(SqlBackend, ns, s, steps)
    ensures SafeThroughout(SqlBackend, ns, s, steps)
  {
    provider.LogIsGood(ns);
    SqlRunsAreSafe(ns, s, steps);
  }

  lemma AppendedMessage(s: Memory.Store, ns: string, draft: Message, at: Instant)
    requires Memory.Contiguous(s)
    ensures Memory.LogOf(Memory.Appended(s, ns, draft, at), ns) == Protocol.Store(Memory.LogOf(s, ns), ns, draft, at)
    ensures forall other :: other != ns ==> Memory.LogOf(Memory.Appended(s, ns, draft, at), other) == Memory.LogOf(s, other)
  {
    assert Memory.ContiguousAt(s, ns);
    var log := Memory.LogOf(s, ns);
    assert log != [] ==> Last(log) == log[|log| - 1];
  }

  lemma AppendedRow(rows: seq<Sqlite.Row>, ns: string, draft: Message, at: Instant)
    requires Sqlite.Ordered(rows) && IsZero(draft.timestamp)
    ensures Sqlite.MessagesOf(Sqlite.Inserted(rows, ns, Sqlite.Stamped([draft], [at])))
            == Protocol.Store(Sqlite.MessagesOf(rows), ns, draft, at)
  {
    Sqlite.InsertedOne(rows, ns, draft, at);
    Sqlite.MaxOfOrdered(rows);
    Sqlite.MessagesFacts(rows);
    if rows != [] {
      assert Last(rows) == rows[|rows| - 1];
      assert Last(Sqlite.MessagesOf(rows)) == Last(rows).msg;
    }
  }

  datatype ClaimResult = ClaimGranted(claimId: string) | ClaimRefused(claimId: string, report: ConflictReport)

  /** Granted when the report is empty, otherwise refused with the report. */
  function ClaimOutcome(b: Backend, log: seq<Message>, c: Messages.Claim, checked: Instant): ClaimResult {
    var conflicts := ReportFor(b, log, c, checked);
    if conflicts == [] then ClaimGranted(c.claimId) else ClaimRefused(c.claimId, ConflictReport(true, conflicts))
  }

  class Client {
    const provider: Provider
    const namespace: string

    constructor (provider: Provider, namespace: string)
      ensures this.provider == provider && this.namespace == namespace
    {
      this.provider := provider;
      this.namespace := namespace;
    }

    /** What `Claim` and `CheckConflict` both start with: the claim against the active claims of its own URI. */
    method Check(claim: Messages.Claim, now: Instant) returns (report: ConflictReport)
      requires provider.Valid()
      ensures report.conflicts == ReportFor(provider.Kind(), old(provider.LogAt(namespace)), claim, now)
      ensures report.hasConflict <==> report.conflicts != []
    {
      ghost var log := provider.LogAt(namespace);
      var active := provider.ActiveClaims(namespace, claim.resourceUri, now);
      assert provider.LogAt(namespace) == log;
      report := CheckConflict(claim, active);
    }

    /** `claimId` is what `generateClaimID` returns; the clock is read at the three moments of the step. */
    method Claim(req: ClaimRequest, claimId: string, checked: Instant, created: Instant, stored: Instant)
      returns (result: ClaimResult)
      requires provider.Valid()
      modifies provider.Objects()
      ensures provider.Valid()
      ensures result == ClaimOutcome(provider.Kind(), old(provider.LogAt(namespace)), NewClaim(req, claimId, created), checked)
      ensures provider.LogAt(namespace)
              == ClaimLog(provider.Kind(), old(provider.LogAt(namespace)), namespace, NewClaim(req, claimId, created), checked, stored)
      ensures provider.MemoryProvider? ==>
                provider.mem.Contents()
                == if result.ClaimGranted?
                   then Memory.Appended(old(provider.mem.Contents()), namespace, ClaimDraft(NewClaim(req, claimId, created)), stored)
                   else old(provider.mem.Contents())
    {
      var ttl := req.ttlSeconds;
      if ttl == 0 { ttl := 300; }
      var claim := Messages.Claim(claimId, req.agentId, req.resourceUri, req.operation, req.intent, ttl, created);
      assert claim == NewClaim(req, claimId, created);
      ghost var log := provider.LogAt(namespace);
      var report := Check(claim, checked);
      assert provider.LogAt(namespace) == log;
      if report.hasConflict {
        result := ClaimRefused(claimId, report);
      } else {
        var draft := Draft(ClaimMsg, req.agentId, Payload(Some(claim), Some(claimId)));
        assert draft == ClaimDraft(claim);
        provider.Append(namespace, draft, stored);
        result := ClaimGranted(claimId);
      }
    }

    /** `Release`, `Transfer`, `Heartbeat` and `UpdateIntent` each append one message that carries no agent. */
    method AppendRef(kind: MessageType, claimId: string, intent: string, stored: Instant)
      requires provider.Valid()
      modifies provider.Objects()
      ensures provider.Valid()
      ensures provider.LogAt(namespace)
              == Protocol.Store(old(provider.LogAt(namespace)), namespace, RefDraft(kind, "", claimId, intent), stored)
      ensures provider.MemoryProvider? ==>
                provider.mem.Contents() == Memory.Appended(old(provider.mem.Contents()), namespace, RefDraft(kind, "", claimId, intent), stored)
    {
      provider.Append(namespace, RefDraft(kind, "", claimId, intent), stored);
    }

    method Release(claimId: string, stored: Instant)
      requires provider.Valid()
      modifies provider.Objects()
      ensures provider.Valid()
      ensures provider.LogAt(namespace)
              == Next(provider.Kind(), namespace, old(provider.LogAt(namespace)), ReleaseStep(claimId, "", stored))
      ensures provider.MemoryProvider? ==>
                provider.mem.Contents()
                == Memory.Appended(old(provider.mem.Contents()), namespace, RefDraft(ReleaseMsg, "", claimId), stored)
    {
      AppendRef(ReleaseMsg, claimId, "", stored);
    }

    method Transfer(claimId: string, toAgentId: string, stored: Instant)
      requires provider.Valid()
      modifies provider.Objects()
      ensures provider.Valid()
      ensures provider.LogAt(namespace)
              == Next(provider.Kind(), namespace, old(provider.LogAt(namespace)), TransferStep(claimId, stored))
    {
      AppendRef(TransferMsg, claimId, "", stored);
    }

    method Heartbeat(claimId: string, stored: Instant)
      requires provider.Valid()
      modifies provider.Objects()
      ensures provider.Valid()
      ensures provider.LogAt(namespace)
              == Next(provider.Kind(), namespace, old(provider.LogAt(namespace)), HeartbeatStep(claimId, stored))
    {
      AppendRef(HeartbeatMsg, claimId, "", stored);
    }

    method UpdateIntent(claimId: string, intent: string, stored: Instant)
      requires provider.Valid()
      modifies provider.Objects()
      ensures provider.Valid()
      ensures provider.LogAt(namespace)
              == Next(provider.Kind(), namespace, old(provider.LogAt(namespace)), IntentStep(claimId, intent, stored))
    {
      AppendRef(IntentMsg, claimId, intent, stored);
    }

    method DryRun(resourceUri: string, op: Operation, now: Instant) returns (report: ConflictReport)
      requires provider.Valid()
      ensures report.conflicts == ReportFor(provider.Kind(), old(provider.LogAt(namespace)), DryRunClaim(resourceUri, op), now)
      ensures report.hasConflict <==> report.conflicts != []
    {
      report := Check(DryRunClaim(resourceUri, op), now);
    }

    /** Every claim message the query returns that decodes, active or not, in log order. */
    method QueryClaims(opts: QueryOpts) returns (claims: seq<Messages.Claim>)
      requires provider.Valid()
      ensures claims == AllClaims(Limited(provider.LogAt(namespace), opts))
    {
      var msgs: seq<Message>;
      match provider {
        case MemoryProvider(mem) => msgs := mem.Query(namespace, opts);
        case SqliteProvider(sql) => msgs := sql.Query(namespace, opts);
      }
      claims := [];
      for i := 0 to |msgs|
        invariant claims == AllClaims(msgs[..i])
      {
        assert Init(msgs[..i + 1]) == msgs[..i] && Last(msgs[..i + 1]) == msgs[i];
        if msgs[i].kind.ClaimMsg? {
          if msgs[i].payload.asClaim.Some? {
            claims := claims + [msgs[i].payload.asClaim.value];
          }
        }
      }
      assert msgs[..|msgs|] == msgs;
    }
  }

  function AllClaims(msgs: seq<Message>): seq<Messages.Claim> {
    if msgs == [] then []
    else AllClaims(Init(msgs)) + if Claims(Last(msgs)) then [ClaimOf(Last(msgs))] else []
  }

  /** What `QueryClaims` lists: every claim a queried claim message decodes to. */
  lemma {:induction false} AllClaimsAre(msgs: seq<Message>)
    ensures forall c :: c in AllClaims(msgs) <==> exists m :: m in msgs && m.kind == ClaimMsg && m.payload.asClaim == Some(c)
  {
    if msgs != [] {
      var m := Last(msgs);
      AllClaimsAre(Init(msgs));
      assert msgs == Init(msgs) + [m] && m in msgs;
      forall c ensures c in AllClaims(msgs) <==> exists x :: x in msgs && x.kind == ClaimMsg && x.payload.asClaim == Some(c) {
        assert c in AllClaims(msgs) <==> c in AllClaims(Init(msgs)) || (m.kind == ClaimMsg && m.payload.asClaim == Some(c));
      }
    }
  }

  /** In the order of their messages. */
  lemma {:induction false} AllClaimsConcat(msgs: seq<Message>, more: seq<Message>)
    ensures AllClaims(msgs + more) == AllClaims(msgs) + AllClaims(more)
  {
    if more == [] {
      assert msgs + more == msgs;
    } else {
      AllClaimsConcat(msgs, Init(more));
      assert Init(msgs + more) == msgs + Init(more) && Last(msgs + more) == Last(more);
    }
  }
}
