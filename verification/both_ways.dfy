/** Runs whose claims can only conflict mutually: nobody ever blocks anybody, in either direction. */
module BothWays {
  import opened Messages
  import opened ActiveClaims
  import opened Conflicts
  import opened Scans
  import opened Queries
  import opened Views
  import opened Protocol
  import opened Heartbeats

  // ---------- Pairs that are not lopsided ----------

  /** If the two claims can meet on a resource, neither their patterns nor their operations make the conflict one-sided. */
  predicate EvenPair(a: Claim, b: Claim) {
    && !LopsidedResources(a.resourceUri, b.resourceUri)
    && (ResourceMatches(a.resourceUri, b.resourceUri) ==>
          !LopsidedOperations(a.operation, b.operation) && !LopsidedOperations(b.operation, a.operation))
  }

  lemma EvenPairsBlockMutually(a: Claim, b: Claim)
    requires EvenPair(a, b)
    ensures Blocks(a, b) <==> Blocks(b, a)
  {
    ResourceSymmetry(a.resourceUri, b.resourceUri);
    OperationSymmetry(a.operation, b.operation);
  }

  predicate Concrete(c: Claim) { '*' !in c.resourceUri && !c.operation.OtherOperation? }

  /** The one pair of operations, on one resource, that conflicts in one direction only. */
  predicate ReadMeetsRefactor(a: Claim, b: Claim) {
    a.resourceUri == b.resourceUri
    && ((a.operation.Read? && b.operation.Refactor?) || (a.operation.Refactor? && b.operation.Read?))
  }

  /** Concrete URIs match only themselves, so that pair is all there is. */
  lemma ConcreteIsEven(a: Claim, b: Claim)
    requires Concrete(a) && Concrete(b)
    ensures EvenPair(a, b) <==> !ReadMeetsRefactor(a, b)
  {
    TreesHaveStars(a.resourceUri);
    TreesHaveStars(b.resourceUri);
  }

  // ---------- The claims of a run ----------

  /** Every claim message of the log carries a claim of the pool. */
  ghost predicate Within(log: seq<Message>, pool: set<Claim>) {
    forall m :: m in log && Claims(m) ==> ClaimOf(m) in pool
  }

  /** So does every claim the run asks for. */
  ghost predicate RequestsWithin(steps: seq<Step>, pool: set<Claim>) {
    forall step :: step in steps && step.ClaimStep? ==> NewClaim(step.req, step.claimId, step.created) in pool
  }

  lemma StepStaysWithin(b: Backend, ns: string, log: seq<Message>, step: Step, pool: set<Claim>)
    requires Within(log, pool) && RequestsWithin([step], pool)
    ensures Within(Next(b, ns, log, step), pool)
  {
    assert step in [step];
    if step.SweepStep? { SweptMembers(log, step.before); }
  }

  lemma SeenStaysWithin(b: Backend, log: seq<Message>, pool: set<Claim>)
    requires Good(log) && Within(log, pool)
    ensures Within(Seen(b, log), pool)
  {
    MatchingIsOrdered(log, ByKinds(SQL_KINDS));
  }

  lemma ActiveIsWithin(log: seq<Message>, now: int, pool: set<Claim>)
    requires Within(log, pool)
    ensures forall c :: c in Active(log, now) ==> c in pool
  {
    LiveMembers(Entries(log), now);
    forall e | e in Entries(log) ensures e.claim in pool {
      ScanOrigin(log, log, e);
    }
  }

  // ---------- Runs ----------

  ghost predicate EvenPool(pool: set<Claim>) { forall x, y :: x in pool && y in pool ==> EvenPair(x, y) }

  /** No active claim blocks another, earlier or later. */
  ghost predicate FreeBothWays(b: Backend, s: State) {
    var active := Active(Seen(b, s.log), s.clock);
    forall i, j :: 0 <= i < |active| && 0 <= j < |active| && i != j ==> !Blocks(active[i], active[j])
  }

  ghost predicate FreeBothWaysThroughout(b: Backend, ns: string, s: State, steps: seq<Step>)
    decreases |steps|
  {
    FreeBothWays(b, s) && (steps != [] ==> FreeBothWaysThroughout(b, ns, After(b, ns, s, steps[0]), steps[1..]))
  }

  lemma SafeBothWays(b: Backend, s: State, pool: set<Claim>)
    requires Good(s.log) && Within(s.log, pool) && EvenPool(pool)
    ensures SafeState(b, s) <==> FreeBothWays(b, s)
  {
    var active := Active(Seen(b, s.log), s.clock);
    SeenStaysWithin(b, s.log, pool);
    ActiveIsWithin(Seen(b, s.log), s.clock, pool);
    forall i, j | 0 <= i < |active| && 0 <= j < |active|
      ensures Blocks(active[i], active[j]) <==> Blocks(active[j], active[i])
    {
      assert active[i] in active && active[j] in active;
      EvenPairsBlockMutually(active[i], active[j]);
    }
  }

  /** As long as all claims in play are pairwise even, being safe at every point is being free of conflict both ways. */
  lemma {:induction false} SafeRunsAreFreeBothWays(b: Backend, ns: string, s: State, steps: seq<Step>, pool: set<Claim>)
    requires Good(s.log) && Within(s.log, pool) && RequestsWithin(steps, pool) && EvenPool(pool)
    ensures SafeThroughout(b, ns, s, steps) <==> FreeBothWaysThroughout(b, ns, s, steps)
    decreases |steps|
  {
    SafeBothWays(b, s, pool);
    if steps != [] {
      assert steps[0] in steps;
      StepStaysWithin(b, ns, s.log, steps[0], pool);
      NextIsGood(b, ns, s.log, steps[0]);
      SafeRunsAreFreeBothWays(b, ns, After(b, ns, s, steps[0]), steps[1..], pool);
    }
  }

  /** Concrete URIs, the five operations, and no resource both read and refactored. */
  ghost predicate ConcretePool(pool: set<Claim>) {
    && (forall c :: c in pool ==> Concrete(c))
    && forall x, y :: x in pool && y in pool ==> !ReadMeetsRefactor(x, y)
  }

  lemma ConcretePoolIsEven(pool: set<Claim>)
    requires ConcretePool(pool)
    ensures EvenPool(pool)
  {
    forall x, y | x in pool && y in pool ensures EvenPair(x, y) { ConcreteIsEven(x, y); }
  }

  /** Over a SQL provider, no run on concrete resources ever has an active claim that blocks another, in either direction. */
  lemma SqlRunsAreSafeBothWays(ns: string, s: State, steps: seq<Step>, pool: set<Claim>)
    requires Good(s.log) && SafeState(SqlBackend, s) && LegalRun(SqlBackend, ns, s, steps)
    requires Within(s.log, pool) && RequestsWithin(steps, pool) && ConcretePool(pool)
    ensures FreeBothWaysThroughout(SqlBackend, ns, s, steps)
  {
    ConcretePoolIsEven(pool);
    SqlRunsAreSafe(ns, s, steps);
    SafeRunsAreFreeBothWays(SqlBackend, ns, s, steps, pool);
  }

  /** Over the memory provider the same holds of a disciplined run exactly when its heartbeats are harmless. */
  lemma MemoryRunsAreSafeBothWaysIff(ns: string, s: State, steps: seq<Step>, pool: set<Claim>)
    requires WellFormed(s.log) && Good(s.log) && Tracked(s) && "" !in s.used && SafeState(MemoryBackend, s)
    requires LegalRun(MemoryBackend, ns, s, steps) && DisciplinedRun(MemoryBackend, ns, s, steps)
    requires Within(s.log, pool) && RequestsWithin(steps, pool) && ConcretePool(pool)
    ensures FreeBothWaysThroughout(MemoryBackend, ns, s, steps) <==> HarmlessThroughout(ns, s, steps)
  {
    ConcretePoolIsEven(pool);
    MemoryRunsAreSafeIff(ns, s, steps);
    SafeRunsAreFreeBothWays(MemoryBackend, ns, s, steps, pool);
  }
}
