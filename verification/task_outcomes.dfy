/** What each request leaves behind, map by map: the stored entry, its artifacts, its history, and nothing else. */
module TaskOutcomes {
  import opened Messages
  import opened ActiveClaims
  import opened Conflicts
  import opened Protocol
  import opened A2ATypes
  import opened Tasks
  import opened TaskProperties
  import opened Grants
  import M = Memory
  import C = Client

  // ---------- Skills ----------

  function AgentOf(req: ClaimRequest, env: Env): string { if req.agentId == "" then env.caller else req.agentId }

  /** A single artifact reporting the claims in the way of a request. */
  ghost predicate ReportsConflicts(
    arts: seq<Artifact>, active: seq<Claim>, agentId: string, uri: string, op: Operation, hasConflict: bool)
  {
    && |arts| == 1 && arts[0].name == "conflict-report" && arts[0].data.Reported?
    && arts[0].data.report.hasConflict == hasConflict
    && ReportsAll(arts[0].data.report.conflicts, active, agentId, uri, op)
  }

  lemma ReportIsAll(log: seq<Message>, c: Claim, checked: Instant)
    ensures var active, report := Active(log, checked), ReportFor(MemoryBackend, log, c, checked);
            && ReportsAll(report, active, c.agentId, c.resourceUri, c.operation)
            && (report == [] <==> forall a :: a in active ==> !InTheWay(a, c.agentId, c.resourceUri, c.operation))
  {
    var active := Active(log, checked);
    FilteringKeepsReport(c, active);
    ReportIsEmptyIff(c, active);
    forall a ensures InTheWay(a, c.agentId, c.resourceUri, c.operation) <==> Blocks(a, c) { InTheWayBlocks(a, c); }
    ReportReportsAll(c, active);
  }

  /** `claim_resource`: granted under the request's agent, or else the caller's, exactly when no active claim is in the way. */
  lemma ClaimSkill(s: M.Store, ns: string, t: TaskView, req: ClaimRequest, env: Env)
    ensures var r, active := Execute(s, ns, t, ClaimResource(req), env), Active(M.LogOf(s, ns), env.checked);
            if forall a :: a in active ==> !InTheWay(a, AgentOf(req, env), req.resourceUri, req.operation) then
              r.error.None? && r.claimId == env.claimId && r.artifacts == [Artifact("claim-result", Granted(env.claimId))]
            else
              && r.error == Some(-32002) && r.claimId == t.claimId && r.store == s
              && ReportsConflicts(r.artifacts, active, AgentOf(req, env), req.resourceUri, req.operation, true)
  {
    ReportIsAll(M.LogOf(s, ns), ClaimFor(req, env), env.checked);
  }

  /** And a granted claim is active, behind those that were, until its lifetime is over. */
  lemma ClaimSkillGrants(s: M.Store, ns: string, t: TaskView, req: ClaimRequest, env: Env, later: Instant)
    requires M.Contiguous(s) && Execute(s, ns, t, ClaimResource(req), env).error.None?
    requires later <= env.created + (if req.ttlSeconds == 0 then 300 else req.ttlSeconds) * 1_000_000_000
    ensures var before, after := M.LogOf(s, ns), M.LogOf(Execute(s, ns, t, ClaimResource(req), env).store, ns);
            exists c :: Active(after, later) == Active(before, later) + [c]
                        && IsFor(c, req.(agentId := AgentOf(req, env)), env.claimId, env.created)
  {
    var asked := req.(agentId := AgentOf(req, env));
    assert ClaimFor(req, env) == NewClaim(asked, env.claimId, env.created);
    assert M.ContiguousAt(s, ns);
    M.ContiguousIsSorted(s, ns);
    C.AppendedMessage(s, ns, ClaimDraft(ClaimFor(req, env)), env.stored);
    GrantedIsActive(MemoryBackend, M.LogOf(s, ns), ns, asked, env.claimId, env.checked, env.created, env.stored, later);
  }

  /** `check_conflict` reports what is in the way of an agent called `_check_`, and changes nothing else. */
  lemma CheckSkill(s: M.Store, ns: string, t: TaskView, uri: string, op: Operation, env: Env)
    ensures var r, active := Execute(s, ns, t, CheckConflictSkill(uri, op), env), Active(M.LogOf(s, ns), env.checked);
            && r.store == s && r.claimId == t.claimId && r.error.None?
            && ReportsConflicts(r.artifacts, active, "_check_", uri, op, exists a :: a in active && InTheWay(a, "_check_", uri, op))
  {
    ReportIsAll(M.LogOf(s, ns), DryRunClaim(uri, op), env.checked);
  }

  /** The other skills: a release leaves the artifacts, a mailbox skill shows its answer, everything else fails and leaves all alone. */
  lemma OtherSkills(s: M.Store, ns: string, t: TaskView, call: SkillCall, env: Env)
    requires !call.ClaimResource? && !call.CheckConflictSkill?
    ensures var r := Execute(s, ns, t, call, env);
            && r.claimId == t.claimId
            && (call.ReleaseResource? ==> r.error.None? && r.artifacts == t.artifacts)
            && (!call.ReleaseResource? ==> r.store == s)
            && (call.MailboxSkill? && call.reply.Some? ==>
                r.error.None? && r.artifacts == [Artifact(call.artifact, MailboxReply(call.reply.value))])
            && (call.NoDataPart? || call.InvalidDataPart? || call.UnknownSkill? || (call.MailboxSkill? && call.reply.None?) ==>
                r.error == Some(-32003) && r.artifacts == t.artifacts)
  {}

  /** No skill touches stored entries, artifacts or history. */
  lemma SkillKeepsTheRest(s: M.Store, ns: string, t: TaskView, call: SkillCall, env: Env)
    ensures var after := Execute(s, ns, t, call, env).store;
            after.tasks == s.tasks && after.artifacts == s.artifacts && after.history == s.history && after.namespaces == s.namespaces
  {}

  // ---------- One entry at a time ----------

  ghost predicate OnlyThisEntry(s: M.Store, s': M.Store, key: string) {
    forall k :: k != key ==>
      && M.ArtifactsOf(s', k) == M.ArtifactsOf(s, k) && M.HistoryOf(s', k) == M.HistoryOf(s, k)
      && (k in s'.tasks <==> k in s.tasks) && (k in s.tasks ==> s'.tasks[k] == s.tasks[k])
  }

  lemma {:induction false} ArtifactsAreAdded(s: M.Store, ns: string, taskId: string, arts: seq<Artifact>)
    ensures var after, key := ArtifactsStored(s, ns, taskId, arts), M.TaskKey(ns, taskId);
            && M.ArtifactsOf(after, key) == M.ArtifactsOf(s, key) + arts
            && (forall k :: k != key ==> M.ArtifactsOf(after, k) == M.ArtifactsOf(s, k))
            && after.tasks == s.tasks && after.history == s.history
  {
    if arts != [] {
      ArtifactsAreAdded(s, ns, taskId, Init(arts));
      assert arts == Init(arts) + [Last(arts)];
    }
  }

  /** The user's message is in the history and the entry is new. */
  lemma AcceptedEntry(s: M.Store, ns: string, req: TaskRequest)
    requires M.TaskKey(ns, req.id) !in s.tasks
    ensures var a, key := Accepted(s, ns, req), M.TaskKey(ns, req.id);
            && a.tasks == s.tasks[key := StoredTask(req.id, req.sessionId, Submitted, "", ns)]
            && a.artifacts == s.artifacts && a.messages == s.messages && a.offsets == s.offsets
            && a.history == s.history[key := M.HistoryOf(s, key) + [HistoryMessage("user", req.text)]]
  {}

  /** What a request leaves, given what it adds to the accepted entry. */
  ghost predicate Leaves(
    s: M.Store, final: M.Store, ns: string, req: TaskRequest, state: TaskState, claimId: string, arts: seq<Artifact>)
  {
    var key := M.TaskKey(ns, req.id);
    && key in final.tasks && final.tasks[key] == StoredTask(req.id, req.sessionId, state, claimId, ns)
    && M.ArtifactsOf(final, key) == M.ArtifactsOf(s, key) + arts
    && M.HistoryOf(final, key) == M.HistoryOf(s, key) + [HistoryMessage("user", req.text)]
    && OnlyThisEntry(s, final, key)
  }

  /** From the accepted store: a store with the same entries, then artifacts. */
  lemma KeptLeaves(s: M.Store, ns: string, req: TaskRequest, ran: M.Store, arts: seq<Artifact>)
    requires M.TaskKey(ns, req.id) !in s.tasks
    requires var a := Accepted(s, ns, req); ran.tasks == a.tasks && ran.artifacts == a.artifacts && ran.history == a.history
    ensures Leaves(s, ArtifactsStored(ran, ns, req.id, arts), ns, req, Submitted, "", arts)
  {
    AcceptedEntry(s, ns, req);
    ArtifactsAreAdded(ran, ns, req.id, arts);
  }

  lemma UpdateLeaves(
    s: M.Store, kept: M.Store, ns: string, req: TaskRequest, state: TaskState, claimId: string, arts: seq<Artifact>, last: TaskView)
    requires Leaves(s, kept, ns, req, state, claimId, arts)
    requires last.id == req.id && last.sessionId == req.sessionId && last.namespace == ns
    ensures Leaves(s, M.TaskUpdated(kept, ns, ToStorage(last)), ns, req, last.state, last.claimId, arts)
  {}

  /** And then perhaps an updated entry. */
  lemma AcceptedLeaves(
    s: M.Store, ns: string, req: TaskRequest, ran: M.Store, arts: seq<Artifact>, last: Option<TaskView>)
    requires M.TaskKey(ns, req.id) !in s.tasks
    requires var a := Accepted(s, ns, req); ran.tasks == a.tasks && ran.artifacts == a.artifacts && ran.history == a.history
    requires last.Some? ==> last.value.id == req.id && last.value.sessionId == req.sessionId && last.value.namespace == ns
    ensures var kept := ArtifactsStored(ran, ns, req.id, arts);
            Leaves(s, if last.Some? then M.TaskUpdated(kept, ns, ToStorage(last.value)) else kept, ns, req,
                   if last.Some? then last.value.state else Submitted, if last.Some? then last.value.claimId else "", arts)
  {
    var kept := ArtifactsStored(ran, ns, req.id, arts);
    KeptLeaves(s, ns, req, ran, arts);
    if last.Some? { UpdateLeaves(s, kept, ns, req, Submitted, "", arts, last.value); }
  }

  // ---------- Sending ----------

  /**
   * After an accepted send the entry is completed or failed according to the skill, with the skill's claim
   * id; the artifacts of a successful skill, and only those, are added in order; the history gains the
   * user's message; and no other entry, artifact or history changes.
   */
  lemma SendLeaves(s: M.Store, ns: string, req: TaskRequest, env: Env)
    requires req.id != "" && M.TaskKey(ns, req.id) !in s.tasks
    ensures var final, r := SendResult(s, ns, req, env), Ran(s, ns, req, env);
            if r.error.None? then Leaves(s, final, ns, req, Completed, r.claimId, r.artifacts)
            else Leaves(s, final, ns, req, Failed, "", [])
  {
    var t := NewTask(req.id, req.sessionId, ns);
    var working, r := Moved(t, Working), Ran(s, ns, req, env);
    var after := working.(claimId := r.claimId, artifacts := r.artifacts);
    SkillKeepsTheRest(Accepted(s, ns, req), ns, working, req.call, env);
    SkillTouchesNoTask(Accepted(s, ns, req), ns, working, req.call, env);
    if r.error.None? {
      AcceptedLeaves(s, ns, req, r.store, r.artifacts, Some(Moved(after, Completed)));
    } else {
      AcceptedLeaves(s, ns, req, r.store, [], Some(Moved(after, Failed)));
    }
  }

  /** A request without an id, or with one already taken, changes nothing. */
  lemma RejectedLeavesAll(s: M.Store, ns: string, req: TaskRequest, env: Env, streams: bool, sch: Schedule)
    requires req.id == "" || M.TaskKey(ns, req.id) in s.tasks
    ensures SendResult(s, ns, req, env) == s && SubscribeResult(streams, sch, s, ns, req, env) == s
  {}

  /** A claim granted to a sent request adds exactly its artifact. */
  lemma GrantLeavesItsArtifact(s: M.Store, ns: string, req: TaskRequest, env: Env)
    requires req.id != "" && M.TaskKey(ns, req.id) !in s.tasks && req.call.ClaimResource?
    requires forall a :: a in Active(M.LogOf(s, ns), env.checked) ==>
               !InTheWay(a, AgentOf(req.call.req, env), req.call.req.resourceUri, req.call.req.operation)
    ensures Leaves(s, SendResult(s, ns, req, env), ns, req, Completed, env.claimId, [Artifact("claim-result", Granted(env.claimId))])
  {
    AcceptedEntry(s, ns, req);
    assert M.LogOf(Accepted(s, ns, req), ns) == M.LogOf(s, ns);
    ClaimSkill(Accepted(s, ns, req), ns, Moved(NewTask(req.id, req.sessionId, ns), Working), req.call.req, env);
    SendLeaves(s, ns, req, env);
  }

  // ---------- Streaming ----------

  /** A send at `point` goes through: the context is still alive, or `select` chooses the channel. */
  predicate Through(sch: Schedule, point: nat) { point < sch.cancelAt || point in sch.lucky }

  /** The store a stream ends in, by where it was cut. */
  lemma SubscribeEndsIn(sch: Schedule, s: M.Store, ns: string, req: TaskRequest, env: Env)
    requires !Rejected(s, ns, req)
    ensures var a, t, r := Accepted(s, ns, req), NewTask(req.id, req.sessionId, ns), Ran(s, ns, req, env);
            var working := Moved(t, Working);
            var after := working.(claimId := r.claimId, artifacts := r.artifacts);
            SubscribeResult(true, sch, s, ns, req, env) ==
            if !Through(sch, 0) then M.TaskUpdated(a, ns, ToStorage(t))
            else if !Through(sch, 1) then a
            else if sch.cancelAt <= 2 then if 2 in sch.lucky then M.TaskUpdated(a, ns, ToStorage(Moved(working, Failed))) else a
            else if r.error.Some? then
              if Through(sch, 3) then M.TaskUpdated(r.store, ns, ToStorage(Moved(after, Failed))) else r.store
            else if r.artifacts != [] && !Through(sch, 3) then r.store
            else
              var kept := ArtifactsStored(r.store, ns, req.id, r.artifacts);
              if Through(sch, 4) && Through(sch, 5) then M.TaskUpdated(kept, ns, ToStorage(Moved(after, Completed))) else kept
  {
    var a, t, r := Accepted(s, ns, req), NewTask(req.id, req.sessionId, ns), Ran(s, ns, req, env);
    var working := Moved(t, Working);
    var after := working.(claimId := r.claimId, artifacts := r.artifacts);
    if !Through(sch, 0) {
      FinalEnds(a, ns, req.id, ErrorEvent(t, SKILL_ERROR));
    } else if !Through(sch, 1) {
      QuietEnds(a, ns, req.id, [StatusEvent(t)]);
    } else if sch.cancelAt <= 2 {
      BegunThenFailed(sch, 2, a, ns, req.id, t, working, Moved(working, Failed), SKILL_ERROR);
    } else if r.error.Some? {
      BegunThenFailed(sch, 3, r.store, ns, req.id, t, working, Moved(after, Failed), r.error.value);
    } else {
      FinishHandled(sch, [StatusEvent(t), StatusEvent(working)], after, r.store, ns, req.id);
    }
  }

  lemma QuietEnds(s: M.Store, ns: string, taskId: string, quiet: seq<TaskEvent>)
    requires Quiet(quiet)
    ensures EventsHandled(s, ns, taskId, quiet) == s
  {
    QuietIsSkipped(s, ns, taskId, quiet, []);
    NothingLeft(s, ns, taskId);
    assert quiet + [] == quiet;
  }

  lemma BegunThenFailed(
    sch: Schedule, point: nat, s: M.Store, ns: string, taskId: string, t: TaskView, working: TaskView, failed: TaskView, code: int)
    ensures EventsHandled(s, ns, taskId, [StatusEvent(t), StatusEvent(working)] + Sent(sch, point, ErrorEvent(failed, code)))
            == if Through(sch, point) then M.TaskUpdated(s, ns, ToStorage(failed)) else s
  {
    var quiet := [StatusEvent(t), StatusEvent(working)];
    QuietIsSkipped(s, ns, taskId, quiet, Sent(sch, point, ErrorEvent(failed, code)));
    FinalEnds(s, ns, taskId, ErrorEvent(failed, code));
    NothingLeft(s, ns, taskId);
  }

  /** The state a streamed entry is left in. */
  function StateLeft(sch: Schedule, r: SkillResult): TaskState {
    if !Through(sch, 0) || !Through(sch, 1) then Submitted
    else if sch.cancelAt <= 2 then if 2 in sch.lucky then Failed else Submitted
    else if r.error.Some? then if Through(sch, 3) then Failed else Submitted
    else if (r.artifacts == [] || Through(sch, 3)) && Through(sch, 4) && Through(sch, 5) then Completed else Submitted
  }

  /**
   * After an accepted stream, for every cancellation: the skill's artifacts are added exactly when the skill
   * ran, succeeded and its artifact event went out; the entry is in the state the last event gives, with the
   * claim id exactly when completed; the history gains the user's message; nothing else changes.
   */
  lemma SubscribeLeaves(sch: Schedule, s: M.Store, ns: string, req: TaskRequest, env: Env)
    requires req.id != "" && M.TaskKey(ns, req.id) !in s.tasks
    ensures var r := Ran(s, ns, req, env);
            Leaves(s, SubscribeResult(true, sch, s, ns, req, env), ns, req, StateLeft(sch, r),
                   if StateLeft(sch, r) == Completed then r.claimId else "",
                   if Through(sch, 0) && Through(sch, 1) && sch.cancelAt > 2 && r.error.None? && Through(sch, 3) then r.artifacts else [])
  {
    var a, t, r := Accepted(s, ns, req), NewTask(req.id, req.sessionId, ns), Ran(s, ns, req, env);
    var working := Moved(t, Working);
    var after := working.(claimId := r.claimId, artifacts := r.artifacts);
    SubscribeEndsIn(sch, s, ns, req, env);
    SkillKeepsTheRest(a, ns, working, req.call, env);
    SkillTouchesNoTask(a, ns, working, req.call, env);
    if !Through(sch, 0) {
      AcceptedLeaves(s, ns, req, a, [], Some(t));
    } else if !Through(sch, 1) {
      AcceptedLeaves(s, ns, req, a, [], None);
    } else if sch.cancelAt <= 2 {
      AcceptedLeaves(s, ns, req, a, [], if 2 in sch.lucky then Some(Moved(working, Failed)) else None);
    } else if r.error.Some? {
      AcceptedLeaves(s, ns, req, r.store, [], if Through(sch, 3) then Some(Moved(after, Failed)) else None);
    } else if r.artifacts != [] && !Through(sch, 3) {
      AcceptedLeaves(s, ns, req, r.store, [], None);
    } else {
      AcceptedLeaves(s, ns, req, r.store, r.artifacts, if Through(sch, 4) && Through(sch, 5) then Some(Moved(after, Completed)) else None);
    }
  }

  /** A writer that cannot stream leaves the accepted entry. */
  lemma NoStreamLeaves(sch: Schedule, s: M.Store, ns: string, req: TaskRequest, env: Env)
    requires req.id != "" && M.TaskKey(ns, req.id) !in s.tasks
    ensures Leaves(s, SubscribeResult(false, sch, s, ns, req, env), ns, req, Submitted, "", [])
  {
    AcceptedLeaves(s, ns, req, Accepted(s, ns, req), [], None);
  }

  // ---------- Cancelling ----------

  /**
   * Cancelling an entry that is submitted, working or waiting for input stores it as canceled and leaves
   * all other entries, all artifacts and all history alone. It is stored under the id the entry itself
   * carries; entries that no request of this namespace made may carry another.
   */
  lemma CancelLeaves(s: M.Store, ns: string, taskId: string, at: Instant)
    requires taskId != "" && M.TaskKey(ns, taskId) in s.tasks
    requires s.tasks[M.TaskKey(ns, taskId)].state in [Submitted, Working, InputRequired]
    ensures var st, final := s.tasks[M.TaskKey(ns, taskId)], CancelResult(s, ns, taskId, at);
            && final.artifacts == s.artifacts && final.history == s.history
            && final.tasks == if M.TaskKey(ns, st.id) in s.tasks then s.tasks[M.TaskKey(ns, st.id) := st.(state := Canceled)] else s.tasks
  {
    var st := s.tasks[M.TaskKey(ns, taskId)];
    assert CanMove(st.state, Canceled) && !Terminal(st.state);
    assert ToStorage(Moved(FromStorage(st), Canceled)) == st.(state := Canceled);
  }

  /** Storing a task and reading it back loses nothing but its artifacts, which are stored apart. */
  lemma StorageRoundTrip(t: TaskView, st: StoredTask)
    ensures FromStorage(ToStorage(t)) == t.(artifacts := []) && ToStorage(FromStorage(st)) == st
    ensures ToStorage(t) == StoredTask(t.id, t.sessionId, t.state, t.claimId, t.namespace)
  {}

  /** An entry under its own id is canceled once; the second time nothing changes. */
  lemma CancelledStaysCancelled(s: M.Store, ns: string, taskId: string, at: Instant, later: Instant)
    requires taskId != "" && M.TaskKey(ns, taskId) in s.tasks && s.tasks[M.TaskKey(ns, taskId)].id == taskId
    requires s.tasks[M.TaskKey(ns, taskId)].state in [Submitted, Working, InputRequired]
    ensures var final := CancelResult(s, ns, taskId, at);
            && final.tasks == s.tasks[M.TaskKey(ns, taskId) := s.tasks[M.TaskKey(ns, taskId)].(state := Canceled)]
            && CancelResult(final, ns, taskId, later) == final
  {
    CancelLeaves(s, ns, taskId, at);
  }

  /** Nothing changes for a missing id or entry, or for a finished entry. */
  lemma CancelRefused(s: M.Store, ns: string, taskId: string, at: Instant)
    requires taskId == "" || M.TaskKey(ns, taskId) !in s.tasks
             || s.tasks[M.TaskKey(ns, taskId)].state in [Completed, Failed, Canceled]
    ensures CancelResult(s, ns, taskId, at) == s
  {}

  /** The organisation cancels `repo/t` and finds the repository's entry `t`; what it updates is its own entry `t`, if it has one. */
  lemma CancelMissesSharedKey(s: M.Store, at: Instant)
    requires M.TaskKey("org/repo", "t") in s.tasks && M.TaskKey("org", "t") !in s.tasks
    requires s.tasks[M.TaskKey("org/repo", "t")] == StoredTask("t", "", Submitted, "", "org/repo")
    ensures CancelResult(s, "org", "repo/t", at).tasks == s.tasks
  {
    assert M.TaskKey("org", "repo/t") == M.TaskKey("org/repo", "t") by {
      assert "org" + "/" == "org/repo"[..4] && "repo" == "org/repo"[4..] == M.Inside("org", "org/repo");
      M.KeysMeetIff("org/repo", "t", "org", "repo/t");
    }
  }

  // ---------- What a stream shows ----------

  /** The stream of an execution that nobody cancels, by what its skill comes to. */
  function FullStream(t: TaskView, r: SkillResult): seq<TaskEvent> {
    var working := t.(state := Working);
    var after := working.(claimId := r.claimId, artifacts := r.artifacts);
    [StatusEvent(t), StatusEvent(working)] + Rest(after, r)
  }

  function Rest(after: TaskView, r: SkillResult): seq<TaskEvent> {
    if r.error.Some? then [ErrorEvent(after.(state := Failed), r.error.value)]
    else
      (if r.artifacts == [] then [] else [ArtifactEvent(after, r.artifacts)])
      + [StatusEvent(after.(state := Completed)), DoneEvent(after.(state := Completed))]
  }

  /** The points at which the events of the full stream are sent. */
  function PointsOf(r: SkillResult): seq<nat> {
    [0, 1] + if r.error.Some? then [3] else (if r.artifacts == [] then [] else [3]) + [4, 5]
  }

  /** `events` is the full stream cut short, or a beginning of it with one cancellation error. */
  ghost predicate CutFrom(events: seq<TaskEvent>, full: seq<TaskEvent>) {
    events <= full || (|events| > 0 && Init(events) <= full && Last(events).ErrorEvent? && Last(events).code == -32003)
  }

  lemma FinishIsCut(sch: Schedule, begun: seq<TaskEvent>, after: TaskView, r: SkillResult)
    requires |begun| == 2 && after.state == Working && after.artifacts == r.artifacts && r.error.None?
    ensures var events, full := Finish(sch, begun, after, r.store).events, begun + Rest(after, r);
            && events <= full
            && forall k :: 0 <= k < |full| && PointsOf(r)[k] < sch.cancelAt ==> k < |events|
  {}

  lemma SkillRunIsCut(sch: Schedule, t: TaskView, s: M.Store, ns: string, call: SkillCall, env: Env)
    requires t.state == Submitted && sch.cancelAt > 2
    ensures var r, working := Execute(s, ns, Moved(t, Working), call, env), Moved(t, Working);
            var events := SkillRun(sch, [StatusEvent(t), StatusEvent(working)], working, s, ns, call, env).events;
            && events <= FullStream(t, r)
            && forall k :: 0 <= k < |FullStream(t, r)| && PointsOf(r)[k] < sch.cancelAt ==> k < |events|
  {
    var r, working := Execute(s, ns, Moved(t, Working), call, env), Moved(t, Working);
    if r.error.None? {
      FinishIsCut(sch, [StatusEvent(t), StatusEvent(working)], working.(claimId := r.claimId, artifacts := r.artifacts), r);
    }
  }

  /** The stream of an execution whose context ends before the skill. */
  lemma EarlyStream(sch: Schedule, t: TaskView, s: M.Store, ns: string, call: SkillCall, env: Env)
    requires t.state == Submitted && sch.cancelAt <= 2
    ensures var working := t.(state := Working);
            Executed(sch, t, s, ns, call, env).events ==
            if !Through(sch, 0) then [ErrorEvent(t, -32003)]
            else if !Through(sch, 1) then [StatusEvent(t)]
            else if 2 in sch.lucky then [StatusEvent(t), StatusEvent(working), ErrorEvent(working.(state := Failed), -32003)]
            else [StatusEvent(t), StatusEvent(working)]
  {}

  lemma EarlyCut(events: seq<TaskEvent>, full: seq<TaskEvent>, n: nat)
    requires n <= |full| && full[..n] <= events && |events| <= n + 1
    requires |events| == n + 1 ==> Last(events).ErrorEvent? && Last(events).code == -32003
    ensures CutFrom(events, full)
  {
    if |events| == n { assert events == full[..n]; } else { assert Init(events) == full[..n]; }
  }

  /**
   * A new task's stream: everything sent before the context ends arrives, and what is shown is the full
   * stream cut short, or its first events with one cancellation error behind them.
   */
  lemma StreamIsCut(sch: Schedule, t: TaskView, s: M.Store, ns: string, call: SkillCall, env: Env)
    requires t.state == Submitted
    ensures var events, r := Executed(sch, t, s, ns, call, env).events, Execute(s, ns, Moved(t, Working), call, env);
            && CutFrom(events, FullStream(t, r))
            && forall k :: 0 <= k < |FullStream(t, r)| && PointsOf(r)[k] < sch.cancelAt ==>
                 k < |events| && events[k] == FullStream(t, r)[k]
  {
    if sch.cancelAt > 2 {
      SkillRunIsCut(sch, t, s, ns, call, env);
    } else {
      EarlyStreamIsCut(sch, t, s, ns, call, env);
    }
  }

  lemma EarlyStreamIsCut(sch: Schedule, t: TaskView, s: M.Store, ns: string, call: SkillCall, env: Env)
    requires t.state == Submitted && sch.cancelAt <= 2
    ensures var events, r := Executed(sch, t, s, ns, call, env).events, Execute(s, ns, Moved(t, Working), call, env);
            && CutFrom(events, FullStream(t, r))
            && forall k :: 0 <= k < |FullStream(t, r)| && PointsOf(r)[k] < sch.cancelAt ==>
                 k < |events| && events[k] == FullStream(t, r)[k]
  {
    var events, r := Executed(sch, t, s, ns, call, env).events, Execute(s, ns, Moved(t, Working), call, env);
    EarlyStream(sch, t, s, ns, call, env);
    EarlyCut(events, FullStream(t, r), if !Through(sch, 0) then 0 else if !Through(sch, 1) then 1 else 2);
  }

  lemma UncancelledStreamIsFull(sch: Schedule, t: TaskView, s: M.Store, ns: string, call: SkillCall, env: Env)
    requires t.state == Submitted && Uncancelled(sch)
    ensures Executed(sch, t, s, ns, call, env).events == FullStream(t, Execute(s, ns, Moved(t, Working), call, env))
  {
    SkillRunIsCut(sch, t, s, ns, call, env);
    var r := Execute(s, ns, Moved(t, Working), call, env);
    assert PointsOf(r)[|FullStream(t, r)| - 1] < sch.cancelAt;
  }
}
