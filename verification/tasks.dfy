/** internal/a2a: task execution as functions of the store, and what holds of every execution. */
module Tasks {
  import opened Messages
  import opened Conflicts
  import opened Protocol
  import opened A2ATypes
  import M = Memory

  /** A snapshot of a `Task`. */
  datatype TaskView = TaskView(
    id: string, sessionId: string, namespace: string, state: TaskState, claimId: string, artifacts: seq<Artifact>)

  function NewTask(id: string, sessionId: string, ns: string): TaskView {
    TaskView(id, sessionId, ns, Submitted, "", [])
  }

  function ToStorage(t: TaskView): StoredTask { StoredTask(t.id, t.sessionId, t.state, t.claimId, t.namespace) }

  /** A stored task comes back without its artifacts, which are stored apart. */
  function FromStorage(st: StoredTask): TaskView {
    TaskView(st.id, st.sessionId, st.namespace, st.state, st.claimId, [])
  }

  /** `Transition`: an impossible move leaves the task as it was. */
  function Moved(t: TaskView, to: TaskState): TaskView { if CanMove(t.state, to) then t.(state := to) else t }

  // ---------- Skills ----------

  /** The decoded data part of a message. What the mailbox answers, if it does, is an input of the model. */
  datatype SkillCall =
    | NoDataPart
    | InvalidDataPart
    | ClaimResource(req: ClaimRequest)
    | ReleaseResource(claimId: string)
    | CheckConflictSkill(resourceUri: string, operation: Operation)
    | MailboxSkill(artifact: string, reply: Option<string>)
    | UnknownSkill(skillId: string)

  /** What an execution reads from its surroundings: the caller's authenticated name, the next claim id, the clock. */
  datatype Env = Env(caller: string, claimId: string, checked: Instant, created: Instant, stored: Instant)

  const SKILL_ERROR := -32003
  const CONFLICT_ERROR := -32002

  /** The store, and the task's claim id and artifacts, after `executeSkill`. */
  datatype SkillResult = SkillResult(store: M.Store, claimId: string, artifacts: seq<Artifact>, error: Option<int>)

  function ClaimFor(req: ClaimRequest, env: Env): Claim {
    NewClaim(if req.agentId == "" then req.(agentId := env.caller) else req, env.claimId, env.created)
  }

  function Execute(s: M.Store, ns: string, t: TaskView, call: SkillCall, env: Env): SkillResult {
    match call
    case ClaimResource(req) =>
      var c := ClaimFor(req, env);
      var conflicts := ReportFor(MemoryBackend, M.LogOf(s, ns), c, env.checked);
      if conflicts == []
      then SkillResult(M.Appended(s, ns, ClaimDraft(c), env.stored), env.claimId,
                       [Artifact("claim-result", Granted(env.claimId))], None)
      else SkillResult(s, t.claimId, [Artifact("conflict-report", Reported(ConflictReport(true, conflicts)))],
                       Some(CONFLICT_ERROR))
    case ReleaseResource(id) =>
      SkillResult(M.Appended(s, ns, RefDraft(ReleaseMsg, "", id), env.stored), t.claimId, t.artifacts, None)
    case CheckConflictSkill(uri, op) =>
      var conflicts := ReportFor(MemoryBackend, M.LogOf(s, ns), DryRunClaim(uri, op), env.checked);
      SkillResult(s, t.claimId, [Artifact("conflict-report", Reported(ConflictReport(conflicts != [], conflicts)))], None)
    case MailboxSkill(name, Some(json)) => SkillResult(s, t.claimId, [Artifact(name, MailboxReply(json))], None)
    case _ => SkillResult(s, t.claimId, t.artifacts, Some(SKILL_ERROR))
  }

  // ---------- The executor ----------

  datatype TaskEvent =
    | StatusEvent(task: TaskView)
    | ArtifactEvent(task: TaskView, produced: seq<Artifact>)
    | DoneEvent(task: TaskView)
    | ErrorEvent(task: TaskView, code: int)

  const CHANNEL_SIZE := 8

  /**
   * The executor passes six points: its sends, and the check before the skill at point 2. The context
   * is cancelled from point `cancelAt` on. From then on a send may go either way, `select` choosing at
   * random between two ready cases: it goes through at the points in `lucky`.
   */
  datatype Schedule = Schedule(cancelAt: nat, lucky: set<nat>)

  const POINTS := 6

  predicate Uncancelled(sch: Schedule) { sch.cancelAt >= POINTS }

  predicate Cancelled(sch: Schedule, point: nat) { point >= sch.cancelAt }

  predicate Delivered(sch: Schedule, point: nat) { !Cancelled(sch, point) || point in sch.lucky }

  function Sent(sch: Schedule, point: nat, event: TaskEvent): seq<TaskEvent> {
    if Delivered(sch, point) then [event] else []
  }

  datatype Execution = Execution(events: seq<TaskEvent>, task: TaskView, store: M.Store, ranSkill: bool)

  /** From the end of a successful skill to the closing of the channel. */
  function Finish(sch: Schedule, events: seq<TaskEvent>, t: TaskView, s: M.Store): Execution {
    var shown := if t.artifacts == [] then events else events + Sent(sch, 3, ArtifactEvent(t, t.artifacts));
    if t.artifacts != [] && !Delivered(sch, 3) then Execution(shown, t, s, true)
    else
      var done := Moved(t, Completed);
      if !Delivered(sch, 4) then Execution(shown, done, s, true)
      else Execution(shown + [StatusEvent(done)] + Sent(sch, 5, DoneEvent(done)), done, s, true)
  }

  /** From the skill on. */
  function SkillRun(
    sch: Schedule, events: seq<TaskEvent>, working: TaskView, s: M.Store, ns: string, call: SkillCall, env: Env): Execution
  {
    var r := Execute(s, ns, working, call, env);
    var after := working.(claimId := r.claimId, artifacts := r.artifacts);
    if r.error.Some? then
      Execution(events + Sent(sch, 3, ErrorEvent(Moved(after, Failed), r.error.value)), Moved(after, Failed), r.store, true)
    else Finish(sch, events, after, r.store)
  }

  /** From the second status on. */
  function Worked(
    sch: Schedule, first: TaskEvent, working: TaskView, s: M.Store, ns: string, call: SkillCall, env: Env): Execution
  {
    if !Delivered(sch, 1) then Execution([first], working, s, false)
    else
      var shown, failed := [first, StatusEvent(working)], Moved(working, Failed);
      if Cancelled(sch, 2) then Execution(shown + Sent(sch, 2, ErrorEvent(failed, SKILL_ERROR)), failed, s, false)
      else SkillRun(sch, shown, working, s, ns, call, env)
  }

  /** The events a task's execution sends, and the task and store it leaves. */
  function Executed(sch: Schedule, t: TaskView, s: M.Store, ns: string, call: SkillCall, env: Env): Execution {
    if !Delivered(sch, 0) then Execution([ErrorEvent(t, SKILL_ERROR)], t, s, false)
    else if !CanMove(t.state, Working) then
      Execution([StatusEvent(t)] + Sent(sch, 1, ErrorEvent(t, SKILL_ERROR)), t, s, false)
    else Worked(sch, StatusEvent(t), Moved(t, Working), s, ns, call, env)
  }

  // ---------- What every execution's stream looks like ----------

  predicate IsFinal(e: TaskEvent) { e.DoneEvent? || e.ErrorEvent? }

  /** Snapshots follow the transition graph, and an `error` or `done` only ever comes last. */
  ghost predicate WellOrdered(events: seq<TaskEvent>) {
    && (forall i :: 0 <= i < |events| - 1 ==>
          events[i].task.state == events[i + 1].task.state || CanMove(events[i].task.state, events[i + 1].task.state))
    && (forall i :: 0 <= i < |events| - 1 ==> !IsFinal(events[i]))
  }

  /** What follows two statuses, the second of a working task. */
  ghost predicate WellContinued(events: seq<TaskEvent>, longer: seq<TaskEvent>) {
    |events| == 2 <= |longer| <= 5 && events <= longer && WellOrdered(longer)
  }

  ghost predicate Begun(events: seq<TaskEvent>) {
    && |events| == 2 && events[0].StatusEvent? && events[1].StatusEvent?
    && events[1].task.state == Working && CanMove(events[0].task.state, Working)
  }

  lemma FinishIsWellOrdered(sch: Schedule, events: seq<TaskEvent>, t: TaskView, s: M.Store)
    requires Begun(events) && t.state == Working
    ensures WellContinued(events, Finish(sch, events, t, s).events)
  {
  }

  lemma SkillRunIsWellOrdered(
    sch: Schedule, events: seq<TaskEvent>, t: TaskView, s: M.Store, ns: string, call: SkillCall, env: Env)
    requires Begun(events) && t.state == Working
    ensures WellContinued(events, SkillRun(sch, events, t, s, ns, call, env).events)
  {
    var r := Execute(s, ns, t, call, env);
    FinishIsWellOrdered(sch, events, t.(claimId := r.claimId, artifacts := r.artifacts), r.store);
  }

  lemma WorkIsWellOrdered(
    sch: Schedule, first: TaskEvent, t: TaskView, s: M.Store, ns: string, call: SkillCall, env: Env)
    requires first.StatusEvent? && CanMove(first.task.state, Working) && t.state == Working
    ensures var events := Worked(sch, first, t, s, ns, call, env).events;
            1 <= |events| <= 5 && events[0] == first && WellOrdered(events)
  {
    SkillRunIsWellOrdered(sch, [first, StatusEvent(t)], t, s, ns, call, env);
  }

  /**
   * For every task, call and cancellation timing: at least one and at most five events, so that the
   * eight slots of the channel never fill up, in an order the transition graph allows, with at most
   * one `error` or `done` and nothing after it.
   */
  lemma StreamIsWellOrdered(sch: Schedule, t: TaskView, s: M.Store, ns: string, call: SkillCall, env: Env)
    ensures var events := Executed(sch, t, s, ns, call, env).events;
            1 <= |events| <= 5 < CHANNEL_SIZE && WellOrdered(events)
  {
    if CanMove(t.state, Working) {
      WorkIsWellOrdered(sch, StatusEvent(t), Moved(t, Working), s, ns, call, env);
    }
  }

  /** Uncancelled, a new task ends in done/completed or error/failed, according to the skill. */
  lemma UncancelledStreamEnds(sch: Schedule, t: TaskView, s: M.Store, ns: string, call: SkillCall, env: Env)
    requires Uncancelled(sch) && t.state == Submitted
    ensures var x, r := Executed(sch, t, s, ns, call, env), Execute(s, ns, Moved(t, Working), call, env);
            && x.ranSkill && x.store == r.store
            && (if r.error.None? then Last(x.events).DoneEvent? && x.task.state == Completed
                else Last(x.events) == ErrorEvent(x.task, r.error.value) && x.task.state == Failed)
            && Last(x.events).task == x.task
  {
  }

  /** The skill runs exactly when the context is still alive at the check just before it; otherwise the store is untouched. */
  lemma SkillRunsIff(sch: Schedule, t: TaskView, s: M.Store, ns: string, call: SkillCall, env: Env)
    requires t.state == Submitted
    ensures Executed(sch, t, s, ns, call, env).ranSkill <==> sch.cancelAt > 2
    ensures !Executed(sch, t, s, ns, call, env).ranSkill ==> Executed(sch, t, s, ns, call, env).store == s
  {
  }

  // ---------- The handlers ----------

  datatype TaskRequest = TaskRequest(id: string, sessionId: string, text: string, call: SkillCall)

  /** Both handlers begin by storing the task and the user's message. */
  function Accepted(s: M.Store, ns: string, req: TaskRequest): M.Store {
    M.HistoryAppended(M.TaskCreated(s, ns, ToStorage(NewTask(req.id, req.sessionId, ns))), ns, req.id, HistoryMessage("user", req.text))
  }

  predicate Rejected(s: M.Store, ns: string, req: TaskRequest) { req.id == "" || M.TaskKey(ns, req.id) in s.tasks }

  function ArtifactsStored(s: M.Store, ns: string, taskId: string, arts: seq<Artifact>): M.Store {
    if arts == [] then s else M.ArtifactCreated(ArtifactsStored(s, ns, taskId, Init(arts)), ns, taskId, Last(arts))
  }

  lemma {:induction false} ArtifactsKeepTasks(s: M.Store, ns: string, taskId: string, arts: seq<Artifact>)
    ensures ArtifactsStored(s, ns, taskId, arts)
            == s.(artifacts := ArtifactsStored(s, ns, taskId, arts).artifacts)
  {
    if arts != [] { ArtifactsKeepTasks(s, ns, taskId, Init(arts)); }
  }

  /** `tasks/send`. */
  function SendResult(s: M.Store, ns: string, req: TaskRequest, env: Env): M.Store {
    if Rejected(s, ns, req) then s
    else Settled(Accepted(s, ns, req), ns, Moved(NewTask(req.id, req.sessionId, ns), Working), req.call, env)
  }

  /** From the skill of `tasks/send` on. */
  function Settled(s: M.Store, ns: string, working: TaskView, call: SkillCall, env: Env): M.Store {
    var r := Execute(s, ns, working, call, env);
    var after := working.(claimId := r.claimId, artifacts := r.artifacts);
    if r.error.Some? then M.TaskUpdated(r.store, ns, ToStorage(Moved(after, Failed)))
    else M.TaskUpdated(ArtifactsStored(r.store, ns, working.id, r.artifacts), ns, ToStorage(Moved(after, Completed)))
  }

  /** The loop of `tasks/sendSubscribe` over the events: it stops at the first `error` or `done`. */
  function EventsHandled(s: M.Store, ns: string, taskId: string, events: seq<TaskEvent>): M.Store
    decreases |events|
  {
    if events == [] then s
    else
      match events[0]
      case StatusEvent(_) => EventsHandled(s, ns, taskId, events[1..])
      case ArtifactEvent(_, arts) => EventsHandled(ArtifactsStored(s, ns, taskId, arts), ns, taskId, events[1..])
      case DoneEvent(t) => M.TaskUpdated(s, ns, ToStorage(t))
      case ErrorEvent(t, _) => M.TaskUpdated(s, ns, ToStorage(t))
  }

  /** `tasks/sendSubscribe`. A writer that cannot stream is noticed only after the new task has been stored. */
  function SubscribeResult(streams: bool, sch: Schedule, s: M.Store, ns: string, req: TaskRequest, env: Env): M.Store {
    if Rejected(s, ns, req) then s
    else if !streams then Accepted(s, ns, req)
    else
      var x := Executed(sch, NewTask(req.id, req.sessionId, ns), Accepted(s, ns, req), ns, req.call, env);
      EventsHandled(x.store, ns, req.id, x.events)
  }

  /** `tasks/cancel`: a task with a claim id releases it first. */
  function CancelResult(s: M.Store, ns: string, taskId: string, at: Instant): M.Store {
    if taskId == "" || M.TaskKey(ns, taskId) !in s.tasks || Terminal(s.tasks[M.TaskKey(ns, taskId)].state) then s
    else
      var t := FromStorage(s.tasks[M.TaskKey(ns, taskId)]);
      var released := if t.claimId != "" then M.Appended(s, ns, RefDraft(ReleaseMsg, "", t.claimId), at) else s;
      if CanMove(t.state, Canceled) then M.TaskUpdated(released, ns, ToStorage(Moved(t, Canceled))) else released
  }
}
