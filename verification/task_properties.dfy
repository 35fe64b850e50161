/** What the two ways of running a task leave in the store, for every request and every cancellation timing. */
module TaskProperties {
  import opened Messages
  import opened Protocol
  import opened A2ATypes
  import opened Tasks
  import ActiveClaims
  import M = Memory

  // ---------- The event loop ----------

  ghost predicate Quiet(events: seq<TaskEvent>) { forall e :: e in events ==> e.StatusEvent? }

  lemma {:induction false} QuietIsSkipped(s: M.Store, ns: string, taskId: string, quiet: seq<TaskEvent>, rest: seq<TaskEvent>)
    requires Quiet(quiet)
    ensures EventsHandled(s, ns, taskId, quiet + rest) == EventsHandled(s, ns, taskId, rest)
  {
    if quiet == [] {
      assert quiet + rest == rest;
    } else {
      assert quiet[0] in quiet;
      assert (quiet + rest)[1..] == quiet[1..] + rest;
      QuietIsSkipped(s, ns, taskId, quiet[1..], rest);
    }
  }

  lemma FinalEnds(s: M.Store, ns: string, taskId: string, e: TaskEvent)
    requires IsFinal(e)
    ensures EventsHandled(s, ns, taskId, [e]) == M.TaskUpdated(s, ns, ToStorage(e.task))
  {}

  lemma NothingLeft(s: M.Store, ns: string, taskId: string)
    ensures EventsHandled(s, ns, taskId, []) == s
  {}

  lemma ArtifactThenRest(s: M.Store, ns: string, taskId: string, e: TaskEvent, rest: seq<TaskEvent>)
    requires e.ArtifactEvent?
    ensures EventsHandled(s, ns, taskId, [e] + rest)
            == EventsHandled(ArtifactsStored(s, ns, taskId, e.produced), ns, taskId, rest)
  {
    assert ([e] + rest)[1..] == rest;
  }

  /** The events after the artifacts. */
  function Closing(sch: Schedule, done: TaskView): seq<TaskEvent> {
    if Delivered(sch, 4) then [StatusEvent(done)] + Sent(sch, 5, DoneEvent(done)) else []
  }

  lemma ClosingHandled(sch: Schedule, done: TaskView, s: M.Store, ns: string, taskId: string)
    ensures EventsHandled(s, ns, taskId, Closing(sch, done))
            == if Delivered(sch, 4) && Delivered(sch, 5) then M.TaskUpdated(s, ns, ToStorage(done)) else s
  {
    NothingLeft(s, ns, taskId);
    if Delivered(sch, 4) {
      QuietIsSkipped(s, ns, taskId, [StatusEvent(done)], Sent(sch, 5, DoneEvent(done)));
      FinalEnds(s, ns, taskId, DoneEvent(done));
    }
  }

  lemma FinishEvents(sch: Schedule, shown: seq<TaskEvent>, t: TaskView, s: M.Store)
    ensures Finish(sch, shown, t, s).events ==
            shown + if t.artifacts == [] then Closing(sch, Moved(t, Completed))
                    else if Delivered(sch, 3) then [ArtifactEvent(t, t.artifacts)] + Closing(sch, Moved(t, Completed))
                    else []
  {
    var done, produced := Moved(t, Completed), [ArtifactEvent(t, t.artifacts)];
    assert (shown + produced) + [StatusEvent(done)] + Sent(sch, 5, DoneEvent(done))
           == shown + (produced + ([StatusEvent(done)] + Sent(sch, 5, DoneEvent(done))));
  }

  /** A successful skill, event by event: the artifacts if they went out, then the task if `done` went out. */
  lemma FinishHandled(sch: Schedule, shown: seq<TaskEvent>, t: TaskView, s: M.Store, ns: string, taskId: string)
    requires Quiet(shown)
    ensures EventsHandled(s, ns, taskId, Finish(sch, shown, t, s).events) ==
            if t.artifacts != [] && !Delivered(sch, 3) then s
            else
              var kept := ArtifactsStored(s, ns, taskId, t.artifacts);
              if Delivered(sch, 4) && Delivered(sch, 5) then M.TaskUpdated(kept, ns, ToStorage(Moved(t, Completed))) else kept
  {
    var closing, produced := Closing(sch, Moved(t, Completed)), ArtifactEvent(t, t.artifacts);
    FinishEvents(sch, shown, t, s);
    if t.artifacts == [] {
      QuietIsSkipped(s, ns, taskId, shown, closing);
      ClosingHandled(sch, Moved(t, Completed), s, ns, taskId);
    } else if Delivered(sch, 3) {
      QuietIsSkipped(s, ns, taskId, shown, [produced] + closing);
      ArtifactThenRest(s, ns, taskId, produced, closing);
      ClosingHandled(sch, Moved(t, Completed), ArtifactsStored(s, ns, taskId, t.artifacts), ns, taskId);
    } else {
      QuietIsSkipped(s, ns, taskId, shown, []);
      NothingLeft(s, ns, taskId);
    }
  }

  // ---------- Sending and streaming agree ----------

  /** The store after the handlers' common part and the skill. */
  function Ran(s: M.Store, ns: string, req: TaskRequest, env: Env): SkillResult {
    Execute(Accepted(s, ns, req), ns, Moved(NewTask(req.id, req.sessionId, ns), Working), req.call, env)
  }

  /**
   * Without cancellation, `tasks/send` and a streamed `tasks/sendSubscribe` started from the same store with the
   * same request leave the same store: task, artifacts, history and claim log.
   */
  lemma StreamingLeavesWhatSendingLeaves(sch: Schedule, s: M.Store, ns: string, req: TaskRequest, env: Env)
    requires Uncancelled(sch)
    ensures SubscribeResult(true, sch, s, ns, req, env) == SendResult(s, ns, req, env)
  {
    if !Rejected(s, ns, req) {
      var t := NewTask(req.id, req.sessionId, ns);
      var working := Moved(t, Working);
      var r := Ran(s, ns, req, env);
      var after := working.(claimId := r.claimId, artifacts := r.artifacts);
      var shown := [StatusEvent(t), StatusEvent(working)];
      if r.error.Some? {
        QuietIsSkipped(r.store, ns, req.id, shown, [ErrorEvent(Moved(after, Failed), r.error.value)]);
        FinalEnds(r.store, ns, req.id, ErrorEvent(Moved(after, Failed), r.error.value));
      } else {
        FinishHandled(sch, shown, after, r.store, ns, req.id);
      }
    }
  }

  // ---------- What cancellation can lose ----------

  /** A granted claim, recorded on the working task by the skill. */
  lemma GrantedWork(s: M.Store, ns: string, req: TaskRequest, env: Env)
    requires !Rejected(s, ns, req) && req.call.ClaimResource? && Ran(s, ns, req, env).error.None?
    ensures Ran(s, ns, req, env).claimId == env.claimId && Ran(s, ns, req, env).artifacts != []
    ensures Ran(s, ns, req, env).store.tasks == s.tasks[M.TaskKey(ns, req.id) := ToStorage(NewTask(req.id, req.sessionId, ns))]
  {}

  /** A stream still alive when its skill succeeds leaves what its closing events leave. */
  lemma GrantedStream(sch: Schedule, s: M.Store, ns: string, req: TaskRequest, env: Env) returns (final: M.Store, r: SkillResult)
    requires !Rejected(s, ns, req) && sch.cancelAt > 2 && Ran(s, ns, req, env).error.None?
    ensures final == SubscribeResult(true, sch, s, ns, req, env) && r == Ran(s, ns, req, env)
    ensures var t := NewTask(req.id, req.sessionId, ns);
            var after := Moved(t, Working).(claimId := r.claimId, artifacts := r.artifacts);
            final == EventsHandled(r.store, ns, req.id,
                                   Finish(sch, [StatusEvent(t), StatusEvent(Moved(t, Working))], after, r.store).events)
  {
    final, r := SubscribeResult(true, sch, s, ns, req, env), Ran(s, ns, req, env);
  }

  predicate AllDelivered(sch: Schedule) { Delivered(sch, 3) && Delivered(sch, 4) && Delivered(sch, 5) }

  lemma FinishRecords(sch: Schedule, shown: seq<TaskEvent>, t: TaskView, s: M.Store, ns: string)
    requires Quiet(shown) && t.artifacts != [] && M.TaskKey(ns, t.id) in s.tasks
    ensures var final := EventsHandled(s, ns, t.id, Finish(sch, shown, t, s).events);
            && final.messages == s.messages
            && final.tasks == if AllDelivered(sch) then s.tasks[M.TaskKey(ns, t.id) := ToStorage(Moved(t, Completed))] else s.tasks
  {
    FinishHandled(sch, shown, t, s, ns, t.id);
    ArtifactsKeepTasks(s, ns, t.id, t.artifacts);
  }

  /** From the end of a successful skill: the stored task is updated, or stays as the handler first stored it. */
  lemma RecordedOrNot(sch: Schedule, t: TaskView, r: SkillResult, ns: string)
    requires t.state == Submitted && r.artifacts != []
    requires M.TaskKey(ns, t.id) in r.store.tasks && r.store.tasks[M.TaskKey(ns, t.id)] == ToStorage(t)
    ensures var working := Moved(t, Working);
            var x := Finish(sch, [StatusEvent(t), StatusEvent(working)],
                            working.(claimId := r.claimId, artifacts := r.artifacts), r.store);
            var final := EventsHandled(r.store, ns, t.id, x.events);
            && final.messages == r.store.messages
            && final.tasks == r.store.tasks[M.TaskKey(ns, t.id) :=
                 ToStorage(if AllDelivered(sch) then t.(state := Completed, claimId := r.claimId) else t)]
  {
    var working := Moved(t, Working);
    FinishRecords(sch, [StatusEvent(t), StatusEvent(working)],
                  working.(claimId := r.claimId, artifacts := r.artifacts), r.store, ns);
  }

  /** What the stored tasks and the log are after a granted claim was streamed. */
  lemma GrantedFinal(sch: Schedule, s: M.Store, ns: string, req: TaskRequest, env: Env) returns (final: M.Store, r: SkillResult)
    requires !Rejected(s, ns, req) && req.call.ClaimResource? && sch.cancelAt > 2 && Ran(s, ns, req, env).error.None?
    ensures final == SubscribeResult(true, sch, s, ns, req, env) && r == Ran(s, ns, req, env)
    ensures final.messages == r.store.messages
    ensures var t := NewTask(req.id, req.sessionId, ns);
            final.tasks == r.store.tasks[M.TaskKey(ns, req.id) :=
              ToStorage(if AllDelivered(sch) then t.(state := Completed, claimId := env.claimId) else t)]
  {
    GrantedWork(s, ns, req, env);
    final, r := GrantedStream(sch, s, ns, req, env);
    RecordedOrNot(sch, NewTask(req.id, req.sessionId, ns), r, ns);
  }

  /**
   * A claim granted to a streaming task is in the log whatever happens next, but the stored task
   * learns of it exactly when the artifact, the completed status and `done` all get through; if one
   * does not, the stored task stays submitted, with no claim id.
   */
  lemma GrantIsRecordedIff(sch: Schedule, s: M.Store, ns: string, req: TaskRequest, env: Env)
    requires !Rejected(s, ns, req) && req.call.ClaimResource? && env.claimId != "" && sch.cancelAt > 2
    requires Ran(s, ns, req, env).error.None?
    ensures var final := SubscribeResult(true, sch, s, ns, req, env);
            && M.TaskKey(ns, req.id) in final.tasks
            && var task := final.tasks[M.TaskKey(ns, req.id)];
            && M.LogOf(final, ns) == M.LogOf(Ran(s, ns, req, env).store, ns)
            && (task.claimId == env.claimId <==> AllDelivered(sch))
            && (task.claimId != env.claimId ==> task.claimId == "" && task.state == Submitted)
  {
    var final, r := GrantedFinal(sch, s, ns, req, env);
  }

  /** A stream cut off at its artifact: the log holds the claim, the stored task does not know it. */
  lemma AGrantGoesUnrecorded(ns: string, req: TaskRequest, env: Env, s: M.Store)
    requires s == M.Store(map[], map[], map[], map[], map[], map[])
    requires req == TaskRequest("t1", "", "", ClaimResource(ClaimRequest("file://x", "ann", Write, "", 0)))
    requires env == Env("", "c1", 1, 1, 1)
    ensures var final := SubscribeResult(true, Schedule(3, {}), s, ns, req, env);
            && |M.LogOf(final, ns)| == 1 && ActiveClaims.Claims(M.LogOf(final, ns)[0])
            && ActiveClaims.ClaimOf(M.LogOf(final, ns)[0]).claimId == "c1"
            && M.TaskKey(ns, "t1") in final.tasks && final.tasks[M.TaskKey(ns, "t1")].claimId == ""
  {
    var c := ClaimFor(req.call.req, env);
    assert M.LogOf(Accepted(s, ns, req), ns) == [];
    assert ReportFor(MemoryBackend, [], c, 1) == [];
    assert Ran(s, ns, req, env).error.None?;
    GrantIsRecordedIff(Schedule(3, {}), s, ns, req, env);
  }

  // ---------- Cancelling ----------

  /** A stored task has a claim id only once it is completed. */
  ghost predicate ClaimsOnlyWhenCompleted(s: M.Store) {
    forall k :: k in s.tasks && s.tasks[k].claimId != "" ==> s.tasks[k].state == Completed
  }

  lemma {:induction false} HandlingKeepsClaimIds(s: M.Store, ns: string, taskId: string, events: seq<TaskEvent>)
    requires ClaimsOnlyWhenCompleted(s)
    requires forall e :: e in events && IsFinal(e) && e.task.claimId != "" ==> e.task.state == Completed
    ensures ClaimsOnlyWhenCompleted(EventsHandled(s, ns, taskId, events))
    decreases |events|
  {
    if events != [] {
      assert events[0] in events;
      match events[0] {
        case StatusEvent(_) => HandlingKeepsClaimIds(s, ns, taskId, events[1..]);
        case ArtifactEvent(_, arts) =>
          ArtifactsKeepTasks(s, ns, taskId, arts);
          HandlingKeepsClaimIds(ArtifactsStored(s, ns, taskId, arts), ns, taskId, events[1..]);
        case DoneEvent(_) =>
        case ErrorEvent(_, _) =>
      }
    }
  }

  /** A skill leaves stored tasks alone, and a failing one leaves the task's claim id alone. */
  lemma SkillTouchesNoTask(s: M.Store, ns: string, t: TaskView, call: SkillCall, env: Env)
    ensures Execute(s, ns, t, call, env).store.tasks == s.tasks
    ensures Execute(s, ns, t, call, env).error.Some? ==> Execute(s, ns, t, call, env).claimId == t.claimId
  {}

  lemma FinishIsHonest(sch: Schedule, shown: seq<TaskEvent>, t: TaskView, s: M.Store)
    requires t.state == Working && Quiet(shown)
    ensures forall e :: e in Finish(sch, shown, t, s).events && IsFinal(e) ==> e.task.state == Completed
    ensures Finish(sch, shown, t, s).store == s
  {}

  ghost predicate Honest(x: Execution) {
    forall e :: e in x.events && IsFinal(e) && e.task.claimId != "" ==> e.task.state == Completed
  }

  lemma SkillRunIsHonest(sch: Schedule, shown: seq<TaskEvent>, t: TaskView, s: M.Store, ns: string, call: SkillCall, env: Env)
    requires t.state == Working && t.claimId == "" && Quiet(shown)
    ensures var x := SkillRun(sch, shown, t, s, ns, call, env); Honest(x) && x.store.tasks == s.tasks
  {
    var r := Execute(s, ns, t, call, env);
    SkillTouchesNoTask(s, ns, t, call, env);
    FinishIsHonest(sch, shown, t.(claimId := r.claimId, artifacts := r.artifacts), r.store);
  }

  lemma WorkIsHonest(sch: Schedule, first: TaskEvent, t: TaskView, s: M.Store, ns: string, call: SkillCall, env: Env)
    requires t.state == Working && t.claimId == "" && first.StatusEvent?
    ensures var x := Worked(sch, first, t, s, ns, call, env); Honest(x) && x.store.tasks == s.tasks
  {
    SkillRunIsHonest(sch, [first, StatusEvent(t)], t, s, ns, call, env);
  }

  /** A new task's stream carries a claim id to its end only with a completed task. */
  lemma FinalEventsAreHonest(sch: Schedule, t: TaskView, s: M.Store, ns: string, call: SkillCall, env: Env)
    requires t.state == Submitted && t.claimId == ""
    ensures var x := Executed(sch, t, s, ns, call, env);
            Honest(x) && x.store.tasks == s.tasks
  {
    WorkIsHonest(sch, StatusEvent(t), Moved(t, Working), s, ns, call, env);
  }

  lemma SubscribeKeepsClaimIds(streams: bool, sch: Schedule, s: M.Store, ns: string, req: TaskRequest, env: Env)
    requires ClaimsOnlyWhenCompleted(s)
    ensures ClaimsOnlyWhenCompleted(SubscribeResult(streams, sch, s, ns, req, env))
  {
    if !Rejected(s, ns, req) {
      var t := NewTask(req.id, req.sessionId, ns);
      var x := Executed(sch, t, Accepted(s, ns, req), ns, req.call, env);
      FinalEventsAreHonest(sch, t, Accepted(s, ns, req), ns, req.call, env);
      HandlingKeepsClaimIds(x.store, ns, req.id, x.events);
    }
  }

  /** One request to the A2A server, or a change of the claim log made by anyone else. */
  datatype ServerStep =
    | SendStep(req: TaskRequest, env: Env)
    | SubscribeStep(streams: bool, sch: Schedule, req: TaskRequest, env: Env)
    | CancelStep(taskId: string, at: Instant)
    | LogStep(messages: map<string, seq<Message>>, offsets: map<string, nat>)

  function ServerNext(s: M.Store, ns: string, step: ServerStep): M.Store {
    match step
    case SendStep(req, env) => SendResult(s, ns, req, env)
    case SubscribeStep(streams, sch, req, env) => SubscribeResult(streams, sch, s, ns, req, env)
    case CancelStep(taskId, at) => CancelResult(s, ns, taskId, at)
    case LogStep(messages, offsets) => s.(messages := messages, offsets := offsets)
  }

  function ServerRun(s: M.Store, ns: string, steps: seq<ServerStep>): M.Store {
    if steps == [] then s else ServerNext(ServerRun(s, ns, Init(steps)), ns, Last(steps))
  }

  lemma {:induction false} RunKeepsClaimIds(s: M.Store, ns: string, steps: seq<ServerStep>)
    requires ClaimsOnlyWhenCompleted(s)
    ensures ClaimsOnlyWhenCompleted(ServerRun(s, ns, steps))
  {
    if steps != [] {
      var before := ServerRun(s, ns, Init(steps));
      RunKeepsClaimIds(s, ns, Init(steps));
      match Last(steps) {
        case SendStep(req, env) =>
          StreamingLeavesWhatSendingLeaves(Schedule(POINTS, {}), before, ns, req, env);
          SubscribeKeepsClaimIds(true, Schedule(POINTS, {}), before, ns, req, env);
        case SubscribeStep(streams, sch, req, env) => SubscribeKeepsClaimIds(streams, sch, before, ns, req, env);
        case CancelStep(_, _) =>
        case LogStep(_, _) =>
      }
    }
  }

  /**
   * The A2A design (docs/superpowers/specs/2026-05-26-a2a-adapter-design.md, section 7.6) has
   * `tasks/cancel` release the task's claim. No run of the server reaches a store in which it does:
   * claim ids are stored only with completed tasks, and those are refused.
   */
  lemma CancelNeverReleases(s: M.Store, ns: string, steps: seq<ServerStep>, taskId: string, at: Instant)
    requires ClaimsOnlyWhenCompleted(s)
    ensures var before := ServerRun(s, ns, steps);
            CancelResult(before, ns, taskId, at).messages == before.messages
  {
    RunKeepsClaimIds(s, ns, steps);
  }

  /** In any store, `tasks/cancel` releases a claim exactly for a task that has one and is not yet finished. */
  lemma CancelReleasesIff(s: M.Store, ns: string, taskId: string, at: Instant)
    requires taskId != "" && M.TaskKey(ns, taskId) in s.tasks
    ensures var task := s.tasks[M.TaskKey(ns, taskId)];
            CancelResult(s, ns, taskId, at).messages != s.messages <==> task.claimId != "" && !Terminal(task.state)
  {
    var task := s.tasks[M.TaskKey(ns, taskId)];
    var draft := RefDraft(ReleaseMsg, "", task.claimId);
    assert |M.LogOf(M.Appended(s, ns, draft, at), ns)| == |M.LogOf(s, ns)| + 1;
  }
}
