/** internal/a2a: the task object, the executor and the handlers, each changing the store in place. */
module Handlers {
  import opened Messages
  import opened Protocol
  import opened A2ATypes
  import opened Tasks
  import opened TaskProperties
  import opened TaskOutcomes
  import M = Memory
  import C = Client

  class Task {
    const id: string
    const sessionId: string
    const namespace: string
    var state: TaskState
    var claimId: string
    var artifacts: seq<Artifact>

    /** `NewTask`. */
    constructor (id: string, sessionId: string, namespace: string)
      ensures View() == NewTask(id, sessionId, namespace)
    {
      this.id, this.sessionId, this.namespace := id, sessionId, namespace;
      state, claimId, artifacts := Submitted, "", [];
    }

    /** `storageToTask`. */
    constructor FromStorage(st: StoredTask)
      ensures View() == Tasks.FromStorage(st)
    {
      id, sessionId, namespace := st.id, st.sessionId, st.namespace;
      state, claimId, artifacts := st.state, st.claimId, [];
    }

    function View(): TaskView
      reads this
    {
      TaskView(id, sessionId, namespace, state, claimId, artifacts)
    }

    /** Looks the move up in the table of allowed ones; a refused move changes nothing. */
    method Transition(to: TaskState) returns (ok: bool)
      modifies this`state
      ensures ok == CanMove(old(state), to)
      ensures View() == Moved(old(View()), to)
    {
      var valid := map[
        Submitted := [Working, InputRequired, Failed, Canceled],
        Working := [InputRequired, Completed, Failed, Canceled],
        InputRequired := [Working, Canceled]];
      if state !in valid { return false; }
      var allowed := valid[state];
      assert to in allowed <==> CanMove(state, to);
      for i := 0 to |allowed|
        invariant state == old(state) && to !in allowed[..i]
      {
        if allowed[i] == to {
          state := to;
          return true;
        }
      }
      assert allowed[..|allowed|] == allowed;
      ok := false;
    }
  }

  const INVALID_PARAMS := -32602
  const NOT_FOUND := -32000
  const ALREADY_FINISHED := -32001

  datatype Response = TaskResponse(task: TaskView) | ErrorResponse(code: int)

  /** Why a send is refused. */
  function SendRefusal(s: M.Store, ns: string, req: TaskRequest): Option<int> {
    if req.id == "" then Some(-32602) else if M.TaskKey(ns, req.id) in s.tasks then Some(-32003) else None
  }

  /** What a cancel is answered. The canceled state is stored under the id the stored entry carries, which must exist. */
  function CancelAnswer(s: M.Store, ns: string, taskId: string): Response {
    if taskId == "" then ErrorResponse(-32602)
    else if M.TaskKey(ns, taskId) !in s.tasks then ErrorResponse(-32000)
    else
      var st := s.tasks[M.TaskKey(ns, taskId)];
      if !(st.state in [Submitted, Working, InputRequired]) then ErrorResponse(-32001)
      else if M.TaskKey(ns, st.id) !in s.tasks then ErrorResponse(-32003)
      else TaskResponse(TaskView(st.id, st.sessionId, st.namespace, Canceled, st.claimId, []))
  }

  class Server {
    const mem: M.Provider
    const client: C.Client
    const namespace: string

    constructor (mem: M.Provider, namespace: string)
      requires mem.Valid()
      ensures Valid() && this.mem == mem && this.namespace == namespace
    {
      this.mem, this.namespace := mem, namespace;
      client := new C.Client(C.MemoryProvider(mem), namespace);
    }

    ghost predicate Valid()
      reads mem
    {
      client.provider == C.MemoryProvider(mem) && client.namespace == namespace && mem.Valid()
    }

    // ---------- Skills ----------

    method SkillClaimResource(task: Task, req: ClaimRequest, env: Env) returns (error: Option<int>)
      requires Valid()
      modifies mem, task
      ensures Valid()
      ensures SkillDone(old(mem.Contents()), old(task.View()), ClaimResource(req), env, task.View(), error)
    {
      ghost var s, t := mem.Contents(), task.View();
      var request := req;
      if request.agentId == "" { request := request.(agentId := env.caller); }
      assert NewClaim(request, env.claimId, env.created) == ClaimFor(req, env);
      var result := client.Claim(request, env.claimId, env.checked, env.created, env.stored);
      assert task.View() == t;
      match result {
        case ClaimRefused(_, report) =>
          task.artifacts := [Artifact("conflict-report", Reported(report))];
          error := Some(CONFLICT_ERROR);
        case ClaimGranted(claimId) =>
          task.claimId := claimId;
          task.artifacts := [Artifact("claim-result", Granted(claimId))];
          error := None;
      }
    }

    method SkillReleaseResource(task: Task, claimId: string, env: Env)
      requires Valid()
      modifies mem
      ensures Valid()
      ensures SkillDone(old(mem.Contents()), old(task.View()), ReleaseResource(claimId), env, task.View(), None)
    {
      client.Release(claimId, env.stored);
    }

    method SkillCheckConflict(task: Task, resourceUri: string, op: Operation, env: Env)
      requires Valid()
      modifies task
      ensures Valid()
      ensures SkillDone(old(mem.Contents()), old(task.View()), CheckConflictSkill(resourceUri, op), env, task.View(), None)
    {
      var report := client.DryRun(resourceUri, op, env.checked);
      task.artifacts := [Artifact("conflict-report", Reported(report))];
    }

    /** What a skill leaves: the store is read from `mem`. */
    ghost predicate SkillDone(s: M.Store, t: TaskView, call: SkillCall, env: Env, left: TaskView, error: Option<int>)
      reads mem
    {
      var r := Execute(s, namespace, t, call, env);
      mem.Contents() == r.store && left == t.(claimId := r.claimId, artifacts := r.artifacts) && error == r.error
    }

    method ExecuteSkill(task: Task, call: SkillCall, env: Env) returns (error: Option<int>)
      requires Valid()
      modifies mem, task
      ensures Valid()
      ensures SkillDone(old(mem.Contents()), old(task.View()), call, env, task.View(), error)
    {
      error := None;
      match call {
        case ClaimResource(req) => error := SkillClaimResource(task, req, env);
        case ReleaseResource(claimId) => SkillReleaseResource(task, claimId, env);
        case CheckConflictSkill(uri, op) => SkillCheckConflict(task, uri, op, env);
        case MailboxSkill(name, reply) =>
          if reply.Some? {
            task.artifacts := [Artifact(name, MailboxReply(reply.value))];
          } else {
            error := Some(SKILL_ERROR);
          }
        case NoDataPart => error := Some(SKILL_ERROR);
        case InvalidDataPart => error := Some(SKILL_ERROR);
        case UnknownSkill(_) => error := Some(SKILL_ERROR);
      }
    }

    // ---------- Handlers ----------

    method StoreArtifacts(taskId: string, arts: seq<Artifact>)
      requires mem.Valid()
      modifies mem
      ensures mem.Valid()
      ensures mem.Contents() == ArtifactsStored(old(mem.Contents()), namespace, taskId, arts)
    {
      ghost var s := mem.Contents();
      for i := 0 to |arts|
        invariant mem.Valid() && mem.Contents() == ArtifactsStored(s, namespace, taskId, arts[..i])
      {
        assert Init(arts[..i + 1]) == arts[..i] && Last(arts[..i + 1]) == arts[i];
        mem.CreateArtifact(namespace, taskId, arts[i]);
      }
      assert arts[..|arts|] == arts;
    }

    /** What both handlers begin with: a new task, stored, and the user's message. */
    method Accept(req: TaskRequest) returns (task: Task, error: Option<int>)
      requires Valid()
      modifies mem
      ensures Valid() && fresh(task) && task.View() == NewTask(req.id, req.sessionId, namespace)
      ensures error == SendRefusal(old(mem.Contents()), namespace, req)
      ensures mem.Contents() == if error.Some? then old(mem.Contents()) else Accepted(old(mem.Contents()), namespace, req)
    {
      task := new Task(req.id, req.sessionId, namespace);
      if req.id == "" { return task, Some(INVALID_PARAMS); }
      var ok := mem.CreateTask(namespace, ToStorage(task.View()));
      if !ok { return task, Some(SKILL_ERROR); }
      mem.AppendTaskHistory(namespace, req.id, HistoryMessage("user", req.text));
      error := None;
    }

    method HandleTasksSend(req: TaskRequest, env: Env) returns (response: Response)
      requires Valid()
      modifies mem
      ensures Valid()
      ensures mem.Contents() == SendResult(old(mem.Contents()), namespace, req, env)
      ensures var refusal := SendRefusal(old(mem.Contents()), namespace, req);
              if refusal.Some? then response == ErrorResponse(refusal.value)
              else
                && response.TaskResponse? && response.task.id == req.id && mem.Keeps(namespace, ToStorage(response.task))
                && response.task.artifacts == Ran(old(mem.Contents()), namespace, req, env).artifacts
    {
      ghost var s := mem.Contents();
      var task, error := Accept(req);
      if error.Some? { return ErrorResponse(error.value); }
      var ok := task.Transition(Working);
      assert ok;
      FinishSend(task, req.call, env);
      response := TaskResponse(task.View());
    }

    /** `tasks/send` from the skill on: artifacts are stored only for a skill that succeeds. */
    method FinishSend(task: Task, call: SkillCall, env: Env)
      requires Valid() && task.state == Working && M.TaskKey(namespace, task.id) in mem.a2aTasks
      modifies mem, task
      ensures Valid() && mem.Keeps(namespace, ToStorage(task.View()))
      ensures task.artifacts == Execute(old(mem.Contents()), namespace, old(task.View()), call, env).artifacts
      ensures mem.Contents() == Settled(old(mem.Contents()), namespace, old(task.View()), call, env)
    {
      ghost var s, t := mem.Contents(), task.View();
      var error := ExecuteSkill(task, call, env);
      assert SkillDone(s, t, call, env, task.View(), error);
      var arts := task.artifacts;
      var ok: bool;
      if error.Some? {
        ok := task.Transition(Failed);
      } else {
        ok := task.Transition(Completed);
        ArtifactsKeepTasks(mem.Contents(), namespace, task.id, arts);
        StoreArtifacts(task.id, arts);
      }
      ok := mem.UpdateTask(namespace, ToStorage(task.View()));
    }

    /** The loop over the executor's events: artifacts are stored, the first `error` or `done` ends it. */
    method HandleEvents(taskId: string, events: seq<TaskEvent>)
      requires mem.Valid()
      modifies mem
      ensures mem.Valid()
      ensures mem.Contents() == EventsHandled(old(mem.Contents()), namespace, taskId, events)
    {
      ghost var final := EventsHandled(mem.Contents(), namespace, taskId, events);
      var i := 0;
      while i < |events|
        invariant 0 <= i <= |events| && mem.Valid()
        invariant EventsHandled(mem.Contents(), namespace, taskId, events[i..]) == final
      {
        var event := events[i];
        assert events[i..][0] == event && events[i..][1..] == events[i + 1..];
        match event {
          case StatusEvent(_) =>
          case ArtifactEvent(_, arts) => StoreArtifacts(taskId, arts);
          case DoneEvent(task) =>
            var ok := mem.UpdateTask(namespace, ToStorage(task));
            return;
          case ErrorEvent(task, _) =>
            var ok := mem.UpdateTask(namespace, ToStorage(task));
            return;
        }
        i := i + 1;
      }
    }

    method HandleTasksSendSubscribe(streams: bool, sch: Schedule, req: TaskRequest, env: Env)
      returns (events: seq<TaskEvent>)
      requires Valid()
      modifies mem
      ensures Valid()
      ensures mem.Contents() == SubscribeResult(streams, sch, old(mem.Contents()), namespace, req, env)
      ensures events ==
              if Rejected(old(mem.Contents()), namespace, req) || !streams then []
              else Executed(sch, NewTask(req.id, req.sessionId, namespace), Accepted(old(mem.Contents()), namespace, req),
                            namespace, req.call, env).events
    {
      ghost var s := mem.Contents();
      var task, error := Accept(req);
      if error.Some? || !streams { return []; }
      ghost var x := Executed(sch, task.View(), mem.Contents(), namespace, req.call, env);
      var executor := new TaskExecutor(task, sch);
      var ranSkill := executor.Run(this, req.call, env);
      events := executor.events;
      assert events == x.events && mem.Contents() == x.store;
      HandleEvents(req.id, events);
    }

    method HandleTasksCancel(taskId: string, at: Instant) returns (response: Response)
      requires Valid()
      modifies mem
      ensures Valid()
      ensures mem.Contents() == CancelResult(old(mem.Contents()), namespace, taskId, at)
      ensures response == CancelAnswer(old(mem.Contents()), namespace, taskId)
    {
      ghost var s := mem.Contents();
      if taskId == "" { return ErrorResponse(INVALID_PARAMS); }
      var st := mem.GetTask(namespace, taskId);
      if st.None? { return ErrorResponse(NOT_FOUND); }
      if Terminal(st.value.state) { return ErrorResponse(ALREADY_FINISHED); }
      response := CancelTask(taskId, st.value, at);
    }

    /** Cancelling a task that was found unfinished: the claim goes first, then the state. */
    method CancelTask(taskId: string, st: StoredTask, at: Instant) returns (response: Response)
      requires Valid() && taskId != "" && !Terminal(st.state)
      requires M.TaskKey(namespace, taskId) in mem.a2aTasks && mem.a2aTasks[M.TaskKey(namespace, taskId)] == st
      modifies mem
      ensures Valid()
      ensures mem.Contents() == CancelResult(old(mem.Contents()), namespace, taskId, at)
      ensures response == CancelAnswer(old(mem.Contents()), namespace, taskId)
    {
      ghost var s := mem.Contents();
      var task := new Task.FromStorage(st);
      ghost var t := task.View();
      if task.claimId != "" {
        client.Release(task.claimId, at);
      }
      ghost var released := mem.Contents();
      assert released == if t.claimId != "" then M.Appended(s, namespace, RefDraft(ReleaseMsg, "", t.claimId), at) else s;
      assert task.View() == t;
      var ok := task.Transition(Canceled);
      if !ok { return ErrorResponse(ALREADY_FINISHED); }
      ok := mem.UpdateTask(namespace, ToStorage(task.View()));
      if !ok { return ErrorResponse(SKILL_ERROR); }
      response := TaskResponse(task.View());
    }
  }

  class TaskExecutor {
    const task: Task
    const sch: Schedule
    var events: seq<TaskEvent>

    constructor (task: Task, sch: Schedule)
      ensures this.task == task && this.sch == sch && events == []
    {
      this.task, this.sch, events := task, sch, [];
    }

    /** A slot of the channel is free, so `select` never waits: it sends, unless the context's end wins. */
    method Send(point: nat, event: TaskEvent) returns (sent: bool)
      requires |events| < CHANNEL_SIZE
      modifies this`events
      ensures sent == Delivered(sch, point)
      ensures events == old(events) + Sent(sch, point, event)
    {
      sent := Delivered(sch, point);
      if sent { events := events + [event]; }
    }

    /** The goroutine of `StartTaskExecution`. */
    method Run(server: Server, call: SkillCall, env: Env) returns (ranSkill: bool)
      requires server.Valid() && events == []
      modifies this`events, task, server.mem
      ensures server.Valid()
      ensures Execution(events, task.View(), server.mem.Contents(), ranSkill)
              == Executed(sch, old(task.View()), old(server.mem.Contents()), server.namespace, call, env)
    {
      ghost var t, s := task.View(), server.mem.Contents();
      ranSkill := false;
      var sent := Send(0, StatusEvent(task.View()));
      assert events == Sent(sch, 0, StatusEvent(t));
      if !sent {
        events := events + [ErrorEvent(task.View(), SKILL_ERROR)];
        return;
      }
      var ok := task.Transition(Working);
      if !ok {
        assert task.View() == t;
        sent := Send(1, ErrorEvent(task.View(), SKILL_ERROR));
        assert events == [StatusEvent(t)] + Sent(sch, 1, ErrorEvent(t, SKILL_ERROR));
        return;
      }
      assert events[0] == StatusEvent(t) && task.View() == Moved(t, Working) && server.mem.Contents() == s;
      ranSkill := Work(server, call, env);
    }

    /** The goroutine from the second status on. */
    method Work(server: Server, call: SkillCall, env: Env) returns (ranSkill: bool)
      requires server.Valid() && |events| == 1 && task.state == Working
      modifies this`events, task, server.mem
      ensures server.Valid()
      ensures Execution(events, task.View(), server.mem.Contents(), ranSkill)
              == Worked(sch, old(events[0]), old(task.View()), old(server.mem.Contents()), server.namespace, call, env)
    {
      ghost var first, t, s := events[0], task.View(), server.mem.Contents();
      ranSkill := false;
      var sent := Send(1, StatusEvent(task.View()));
      if !sent {
        assert events == [first];
        return;
      }
      assert events == [first, StatusEvent(t)] && task.View() == t && server.mem.Contents() == s;
      if Cancelled(sch, 2) {
        var ok := task.Transition(Failed);
        sent := Send(2, ErrorEvent(task.View(), SKILL_ERROR));
        return;
      }
      RunSkill(server, call, env);
      ranSkill := true;
    }

    /** The goroutine from the skill on. */
    method RunSkill(server: Server, call: SkillCall, env: Env)
      requires server.Valid() && |events| == 2 && task.state == Working
      modifies this`events, task, server.mem
      ensures server.Valid()
      ensures Execution(events, task.View(), server.mem.Contents(), true)
              == SkillRun(sch, old(events), old(task.View()), old(server.mem.Contents()), server.namespace, call, env)
    {
      ghost var t, s := task.View(), server.mem.Contents();
      var error := server.ExecuteSkill(task, call, env);
      assert server.SkillDone(s, t, call, env, task.View(), error);
      if error.Some? {
        var ok := task.Transition(Failed);
        var sent := Send(3, ErrorEvent(task.View(), error.value));
      } else {
        FinishRun(server.mem.Contents());
      }
    }

    /** The goroutine's last part, after a successful skill. */
    method FinishRun(ghost s: M.Store)
      requires |events| == 2 && task.state == Working
      modifies this`events, task`state
      ensures Execution(events, task.View(), s, true) == Finish(sch, old(events), old(task.View()), s)
    {
      if task.artifacts != [] {
        var shown := Send(3, ArtifactEvent(task.View(), task.artifacts));
        if !shown { return; }
      }
      var ok := task.Transition(Completed);
      assert ok;
      var sent := Send(4, StatusEvent(task.View()));
      if !sent { return; }
      sent := Send(5, DoneEvent(task.View()));
    }
  }

  /** A cancel that is answered with a task has stored what it answers. */
  lemma CancelAnswersTruly(s: M.Store, ns: string, taskId: string, at: Instant)
    requires CancelAnswer(s, ns, taskId).TaskResponse?
    ensures var answered, final := CancelAnswer(s, ns, taskId).task, CancelResult(s, ns, taskId, at);
            M.TaskKey(ns, answered.id) in final.tasks && final.tasks[M.TaskKey(ns, answered.id)] == ToStorage(answered)
  {
    CancelLeaves(s, ns, taskId, at);
  }
}
