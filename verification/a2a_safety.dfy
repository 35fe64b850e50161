/** The A2A server as a client of the protocol: every request is at most one protocol step, so no run of requests breaks safety. */
module A2ASafety {
  import opened Messages
  import opened ActiveClaims
  import opened Protocol
  import opened Heartbeats
  import opened A2ATypes
  import opened Tasks
  import opened TaskProperties
  import Scans
  import M = Memory
  import C = Client

  // ---------- What a request does to the log ----------

  /** The protocol step a skill takes, if it takes one. */
  function SkillSteps(call: SkillCall, env: Env): seq<Step> {
    match call
    case ClaimResource(req) =>
      [ClaimStep(if req.agentId == "" then req.(agentId := env.caller) else req, env.claimId, env.checked, env.created, env.stored)]
    case ReleaseResource(claimId) => [ReleaseStep(claimId, "", env.stored)]
    case _ => []
  }

  /** The protocol step a request amounts to, if any: that of its skill, if the skill is reached, or a cancelled task's release. */
  function RequestSteps(s: M.Store, ns: string, request: ServerStep): seq<Step> {
    match request
    case SendStep(req, env) => if Rejected(s, ns, req) then [] else SkillSteps(req.call, env)
    case SubscribeStep(streams, sch, req, env) =>
      if Rejected(s, ns, req) || !streams || sch.cancelAt <= 2 then [] else SkillSteps(req.call, env)
    case CancelStep(taskId, at) =>
      var key := M.TaskKey(ns, taskId);
      if taskId == "" || key !in s.tasks || Terminal(s.tasks[key].state) || s.tasks[key].claimId == "" then []
      else [ReleaseStep(s.tasks[key].claimId, "", at)]
    case LogStep(_, _) => []
  }

  predicate SameLogs(s: M.Store, s': M.Store) { s'.messages == s.messages && s'.offsets == s.offsets }

  /** `s` is a sound store whose log is that of the protocol state. */
  ghost predicate Shows(s: M.Store, ns: string, st: State) { M.Contiguous(s) && st.log == M.LogOf(s, ns) }

  lemma SameLogsShowTheSame(s: M.Store, s': M.Store, ns: string, st: State)
    requires Shows(s, ns, st) && SameLogs(s, s')
    ensures Shows(s', ns, st)
  {
    M.TasksAreApart(s, s');
  }

  /** A stored message is one protocol step on either side. */
  lemma AppendShows(s: M.Store, ns: string, st: State, draft: Message, at: Instant, next: State)
    requires Shows(s, ns, st) && next.log == Protocol.Store(st.log, ns, draft, at)
    ensures Shows(M.Appended(s, ns, draft, at), ns, next)
  {
    M.AppendKeepsContiguous(s, ns, draft, at);
    C.AppendedMessage(s, ns, draft, at);
  }

  function Reached(ns: string, st: State, steps: seq<Step>): State { Final(MemoryBackend, ns, st, steps) }

  lemma NoStep(ns: string, st: State, none: seq<Step>)
    requires none == []
    ensures Reached(ns, st, none) == st
  {}

  lemma OneStep(ns: string, st: State, step: Step)
    ensures Reached(ns, st, [step]) == After(MemoryBackend, ns, st, step)
  {
    NoStep(ns, After(MemoryBackend, ns, st, step), [step][1..]);
  }

  lemma ClaimSkillShows(s: M.Store, ns: string, t: TaskView, req: ClaimRequest, env: Env, st: State)
    requires Shows(s, ns, st)
    ensures Shows(Execute(s, ns, t, ClaimResource(req), env).store, ns, Reached(ns, st, SkillSteps(ClaimResource(req), env)))
  {
    var step := SkillSteps(ClaimResource(req), env)[0];
    var c := ClaimFor(req, env);
    assert c == NewClaim(step.req, step.claimId, step.created);
    OneStep(ns, st, step);
    if ReportFor(MemoryBackend, st.log, c, env.checked) == [] {
      AppendShows(s, ns, st, ClaimDraft(c), env.stored, After(MemoryBackend, ns, st, step));
    }
  }

  lemma SkillShows(s: M.Store, ns: string, t: TaskView, call: SkillCall, env: Env, st: State)
    requires Shows(s, ns, st)
    ensures Shows(Execute(s, ns, t, call, env).store, ns, Reached(ns, st, SkillSteps(call, env)))
  {
    match call
    case ClaimResource(req) => ClaimSkillShows(s, ns, t, req, env, st);
    case ReleaseResource(id) =>
      var step := ReleaseStep(id, "", env.stored);
      OneStep(ns, st, step);
      AppendShows(s, ns, st, RefDraft(ReleaseMsg, "", id), env.stored, After(MemoryBackend, ns, st, step));
    case _ => NoStep(ns, st, SkillSteps(call, env));
  }

  lemma {:induction false} HandlingKeepsLogs(s: M.Store, ns: string, taskId: string, events: seq<TaskEvent>)
    ensures SameLogs(s, EventsHandled(s, ns, taskId, events))
    decreases |events|
  {
    if events != [] {
      match events[0] {
        case StatusEvent(_) => HandlingKeepsLogs(s, ns, taskId, events[1..]);
        case ArtifactEvent(_, arts) =>
          ArtifactsKeepTasks(s, ns, taskId, arts);
          HandlingKeepsLogs(ArtifactsStored(s, ns, taskId, arts), ns, taskId, events[1..]);
        case DoneEvent(_) =>
        case ErrorEvent(_, _) =>
      }
    }
  }

  lemma SendShows(s: M.Store, ns: string, req: TaskRequest, env: Env, st: State)
    requires Shows(s, ns, st)
    ensures Shows(SendResult(s, ns, req, env), ns, Reached(ns, st, RequestSteps(s, ns, SendStep(req, env))))
  {
    if !Rejected(s, ns, req) {
      var r := Ran(s, ns, req, env);
      SameLogsShowTheSame(s, Accepted(s, ns, req), ns, st);
      SkillShows(Accepted(s, ns, req), ns, Moved(NewTask(req.id, req.sessionId, ns), Working), req.call, env, st);
      ArtifactsKeepTasks(r.store, ns, req.id, r.artifacts);
      SameLogsShowTheSame(r.store, SendResult(s, ns, req, env), ns, Reached(ns, st, SkillSteps(req.call, env)));
    }
  }

  /** A stream's execution leaves the store of its skill, or the one it found. */
  lemma ExecutionStore(sch: Schedule, t: TaskView, s: M.Store, ns: string, call: SkillCall, env: Env)
    requires t.state == Submitted
    ensures Executed(sch, t, s, ns, call, env).store
            == if sch.cancelAt > 2 then Execute(s, ns, Moved(t, Working), call, env).store else s
  {}

  lemma SubscribeShows(streams: bool, sch: Schedule, s: M.Store, ns: string, req: TaskRequest, env: Env, st: State)
    requires Shows(s, ns, st)
    ensures Shows(SubscribeResult(streams, sch, s, ns, req, env), ns,
                  Reached(ns, st, RequestSteps(s, ns, SubscribeStep(streams, sch, req, env))))
  {
    var steps := RequestSteps(s, ns, SubscribeStep(streams, sch, req, env));
    if !Rejected(s, ns, req) {
      var t, accepted := NewTask(req.id, req.sessionId, ns), Accepted(s, ns, req);
      SameLogsShowTheSame(s, accepted, ns, st);
      if streams {
        var x := Executed(sch, t, accepted, ns, req.call, env);
        ExecutionStore(sch, t, accepted, ns, req.call, env);
        SkillShows(accepted, ns, Moved(t, Working), req.call, env, st);
        HandlingKeepsLogs(x.store, ns, req.id, x.events);
        SameLogsShowTheSame(x.store, SubscribeResult(streams, sch, s, ns, req, env), ns, Reached(ns, st, steps));
      }
    }
  }

  lemma CancelShows(s: M.Store, ns: string, taskId: string, at: Instant, st: State)
    requires Shows(s, ns, st)
    ensures Shows(CancelResult(s, ns, taskId, at), ns, Reached(ns, st, RequestSteps(s, ns, CancelStep(taskId, at))))
  {
    var steps, result := RequestSteps(s, ns, CancelStep(taskId, at)), CancelResult(s, ns, taskId, at);
    if steps == [] {
      SameLogsShowTheSame(s, result, ns, st);
    } else {
      var id := s.tasks[M.TaskKey(ns, taskId)].claimId;
      var released := M.Appended(s, ns, RefDraft(ReleaseMsg, "", id), at);
      OneStep(ns, st, ReleaseStep(id, "", at));
      AppendShows(s, ns, st, RefDraft(ReleaseMsg, "", id), at, Reached(ns, st, steps));
      SameLogsShowTheSame(released, result, ns, Reached(ns, st, steps));
    }
  }

  // ---------- Runs of the server and its neighbours ----------

  /** A request to the server, or a protocol step some other client of the namespace takes. */
  datatype SystemStep = Request(request: ServerStep) | Direct(step: Step)

  function DirectNext(s: M.Store, ns: string, step: Step): M.Store {
    match step
    case ClaimStep(req, id, checked, created, stored) =>
      var c := NewClaim(req, id, created);
      if ReportFor(MemoryBackend, M.LogOf(s, ns), c, checked) == [] then M.Appended(s, ns, ClaimDraft(c), stored) else s
    case ReleaseStep(id, agentId, stored) => M.Appended(s, ns, RefDraft(ReleaseMsg, agentId, id), stored)
    case TransferStep(id, stored) => M.Appended(s, ns, RefDraft(TransferMsg, "", id), stored)
    case HeartbeatStep(id, stored) => M.Appended(s, ns, RefDraft(HeartbeatMsg, "", id), stored)
    case IntentStep(id, intent, stored) => M.Appended(s, ns, RefDraft(IntentMsg, "", id, intent), stored)
    case SweepStep(_, _) => s
  }

  function SystemNext(s: M.Store, ns: string, step: SystemStep): M.Store {
    match step
    case Request(request) => ServerNext(s, ns, request)
    case Direct(direct) => DirectNext(s, ns, direct)
  }

  function StepsOf(s: M.Store, ns: string, step: SystemStep): seq<Step> {
    match step
    case Request(request) => RequestSteps(s, ns, request)
    case Direct(direct) => [direct]
  }

  function SystemRun(s: M.Store, ns: string, steps: seq<SystemStep>): M.Store
    decreases |steps|
  {
    if steps == [] then s else SystemRun(SystemNext(s, ns, steps[0]), ns, steps[1..])
  }

  /** A run of the system as a run of the protocol. */
  function StepsOfRun(s: M.Store, ns: string, steps: seq<SystemStep>): seq<Step>
    decreases |steps|
  {
    if steps == [] then [] else StepsOf(s, ns, steps[0]) + StepsOfRun(SystemNext(s, ns, steps[0]), ns, steps[1..])
  }

  lemma DirectShows(s: M.Store, ns: string, step: Step, st: State)
    requires Shows(s, ns, st)
    ensures Shows(DirectNext(s, ns, step), ns, Reached(ns, st, [step]))
  {
    OneStep(ns, st, step);
    var next := After(MemoryBackend, ns, st, step);
    match step
    case ClaimStep(req, id, checked, created, stored) =>
      if ReportFor(MemoryBackend, st.log, NewClaim(req, id, created), checked) == [] {
        AppendShows(s, ns, st, ClaimDraft(NewClaim(req, id, created)), stored, next);
      }
    case ReleaseStep(id, agentId, stored) => AppendShows(s, ns, st, RefDraft(ReleaseMsg, agentId, id), stored, next);
    case TransferStep(id, stored) => AppendShows(s, ns, st, RefDraft(TransferMsg, "", id), stored, next);
    case HeartbeatStep(id, stored) => AppendShows(s, ns, st, RefDraft(HeartbeatMsg, "", id), stored, next);
    case IntentStep(id, intent, stored) => AppendShows(s, ns, st, RefDraft(IntentMsg, "", id, intent), stored, next);
    case SweepStep(_, _) =>
  }

  /** Every request, under every cancellation, is the protocol steps `RequestSteps` names: none or one. */
  lemma SystemStepRefines(s: M.Store, ns: string, step: SystemStep, st: State)
    requires Shows(s, ns, st) && !(step.Request? && step.request.LogStep?)
    ensures Shows(SystemNext(s, ns, step), ns, Reached(ns, st, StepsOf(s, ns, step)))
    ensures |StepsOf(s, ns, step)| <= 1
  {
    match step
    case Direct(direct) => DirectShows(s, ns, direct, st);
    case Request(SendStep(req, env)) => SendShows(s, ns, req, env, st);
    case Request(SubscribeStep(streams, sch, req, env)) => SubscribeShows(streams, sch, s, ns, req, env, st);
    case Request(CancelStep(taskId, at)) => CancelShows(s, ns, taskId, at, st);
  }

  // ---------- Clocks ----------

  /** The readings of the clock a step takes come in order, none before `clock`. */
  predicate Timely(clock: Instant, step: SystemStep) {
    match step
    case Request(SendStep(_, env)) => clock <= env.checked <= env.created <= env.stored
    case Request(SubscribeStep(_, _, _, env)) => clock <= env.checked <= env.created <= env.stored
    case Request(CancelStep(_, at)) => clock <= at
    case Request(LogStep(_, _)) => false
    case Direct(direct) => Legal(State([], clock, {}), direct)
  }

  function EndOf(step: SystemStep): Instant {
    match step
    case Request(SendStep(_, env)) => env.stored
    case Request(SubscribeStep(_, _, _, env)) => env.stored
    case Request(CancelStep(_, at)) => at
    case Request(LogStep(_, _)) => 0
    case Direct(direct) => direct.stored
  }

  ghost predicate InOrder(clock: Instant, steps: seq<SystemStep>)
    decreases |steps|
  {
    steps != [] ==> Timely(clock, steps[0]) && InOrder(EndOf(steps[0]), steps[1..])
  }

  function ClockAfter(clock: Instant, steps: seq<SystemStep>): Instant { if steps == [] then clock else EndOf(Last(steps)) }

  lemma TimelyIsLegal(s: M.Store, ns: string, step: SystemStep, clock: Instant, st: State)
    requires st.clock <= clock && Timely(clock, step)
    ensures clock <= EndOf(step) && Reached(ns, st, StepsOf(s, ns, step)).clock <= EndOf(step)
    ensures forall p :: p in StepsOf(s, ns, step) ==> Legal(st, p)
  {
    var steps := StepsOf(s, ns, step);
    if steps == [] { NoStep(ns, st, steps); } else { OneStep(ns, st, steps[0]); assert steps == [steps[0]]; }
  }

  // ---------- Safety ----------

  /** Neither the server nor anyone else heartbeats. */
  ghost predicate Heartbeatless(steps: seq<SystemStep>) {
    forall step :: step in steps ==> !(step.Direct? && step.step.HeartbeatStep?)
  }

  lemma ShowsIsGood(s: M.Store, ns: string, st: State)
    requires Shows(s, ns, st)
    ensures Good(st.log)
  {
    assert M.ContiguousAt(s, ns);
    M.ContiguousIsSorted(s, ns);
  }

  /** No skill sends a heartbeat. */
  lemma RequestsDoNotBeat(s: M.Store, ns: string, step: SystemStep)
    requires Heartbeatless([step])
    ensures |StepsOf(s, ns, step)| <= 1 && forall p :: p in StepsOf(s, ns, step) ==> !p.HeartbeatStep?
  {
    assert step in [step];
  }

  lemma QuietStepsKeepSafe(ns: string, st: State, steps: seq<Step>)
    requires |steps| <= 1 && forall p :: p in steps ==> !p.HeartbeatStep? && Legal(st, p)
    requires Good(st.log) && SafeState(MemoryBackend, st)
    ensures SafeState(MemoryBackend, Reached(ns, st, steps))
  {
    if steps == [] {
      NoStep(ns, st, steps);
    } else {
      assert steps == [steps[0]] && steps[0] in steps;
      OneStep(ns, st, steps[0]);
      StepKeepsSafe(MemoryBackend, ns, st, steps[0]);
    }
  }

  lemma SystemStepKeepsSafe(s: M.Store, ns: string, step: SystemStep, clock: Instant, st: State)
    requires Shows(s, ns, st) && st.clock <= clock && Timely(clock, step) && SafeState(MemoryBackend, st)
    requires Heartbeatless([step])
    ensures SafeState(MemoryBackend, Reached(ns, st, StepsOf(s, ns, step)))
  {
    ShowsIsGood(s, ns, st);
    RequestsDoNotBeat(s, ns, step);
    TimelyIsLegal(s, ns, step, clock, st);
    QuietStepsKeepSafe(ns, st, StepsOf(s, ns, step));
  }

  /**
   * From a safe, contiguous store, with clocks that do not run backwards: after any run of send, stream
   * and cancel requests, under any cancellations, and of claims, releases, transfers and intents of other
   * clients in between, no active claim was granted against an earlier active one, then and at any later time.
   */
  lemma {:induction false} SystemRunsAreSafe(s: M.Store, ns: string, steps: seq<SystemStep>, clock: Instant, st: State, later: Instant)
    requires Shows(s, ns, st) && st.clock <= clock && InOrder(clock, steps) && SafeState(MemoryBackend, st)
    requires Heartbeatless(steps) && ClockAfter(clock, steps) <= later
    ensures M.Contiguous(SystemRun(s, ns, steps))
    ensures ConflictFree(Active(M.LogOf(SystemRun(s, ns, steps), ns), later))
    decreases |steps|
  {
    if steps == [] {
      SafeStaysSafe(MemoryBackend, st, later);
    } else {
      var step, next := steps[0], Reached(ns, st, StepsOf(s, ns, steps[0]));
      assert step in steps;
      SystemStepRefines(s, ns, step, st);
      SystemStepKeepsSafe(s, ns, step, clock, st);
      TimelyIsLegal(s, ns, step, clock, st);
      assert ClockAfter(EndOf(step), steps[1..]) == ClockAfter(clock, steps);
      SystemRunsAreSafe(SystemNext(s, ns, step), ns, steps[1..], EndOf(step), next, later);
    }
  }

  // ---------- Refinement of whole runs, heartbeats included ----------

  lemma {:induction false} ReachedConcat(ns: string, st: State, first: seq<Step>, rest: seq<Step>)
    requires |first| <= 1
    ensures Reached(ns, st, first + rest) == Reached(ns, Reached(ns, st, first), rest)
  {
    if first == [] {
      assert first + rest == rest;
    } else {
      assert (first + rest)[1..] == rest && first == [first[0]];
      OneStep(ns, st, first[0]);
    }
  }

  lemma LegalConcat(ns: string, st: State, first: seq<Step>, rest: seq<Step>)
    requires |first| <= 1 && forall p :: p in first ==> Legal(st, p)
    requires LegalRun(MemoryBackend, ns, Reached(ns, st, first), rest)
    ensures LegalRun(MemoryBackend, ns, st, first + rest)
  {
    if first == [] {
      assert first + rest == rest;
    } else {
      assert first == [first[0]] && first[0] in first && (first + rest)[1..] == rest;
      OneStep(ns, st, first[0]);
    }
  }

  /** Every run of the system is a run of the protocol, legal if the clocks are in order. */
  lemma {:induction false} SystemRunRefines(s: M.Store, ns: string, steps: seq<SystemStep>, clock: Instant, st: State)
    requires Shows(s, ns, st) && st.clock <= clock && InOrder(clock, steps)
    ensures Shows(SystemRun(s, ns, steps), ns, Reached(ns, st, StepsOfRun(s, ns, steps)))
    ensures LegalRun(MemoryBackend, ns, st, StepsOfRun(s, ns, steps))
    decreases |steps|
  {
    if steps != [] {
      var step, first, after := steps[0], StepsOf(s, ns, steps[0]), SystemNext(s, ns, steps[0]);
      SystemStepRefines(s, ns, step, st);
      TimelyIsLegal(s, ns, step, clock, st);
      SystemRunRefines(after, ns, steps[1..], EndOf(step), Reached(ns, st, first));
      ReachedConcat(ns, st, first, StepsOfRun(after, ns, steps[1..]));
      LegalConcat(ns, st, first, StepsOfRun(after, ns, steps[1..]));
    }
  }

  /** With fresh claim ids and no message about unknown ones, such a run is safe at every point exactly when its heartbeats are harmless. */
  lemma SystemRunsAreSafeIff(s: M.Store, ns: string, steps: seq<SystemStep>, clock: Instant, st: State)
    requires Shows(s, ns, st) && st.clock <= clock && InOrder(clock, steps) && SafeState(MemoryBackend, st)
    requires Scans.WellFormed(st.log) && Tracked(st) && "" !in st.used && DisciplinedRun(MemoryBackend, ns, st, StepsOfRun(s, ns, steps))
    ensures SafeThroughout(MemoryBackend, ns, st, StepsOfRun(s, ns, steps)) <==> HarmlessThroughout(ns, st, StepsOfRun(s, ns, steps))
  {
    SystemRunRefines(s, ns, steps, clock, st);
    ShowsIsGood(s, ns, st);
    MemoryRunsAreSafeIff(ns, st, StepsOfRun(s, ns, steps));
  }
}
