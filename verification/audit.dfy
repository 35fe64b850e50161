/** internal/server/audit.go: a bounded queue of audit events, drained in batches by one worker. */
module Audit {
  import opened Messages

  const QUEUE_SIZE := 256
  const BATCH_SIZE := 32

  datatype AuditEvent = AuditEvent(eventType: string, agentId: string, resourceUri: string, outcome: string, metadata: string)

  /** One call of `AppendAudit`: it writes event by event, and at an error, which is only printed, leaves the rest. */
  datatype Flush = Flush(events: seq<AuditEvent>, written: nat)

  /** `accepted` and `dropped` are the events that `Log` put in the channel or had to leave out, in order. */
  datatype State = State(
    queue: seq<AuditEvent>, batch: seq<AuditEvent>, flushed: seq<Flush>,
    accepted: seq<AuditEvent>, dropped: seq<AuditEvent>)

  const START := State([], [], [], [], [])

  /**
   * A call of `Log` with an event the level lets through, or one turn of the worker's `select`.
   * `room` is how many events storage takes before it fails: a flush succeeds if its batch is no larger.
   */
  datatype Step =
    | LogStep(event: AuditEvent)
    | ReceiveStep(room: nat)
    | TickStep(room: nat)

  function Written(batch: seq<AuditEvent>, room: nat): nat { if room < |batch| then room else |batch| }

  function Flushed(s: State, batch: seq<AuditEvent>, room: nat): State {
    s.(batch := [], flushed := s.flushed + [Flush(batch, Written(batch, room))])
  }

  function Next(s: State, step: Step): State {
    match step
    case LogStep(event) =>
      if |s.queue| < QUEUE_SIZE then s.(queue := s.queue + [event], accepted := s.accepted + [event])
      else s.(dropped := s.dropped + [event])
    case ReceiveStep(room) =>
      if s.queue == [] then s
      else
        var batch := s.batch + [s.queue[0]];
        var t := s.(queue := s.queue[1..], batch := batch);
        if |batch| >= BATCH_SIZE then Flushed(t, batch, room) else t
    case TickStep(room) =>
      if s.batch == [] then s else Flushed(s, s.batch, room)
  }

  class AuditLogger {
    var ch: seq<AuditEvent>
    var batch: seq<AuditEvent>
    var flushes: seq<Flush>
    ghost var accepted: seq<AuditEvent>
    ghost var dropped: seq<AuditEvent>

    ghost function Contents(): State
      reads this
    {
      State(ch, batch, flushes, accepted, dropped)
    }

    constructor ()
      ensures Contents() == START
    {
      ch, batch, flushes := [], [], [];
      accepted, dropped := [], [];
    }

    /** `wanted` is whether the logger's level lets the event's type through. */
    method Log(event: AuditEvent, wanted: bool) returns (sent: bool)
      modifies this
      ensures Contents() == if wanted then Next(old(Contents()), LogStep(event)) else old(Contents())
      ensures sent == (wanted && |old(ch)| < QUEUE_SIZE)
    {
      if !wanted { return false; }
      if |ch| < QUEUE_SIZE {
        ch := ch + [event];
        accepted := accepted + [event];
        sent := true;
      } else {
        dropped := dropped + [event];
        sent := false;
      }
    }

    method FlushBatch(room: nat)
      modifies this
      ensures Contents() == Flushed(old(Contents()), old(batch), room)
    {
      flushes := flushes + [Flush(batch, Written(batch, room))];
      batch := [];
    }

    /** The worker's first case; it is taken only when the channel holds an event. */
    method Receive(room: nat)
      requires ch != []
      modifies this
      ensures Contents() == Next(old(Contents()), ReceiveStep(room))
    {
      var event := ch[0];
      ch := ch[1..];
      batch := batch + [event];
      if |batch| >= BATCH_SIZE {
        FlushBatch(room);
      }
    }

    /** The worker's second case. */
    method Tick(room: nat)
      modifies this
      ensures Contents() == Next(old(Contents()), TickStep(room))
    {
      if |batch| > 0 {
        FlushBatch(room);
      }
    }
  }

  // ---------- What every run keeps ----------

  function Run(steps: seq<Step>): State {
    if steps == [] then START else Next(Run(Init(steps)), Last(steps))
  }

  /** All events handed to `AppendAudit`. */
  function Handed(flushed: seq<Flush>): seq<AuditEvent> {
    if flushed == [] then [] else Handed(Init(flushed)) + Last(flushed).events
  }

  ghost predicate Sound(f: Flush) { f.written <= |f.events| }

  function FirstOf(events: seq<AuditEvent>, n: nat): seq<AuditEvent> { if n < |events| then events[..n] else events }

  /** The events that reached storage. */
  function Stored(flushed: seq<Flush>): seq<AuditEvent> {
    if flushed == [] then [] else Stored(Init(flushed)) + FirstOf(Last(flushed).events, Last(flushed).written)
  }

  /** The events `Log` was asked to send, in order. */
  function Logged(steps: seq<Step>): seq<AuditEvent> {
    if steps == [] then []
    else Logged(Init(steps)) + if Last(steps).LogStep? then [Last(steps).event] else []
  }

  ghost predicate Kept(s: State) {
    && Handed(s.flushed) + s.batch + s.queue == s.accepted
    && (forall f :: f in s.flushed ==> 1 <= |f.events| <= BATCH_SIZE && Sound(f))
    && |s.batch| < BATCH_SIZE && |s.queue| <= QUEUE_SIZE
  }

  lemma HandedConcat(flushed: seq<Flush>, f: Flush)
    ensures Handed(flushed + [f]) == Handed(flushed) + f.events
  {
    assert Init(flushed + [f]) == flushed && Last(flushed + [f]) == f;
  }

  lemma FlushKeeps(s: State, batch: seq<AuditEvent>, room: nat)
    requires 1 <= |batch| <= BATCH_SIZE && |s.queue| <= QUEUE_SIZE
    requires Handed(s.flushed) + batch + s.queue == s.accepted
    requires forall f :: f in s.flushed ==> 1 <= |f.events| <= BATCH_SIZE && Sound(f)
    ensures Kept(Flushed(s, batch, room))
  {
    var flush := Flush(batch, Written(batch, room));
    HandedConcat(s.flushed, flush);
    assert Handed(s.flushed + [flush]) + [] + s.queue == s.accepted;
  }

  lemma LogKeeps(s: State, event: AuditEvent)
    requires Kept(s)
    ensures Kept(Next(s, LogStep(event)))
  {
    var sent := Handed(s.flushed) + s.batch;
    assert sent + (s.queue + [event]) == (sent + s.queue) + [event];
  }

  lemma StepKeeps(s: State, step: Step)
    requires Kept(s)
    ensures Kept(Next(s, step))
  {
    match step
    case LogStep(event) => LogKeeps(s, event);
    case ReceiveStep(room) =>
      if s.queue != [] {
        var batch := s.batch + [s.queue[0]];
        assert s.batch + s.queue == batch + s.queue[1..];
        assert Handed(s.flushed) + batch + s.queue[1..] == Handed(s.flushed) + s.batch + s.queue;
        if |batch| >= BATCH_SIZE { FlushKeeps(s.(queue := s.queue[1..], batch := batch), batch, room); }
      }
    case TickStep(room) =>
      if s.batch != [] { FlushKeeps(s, s.batch, room); }
  }

  /**
   * At every point of every run, what has been flushed, then the pending batch, then the queue, is
   * the sequence of accepted events in order; every flush holds 1 to 32 events.
   */
  lemma {:induction false} RunKeeps(steps: seq<Step>)
    ensures Kept(Run(steps))
    ensures |Run(steps).queue| <= 256 && forall f :: f in Run(steps).flushed ==> 1 <= |f.events| <= 32
  {
    if steps != [] {
      RunKeeps(Init(steps));
      StepKeeps(Run(Init(steps)), Last(steps));
    }
  }

  /** An event is accepted, behind those before it, exactly when fewer than 256 events are waiting; otherwise it is dropped. */
  lemma DroppedIff(steps: seq<Step>, event: AuditEvent)
    ensures var before, after := Run(steps), Run(steps + [LogStep(event)]);
            if |before.queue| < 256
            then after.accepted == before.accepted + [event] && after.dropped == before.dropped
            else |before.queue| == 256 && after.accepted == before.accepted && after.dropped == before.dropped + [event]
  {
    RunKeeps(steps);
    assert Init(steps + [LogStep(event)]) == steps && Last(steps + [LogStep(event)]) == LogStep(event);
  }

  lemma StepLosesNothingElse(s: State, step: Step)
    ensures multiset(Next(s, step).accepted) + multiset(Next(s, step).dropped)
            == multiset(s.accepted) + multiset(s.dropped) + multiset(if step.LogStep? then [step.event] else [])
  {}

  /** Accepted and dropped events together are exactly the events logged. */
  lemma {:induction false} NothingElseIsLost(steps: seq<Step>)
    ensures multiset(Run(steps).accepted) + multiset(Run(steps).dropped) == multiset(Logged(steps))
  {
    if steps != [] {
      NothingElseIsLost(Init(steps));
      StepLosesNothingElse(Run(Init(steps)), Last(steps));
    }
  }

  lemma ShorterPieces(xs: seq<AuditEvent>, ys: seq<AuditEvent>, es: seq<AuditEvent>, n: nat)
    requires n <= |es| && |xs| <= |ys|
    ensures xs + FirstOf(es, n) == ys + es <==> xs == ys && n == |es|
  {
    if xs + FirstOf(es, n) == ys + es {
      assert |xs| + n == |ys| + |es|;
      assert xs == (xs + es)[..|xs|] && ys == (ys + es)[..|ys|];
    }
  }

  /** What reached storage is all that was flushed exactly when no flush failed before its end. */
  lemma {:induction false} StoredUnlessFlushFails(flushed: seq<Flush>)
    requires forall f :: f in flushed ==> Sound(f)
    ensures |Stored(flushed)| <= |Handed(flushed)|
    ensures Stored(flushed) == Handed(flushed) <==> forall f :: f in flushed ==> f.written == |f.events|
  {
    if flushed != [] {
      var last := Last(flushed);
      assert forall f :: f in flushed <==> f in Init(flushed) || f == last;
      assert Sound(last);
      StoredUnlessFlushFails(Init(flushed));
      ShorterPieces(Stored(Init(flushed)), Handed(Init(flushed)), last.events, last.written);
    }
  }

  // ---------- What each step puts into storage ----------

  lemma StoredConcat(flushed: seq<Flush>, f: Flush)
    ensures Stored(flushed + [f]) == Stored(flushed) + FirstOf(f.events, f.written)
  {
    assert Init(flushed + [f]) == flushed && Last(flushed + [f]) == f;
  }

  /** A flush puts its events into storage, in order, up to the first that storage does not take. */
  lemma FlushStores(s: State, batch: seq<AuditEvent>, room: nat)
    ensures var after := Flushed(s, batch, room);
            && Stored(after.flushed) == Stored(s.flushed) + FirstOf(batch, room)
            && after.batch == [] && after.queue == s.queue && after.accepted == s.accepted && after.dropped == s.dropped
  {
    StoredConcat(s.flushed, Flush(batch, Written(batch, room)));
  }

  /** A received event joins the batch; the thirty-second is flushed with the rest. */
  lemma ReceiveStores(s: State, room: nat)
    requires s.queue != []
    ensures var after, batch := Next(s, ReceiveStep(room)), s.batch + [s.queue[0]];
            && after.queue == s.queue[1..] && after.accepted == s.accepted && after.dropped == s.dropped
            && (if |batch| < 32 then after.batch == batch && Stored(after.flushed) == Stored(s.flushed)
                else after.batch == [] && Stored(after.flushed) == Stored(s.flushed) + FirstOf(batch, room))
  {
    var batch := s.batch + [s.queue[0]];
    FlushStores(s.(queue := s.queue[1..], batch := batch), batch, room);
  }

  /** A tick flushes whatever is pending: with room enough nothing pending is left unstored. */
  lemma TickStores(s: State, room: nat)
    ensures var after := Next(s, TickStep(room));
            && after.batch == [] && after.queue == s.queue && after.accepted == s.accepted && after.dropped == s.dropped
            && Stored(after.flushed) == Stored(s.flushed) + FirstOf(s.batch, room)
            && (room >= |s.batch| ==> Stored(after.flushed) == Stored(s.flushed) + s.batch)
  {
    if s.batch == [] {
      assert Stored(s.flushed) + [] == Stored(s.flushed);
    } else {
      FlushStores(s, s.batch, room);
    }
  }

  /** Storage takes a full batch whenever the worker flushes. */
  predicate Roomy(step: Step) { step.LogStep? || step.room >= 32 }

  ghost predicate AllInPlace(s: State) { Stored(s.flushed) + s.batch + s.queue == s.accepted }

  lemma Regrouped(stored: seq<AuditEvent>, batch: seq<AuditEvent>, queue: seq<AuditEvent>)
    requires queue != []
    ensures stored + (batch + [queue[0]]) + queue[1..] == stored + batch + queue
  {
    assert batch + queue == (batch + [queue[0]]) + queue[1..];
  }

  lemma RoomyReceive(s: State, room: nat)
    requires AllInPlace(s) && |s.batch| < 32 && room >= 32 && s.queue != []
    ensures AllInPlace(Next(s, ReceiveStep(room)))
  {
    var batch := s.batch + [s.queue[0]];
    ReceiveStores(s, room);
    Regrouped(Stored(s.flushed), s.batch, s.queue);
    assert (Stored(s.flushed) + batch) + [] == Stored(s.flushed) + batch;
  }

  lemma RoomyStepLosesNothing(s: State, step: Step)
    requires AllInPlace(s) && |s.batch| < 32 && Roomy(step)
    ensures AllInPlace(Next(s, step))
  {
    match step
    case LogStep(event) =>
      var before := Stored(s.flushed) + s.batch;
      assert before + (s.queue + [event]) == (before + s.queue) + [event];
    case ReceiveStep(room) => if s.queue != [] { RoomyReceive(s, room); }
    case TickStep(room) =>
      TickStores(s, room);
      assert (Stored(s.flushed) + s.batch) + [] == Stored(s.flushed) + s.batch;
  }

  /** With a healthy storage, at every point of every run, storage, then the pending batch, then the queue, hold all accepted events in order. */
  lemma {:induction false} HealthyStorageGetsAll(steps: seq<Step>)
    requires forall step :: step in steps ==> Roomy(step)
    ensures Stored(Run(steps).flushed) + Run(steps).batch + Run(steps).queue == Run(steps).accepted
  {
    if steps != [] {
      assert Last(steps) in steps;
      HealthyStorageGetsAll(Init(steps));
      RunKeeps(Init(steps));
      RoomyStepLosesNothing(Run(Init(steps)), Last(steps));
    }
  }

  /** Every run's storage holds exactly the flushed events unless some flush failed. */
  lemma RunStores(steps: seq<Step>)
    ensures Kept(Run(steps))
    ensures Stored(Run(steps).flushed) == Handed(Run(steps).flushed)
            <==> forall f :: f in Run(steps).flushed ==> f.written == |f.events|
  {
    RunKeeps(steps);
    StoredUnlessFlushFails(Run(steps).flushed);
  }
}
