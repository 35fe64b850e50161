/** internal/memory/memory.go: the in-memory provider. */
module Memory {
  import opened Messages
  import opened ActiveClaims
  import opened Conflicts
  import opened Queries
  import opened A2ATypes

  /** The provider's maps as one value. A missing key reads as Go's zero value. */
  datatype Store = Store(
    namespaces: map<string, Instant>,
    messages: map<string, seq<Message>>,
    offsets: map<string, nat>,
    tasks: map<string, StoredTask>,
    history: map<string, seq<HistoryMessage>>,
    artifacts: map<string, seq<Artifact>>)

  function LogOf(s: Store, ns: string): seq<Message> { if ns in s.messages then s.messages[ns] else [] }

  function CounterOf(s: Store, ns: string): nat { if ns in s.offsets then s.offsets[ns] else 0 }

  function HistoryOf(s: Store, key: string): seq<HistoryMessage> { if key in s.history then s.history[key] else [] }

  function ArtifactsOf(s: Store, key: string): seq<Artifact> { if key in s.artifacts then s.artifacts[key] else [] }

  function TaskKey(ns: string, taskId: string): string { ns + "/" + taskId }

  ghost predicate ContiguousAt(s: Store, ns: string) {
    && |LogOf(s, ns)| == CounterOf(s, ns)
    && forall i :: 0 <= i < |LogOf(s, ns)| ==> LogOf(s, ns)[i].offset == i + 1
  }

  /** In every namespace the offsets are exactly 1..n and the counter is n. */
  ghost predicate Contiguous(s: Store) { forall ns :: ContiguousAt(s, ns) }

  lemma ContiguousIsSorted(s: Store, ns: string)
    requires ContiguousAt(s, ns)
    ensures Sorted(LogOf(s, ns)) && Matching(LogOf(s, ns), EVERYTHING) == LogOf(s, ns)
  {
    MatchingEverything(LogOf(s, ns));
  }

  // ---------- What the operations do to the store ----------

  /** One message counted, stamped and stored. */
  function Appended(s: Store, ns: string, m: Message, at: Instant): Store {
    var offset := CounterOf(s, ns) + 1;
    s.(offsets := s.offsets[ns := offset],
       messages := s.messages[ns := LogOf(s, ns) + [m.(offset := offset, namespace := ns, timestamp := at)]])
  }

  /** A batch, each message with its own reading of the clock. */
  function AllAppended(s: Store, ns: string, msgs: seq<Message>, times: seq<Instant>): Store
    requires |times| == |msgs|
  {
    if msgs == [] then s
    else Appended(AllAppended(s, ns, Init(msgs), Init(times)), ns, Last(msgs), Last(times))
  }

  function Created(s: Store, ns: string, createdAt: Instant): Store {
    if ns in s.namespaces then s
    else s.(namespaces := s.namespaces[ns := createdAt], messages := s.messages[ns := []], offsets := s.offsets[ns := 0])
  }

  /** The task keys a deletion of `ns` sweeps up: those that start with `ns` and a slash. */
  function Doomed(s: Store, ns: string): set<string> {
    set k | k in s.tasks && |ns + "/"| < |k| && ns + "/" <= k
  }

  function Deleted(s: Store, ns: string): Store {
    Store(s.namespaces - {ns}, s.messages - {ns}, s.offsets - {ns},
          s.tasks - Doomed(s, ns), s.history - Doomed(s, ns), s.artifacts - Doomed(s, ns))
  }

  function TaskCreated(s: Store, ns: string, task: StoredTask): Store {
    if TaskKey(ns, task.id) in s.tasks then s else s.(tasks := s.tasks[TaskKey(ns, task.id) := task])
  }

  function TaskUpdated(s: Store, ns: string, task: StoredTask): Store {
    if TaskKey(ns, task.id) in s.tasks then s.(tasks := s.tasks[TaskKey(ns, task.id) := task]) else s
  }

  function HistoryAppended(s: Store, ns: string, taskId: string, msg: HistoryMessage): Store {
    s.(history := s.history[TaskKey(ns, taskId) := HistoryOf(s, TaskKey(ns, taskId)) + [msg]])
  }

  function ArtifactCreated(s: Store, ns: string, taskId: string, art: Artifact): Store {
    s.(artifacts := s.artifacts[TaskKey(ns, taskId) := ArtifactsOf(s, TaskKey(ns, taskId)) + [art]])
  }

  lemma AppendedFacts(s: Store, ns: string, m: Message, at: Instant)
    ensures CounterOf(Appended(s, ns, m, at), ns) == CounterOf(s, ns) + 1
    ensures LogOf(Appended(s, ns, m, at), ns)
            == LogOf(s, ns) + [m.(offset := CounterOf(s, ns) + 1, namespace := ns, timestamp := at)]
    ensures forall other :: other != ns ==>
              LogOf(Appended(s, ns, m, at), other) == LogOf(s, other) && CounterOf(Appended(s, ns, m, at), other) == CounterOf(s, other)
  {}

  /** A batch as it is stored: numbered on from `base`, each message with its own time. */
  ghost predicate IsStamped(added: seq<Message>, ns: string, base: nat, msgs: seq<Message>, times: seq<Instant>)
    requires |times| == |msgs|
  {
    && |added| == |msgs|
    && forall i :: 0 <= i < |msgs| ==> added[i] == msgs[i].(offset := base + i + 1, namespace := ns, timestamp := times[i])
  }

  /** A batch adds its messages in order behind the log, numbered on from the counter. */
  lemma {:induction false} BatchIsNumbered(s: Store, ns: string, msgs: seq<Message>, times: seq<Instant>) returns (added: seq<Message>)
    requires |times| == |msgs|
    ensures IsStamped(added, ns, CounterOf(s, ns), msgs, times)
    ensures LogOf(AllAppended(s, ns, msgs, times), ns) == LogOf(s, ns) + added
    ensures CounterOf(AllAppended(s, ns, msgs, times), ns) == CounterOf(s, ns) + |msgs|
  {
    if msgs == [] {
      added := [];
    } else {
      var before := BatchIsNumbered(s, ns, Init(msgs), Init(times));
      added := LastIsNumbered(s, AllAppended(s, ns, Init(msgs), Init(times)), ns, msgs, times, before);
    }
  }

  lemma LastIsNumbered(
    s: Store, mid: Store, ns: string, msgs: seq<Message>, times: seq<Instant>, before: seq<Message>) returns (added: seq<Message>)
    requires msgs != [] && |times| == |msgs| && IsStamped(before, ns, CounterOf(s, ns), Init(msgs), Init(times))
    requires LogOf(mid, ns) == LogOf(s, ns) + before && CounterOf(mid, ns) == CounterOf(s, ns) + |before|
    ensures IsStamped(added, ns, CounterOf(s, ns), msgs, times)
    ensures LogOf(Appended(mid, ns, Last(msgs), Last(times)), ns) == LogOf(s, ns) + added
    ensures CounterOf(Appended(mid, ns, Last(msgs), Last(times)), ns) == CounterOf(s, ns) + |msgs|
  {
    AppendedFacts(mid, ns, Last(msgs), Last(times));
    var last := Last(msgs).(offset := CounterOf(s, ns) + |msgs|, namespace := ns, timestamp := Last(times));
    added := before + [last];
    assert (LogOf(s, ns) + before) + [last] == LogOf(s, ns) + added;
  }

  /** And changes no other namespace. */
  lemma {:induction false} BatchStaysInside(s: Store, ns: string, msgs: seq<Message>, times: seq<Instant>, other: string)
    requires |times| == |msgs| && other != ns
    ensures LogOf(AllAppended(s, ns, msgs, times), other) == LogOf(s, other)
    ensures CounterOf(AllAppended(s, ns, msgs, times), other) == CounterOf(s, other)
  {
    if msgs != [] {
      BatchStaysInside(s, ns, Init(msgs), Init(times), other);
      AppendedFacts(AllAppended(s, ns, Init(msgs), Init(times)), ns, Last(msgs), Last(times));
    }
  }

  lemma AppendKeepsContiguous(s: Store, ns: string, m: Message, at: Instant)
    requires Contiguous(s)
    ensures Contiguous(Appended(s, ns, m, at))
  {
    forall n ensures ContiguousAt(Appended(s, ns, m, at), n) {
      assert ContiguousAt(s, n);
    }
  }

  lemma NamespaceOperationsKeepContiguous(s: Store, ns: string, createdAt: Instant)
    requires Contiguous(s)
    ensures Contiguous(Created(s, ns, createdAt)) && Contiguous(Deleted(s, ns))
  {
    forall n ensures ContiguousAt(Created(s, ns, createdAt), n) && ContiguousAt(Deleted(s, ns), n) {
      assert ContiguousAt(s, n);
    }
  }

  lemma TasksAreApart(s: Store, s': Store)
    requires Contiguous(s) && s'.messages == s.messages && s'.offsets == s.offsets
    ensures Contiguous(s')
  {
    forall ns ensures ContiguousAt(s', ns) { assert ContiguousAt(s, ns); }
  }

  // ---------- Creating and deleting ----------

  ghost predicate SameElsewhere(s: Store, s': Store, ns: string) {
    forall other :: other != ns ==>
      && LogOf(s', other) == LogOf(s, other) && CounterOf(s', other) == CounterOf(s, other)
      && (other in s'.namespaces <==> other in s.namespaces)
  }

  /** A new namespace starts with an empty log, even where messages had been appended before it was created; an old one stays. */
  lemma CreationStartsAfresh(s: Store, ns: string, createdAt: Instant)
    ensures var after := Created(s, ns, createdAt);
            if ns in s.namespaces then after == s
            else
              && ns in after.namespaces && after.namespaces[ns] == createdAt && LogOf(after, ns) == [] && CounterOf(after, ns) == 0
              && SameElsewhere(s, after, ns) && after.tasks == s.tasks && after.history == s.history && after.artifacts == s.artifacts
  {}

  /** A deleted namespace is gone: its log, its counter, its name and its tasks with all they have; other namespaces' logs stay. */
  lemma DeletionLeavesNothing(s: Store, ns: string, taskId: string)
    ensures var after, key := Deleted(s, ns), TaskKey(ns, taskId);
            && ns !in after.namespaces && LogOf(after, ns) == [] && CounterOf(after, ns) == 0 && SameElsewhere(s, after, ns)
            && (taskId != "" ==> key !in after.tasks)
            && (taskId != "" && key in s.tasks ==> ArtifactsOf(after, key) == [] && HistoryOf(after, key) == [])
  {
    if taskId != "" && TaskKey(ns, taskId) in s.tasks { DeletionTakesIff(s, ns, ns, taskId); }
  }

  /** What the deletion of a namespace does not take of another's task, it leaves as it was. */
  lemma DeletionSpares(s: Store, ns: string, other: string, taskId: string)
    requires TaskKey(other, taskId) in s.tasks && !Takes(ns, other, taskId)
    ensures var after, key := Deleted(s, ns), TaskKey(other, taskId);
            && key in after.tasks && after.tasks[key] == s.tasks[key]
            && ArtifactsOf(after, key) == ArtifactsOf(s, key) && HistoryOf(after, key) == HistoryOf(s, key)
  {
    DeletionTakesIff(s, ns, other, taskId);
  }

  /** A created task is read back, an update replaces it, and both leave every other key alone. */
  lemma TasksComeBack(s: Store, ns: string, task: StoredTask, newer: StoredTask)
    requires newer.id == task.id
    ensures var key := TaskKey(ns, task.id);
            && (key !in s.tasks ==> TaskCreated(s, ns, task).tasks == s.tasks[key := task] && TaskUpdated(s, ns, task) == s)
            && (key in s.tasks ==> TaskCreated(s, ns, task) == s && TaskUpdated(s, ns, task).tasks == s.tasks[key := task])
            && TaskUpdated(TaskUpdated(s, ns, task), ns, newer) == TaskUpdated(s, ns, newer)
  {
    var key := TaskKey(ns, task.id);
    if key in s.tasks { assert s.tasks[key := task][key := newer] == s.tasks[key := newer]; }
  }

  // ---------- Namespaces share one space of task keys ----------

  /** `outer` is a proper prefix of `inner` that ends at a slash. */
  predicate Encloses(outer: string, inner: string) { outer + "/" <= inner }

  /** What is left of `inner` behind `outer` and the slash. */
  function Inside(outer: string, inner: string): string
    requires Encloses(outer, inner)
  {
    inner[|outer| + 1..]
  }

  lemma InsideFacts(outer: string, inner: string)
    requires Encloses(outer, inner)
    ensures inner == outer + "/" + Inside(outer, inner)
  {}

  /** Of two names before a slash in one string, the shorter is the longer or encloses it. */
  lemma NamesNest(ns: string, other: string, rest: string, tail: string)
    requires ns + "/" + rest == other + "/" + tail
    ensures |ns| == |other| ==> ns == other && rest == tail
    ensures |ns| < |other| ==> Encloses(ns, other) && rest == Inside(ns, other) + "/" + tail
  {
    var key := ns + "/" + rest;
    assert ns == key[..|ns|] && key[|ns|] == '/' && rest == key[|ns| + 1..];
    assert other == key[..|other|] && key[|other|] == '/' && tail == key[|other| + 1..];
    if |ns| < |other| {
      assert ns + "/" == key[..|ns| + 1] == other[..|ns| + 1];
      assert rest == key[|ns| + 1..|other|] + "/" + tail;
    }
  }

  /** Two namespaces have a key in common exactly when one encloses the other and the rest of its name begins the task's id. */
  lemma KeysMeetIff(ns: string, id: string, other: string, otherId: string)
    ensures TaskKey(ns, id) == TaskKey(other, otherId) <==>
            || (ns == other && id == otherId)
            || (Encloses(ns, other) && id == Inside(ns, other) + "/" + otherId)
            || (Encloses(other, ns) && otherId == Inside(other, ns) + "/" + id)
  {
    if TaskKey(ns, id) == TaskKey(other, otherId) {
      NamesNest(ns, other, id, otherId);
      NamesNest(other, ns, otherId, id);
    }
    if Encloses(ns, other) {
      InsideFacts(ns, other);
      assert ns + "/" + (Inside(ns, other) + "/" + otherId) == (ns + "/" + Inside(ns, other)) + "/" + otherId;
    }
    if Encloses(other, ns) {
      InsideFacts(other, ns);
      assert other + "/" + (Inside(other, ns) + "/" + id) == (other + "/" + Inside(other, ns)) + "/" + id;
    }
  }

  /**
   * Exactly which tasks the deletion of `ns` takes: its own with a non-empty id, all of the namespaces
   * it encloses, and of a namespace that encloses it those whose id goes on from the rest of its name.
   */
  predicate Takes(ns: string, other: string, taskId: string) {
    if other == ns then taskId != ""
    else
      || Encloses(ns, other)
      || (Encloses(other, ns) && Inside(other, ns) + "/" <= taskId && |Inside(other, ns)| + 1 < |taskId|)
  }

  lemma DeletionTakesIff(s: Store, ns: string, other: string, taskId: string)
    requires TaskKey(other, taskId) in s.tasks
    ensures TaskKey(other, taskId) in Doomed(s, ns) <==> Takes(ns, other, taskId)
  {
    var key := TaskKey(other, taskId);
    if ns + "/" <= key && |ns + "/"| < |key| {
      var id := key[|ns| + 1..];
      assert key == ns + "/" + id && id != "";
      KeysMeetIff(ns, id, other, taskId);
    }
    if Encloses(other, ns) && Inside(other, ns) + "/" <= taskId {
      KeysMeetIff(ns, taskId[|Inside(other, ns)| + 1..], other, taskId);
      assert taskId == Inside(other, ns) + "/" + taskId[|Inside(other, ns)| + 1..];
    }
  }

  /** A store that holds one task. */
  function Holding(key: string, task: StoredTask): Store { Store(map[], map[], map[], map[key := task], map[], map[]) }

  /** The deletion of one namespace can never take a task of another exactly when neither encloses the other. */
  lemma DeletionStaysInsideIff(ns: string, other: string)
    requires ns != other
    ensures (forall s: Store, taskId: string :: TaskKey(other, taskId) in s.tasks ==> TaskKey(other, taskId) !in Doomed(s, ns))
            <==> !Encloses(ns, other) && !Encloses(other, ns)
  {
    if Encloses(ns, other) || Encloses(other, ns) {
      var taskId := if Encloses(ns, other) then "t" else Inside(other, ns) + "/t";
      var s := Holding(TaskKey(other, taskId), StoredTask(taskId, "", Submitted, "", other));
      DeletionTakesIff(s, ns, other, taskId);
      assert TaskKey(other, taskId) in s.tasks && TaskKey(other, taskId) in Doomed(s, ns);
    } else {
      forall s: Store, taskId: string | TaskKey(other, taskId) in s.tasks ensures TaskKey(other, taskId) !in Doomed(s, ns) {
        DeletionTakesIff(s, ns, other, taskId);
      }
    }
  }

  /** Branches of one repository are safe from each other. */
  lemma BranchesAreApart(s: Store, taskId: string)
    requires TaskKey("org/repo/dev", taskId) in s.tasks
    ensures TaskKey("org/repo/dev", taskId) !in Doomed(s, "org/repo/main")
  {
    assert "org/repo/main/"[9] == 'm' && "org/repo/dev"[9] == 'd';
    DeletionTakesIff(s, "org/repo/main", "org/repo/dev", taskId);
  }

  /** Deleting the repository takes the tasks of its branches. */
  lemma DeletingTheRepository(s: Store, taskId: string)
    requires TaskKey("org/repo/main", taskId) in s.tasks
    ensures TaskKey("org/repo/main", taskId) in Doomed(s, "org/repo")
  {
    assert "org/repo" + "/" == "org/repo/main"[..9];
    DeletionTakesIff(s, "org/repo", "org/repo/main", taskId);
  }

  /** Deleting the repository takes the organisation's task `repo/t`, for it has the key of the repository's task `t`. */
  lemma DeletingUnderTheOrganisation(s: Store)
    requires TaskKey("org", "repo/t") in s.tasks
    ensures TaskKey("org", "repo/t") == TaskKey("org/repo", "t") && TaskKey("org", "repo/t") in Doomed(s, "org/repo")
  {
    assert "org" + "/" == "org/repo"[..4] && "repo" == "org/repo"[4..] == Inside("org", "org/repo");
    assert "repo" + "/" == "repo/t"[..5];
    KeysMeetIff("org/repo", "t", "org", "repo/t");
    DeletionTakesIff(s, "org/repo", "org", "repo/t");
  }

  lemma RemoveOneMore<K, V>(m: map<K, V>, gone: set<K>, k: K)
    ensures (m - gone) - {k} == m - (gone + {k})
  {}

  class Provider {
    var namespaces: map<string, Instant>
    var messages: map<string, seq<Message>>
    var offsets: map<string, nat>
    var a2aTasks: map<string, StoredTask>
    var a2aHistory: map<string, seq<HistoryMessage>>
    var a2aArtifacts: map<string, seq<Artifact>>

    ghost function Contents(): Store
      reads this
    {
      Store(namespaces, messages, offsets, a2aTasks, a2aHistory, a2aArtifacts)
    }

    ghost predicate Valid()
      reads this
    {
      Contiguous(Contents())
    }

    constructor ()
      ensures Valid()
      ensures Contents() == Store(map[], map[], map[], map[], map[], map[])
    {
      namespaces, messages, offsets := map[], map[], map[];
      a2aTasks, a2aHistory, a2aArtifacts := map[], map[], map[];
    }

    method CreateNamespace(ns: string, createdAt: Instant) returns (ok: bool)
      requires Valid()
      modifies this
      ensures Valid()
      ensures ok == (ns !in old(namespaces))
      ensures Contents() == Created(old(Contents()), ns, createdAt)
    {
      NamespaceOperationsKeepContiguous(Contents(), ns, createdAt);
      if ns in namespaces { return false; }
      namespaces := namespaces[ns := createdAt];
      messages := messages[ns := []];
      offsets := offsets[ns := 0];
      ok := true;
    }

    method DeleteNamespace(ns: string)
      requires Valid()
      modifies this
      ensures Valid()
      ensures Contents() == Deleted(old(Contents()), ns)
    {
      NamespaceOperationsKeepContiguous(Contents(), ns, 0);
      namespaces := namespaces - {ns};
      messages := messages - {ns};
      offsets := offsets - {ns};
      DeleteTasks(ns + "/");
    }

    /** The loop of `DeleteNamespace` over the task keys. */
    method DeleteTasks(prefix: string)
      modifies this`a2aTasks, this`a2aHistory, this`a2aArtifacts
      ensures a2aTasks == old(a2aTasks) - set k | k in old(a2aTasks) && |prefix| < |k| && prefix <= k
      ensures a2aHistory == old(a2aHistory) - set k | k in old(a2aTasks) && |prefix| < |k| && prefix <= k
      ensures a2aArtifacts == old(a2aArtifacts) - set k | k in old(a2aTasks) && |prefix| < |k| && prefix <= k
    {
      var keys := a2aTasks.Keys;
      ghost var t0, h0, a0 := a2aTasks, a2aHistory, a2aArtifacts;
      ghost var doomed := set k | k in t0 && |prefix| < |k| && prefix <= k;
      ghost var gone: set<string> := {};
      while keys != {}
        invariant keys <= t0.Keys
        invariant gone <= doomed <= gone + keys
        invariant a2aTasks == t0 - gone && a2aHistory == h0 - gone && a2aArtifacts == a0 - gone
        decreases |keys|
      {
        var k :| k in keys;
        keys := keys - {k};
        if |k| > |prefix| && prefix <= k {
          RemoveOneMore(t0, gone, k);
          RemoveOneMore(h0, gone, k);
          RemoveOneMore(a0, gone, k);
          gone := gone + {k};
          a2aTasks := a2aTasks - {k};
          a2aHistory := a2aHistory - {k};
          a2aArtifacts := a2aArtifacts - {k};
        }
      }
      assert gone == doomed;
    }

    /** `times` are the readings of the clock, one for each message. */
    method Append(ns: string, msgs: seq<Message>, times: seq<Instant>)
      requires Valid() && |times| == |msgs|
      modifies this`messages, this`offsets
      ensures Valid()
      ensures Contents() == AllAppended(old(Contents()), ns, msgs, times)
    {
      ghost var before := Contents();
      for i := 0 to |msgs|
        invariant Valid() && Contents() == AllAppended(before, ns, msgs[..i], times[..i])
      {
        assert Init(msgs[..i + 1]) == msgs[..i] && Init(times[..i + 1]) == times[..i];
        AppendOne(ns, msgs[i], times[i]);
      }
      assert msgs[..|msgs|] == msgs && times[..|msgs|] == times;
    }

    /** The body of `Append`'s loop: count, stamp, store. */
    method AppendOne(ns: string, m: Message, at: Instant)
      requires Valid()
      modifies this`messages, this`offsets
      ensures Valid()
      ensures Contents() == Appended(old(Contents()), ns, m, at)
    {
      AppendKeepsContiguous(Contents(), ns, m, at);
      var counter := if ns in offsets then offsets[ns] else 0;
      offsets := offsets[ns := counter + 1];
      var stamped := m.(offset := counter + 1, namespace := ns, timestamp := at);
      messages := messages[ns := (if ns in messages then messages[ns] else []) + [stamped]];
    }

    method Query(ns: string, opts: QueryOpts) returns (result: seq<Message>)
      requires Valid()
      ensures result == Limited(LogOf(Contents(), ns), opts) && Answers(result, LogOf(Contents(), ns), opts)
    {
      var msgs := if ns in messages then messages[ns] else [];
      ContiguousIsSorted(Contents(), ns);
      LimitedAnswers(msgs, opts);
      result := Select(msgs, opts);
    }

    /** The loop of `Query`. */
    method Select(msgs: seq<Message>, opts: QueryOpts) returns (result: seq<Message>)
      ensures result == Limited(msgs, opts)
    {
      result := [];
      for i := 0 to |msgs|
        invariant result == Matching(msgs[..i], opts)
        invariant opts.limit > 0 ==> |result| < opts.limit
      {
        var m := msgs[i];
        assert msgs[..i + 1] == msgs[..i] + [m];
        MatchingConcat(msgs[..i], m, opts);
        if m.offset <= opts.since { continue; }
        if |opts.types| > 0 && m.kind !in opts.types { continue; }
        if opts.agentId != "" && m.agentId != opts.agentId { continue; }
        result := result + [m];
        if opts.limit > 0 && |result| >= opts.limit {
          MatchingPrefix(msgs, i + 1, opts);
          return;
        }
      }
      assert msgs[..|msgs|] == msgs;
    }

    method ActiveClaims(ns: string, pattern: string, now: Instant) returns (result: seq<Claim>)
      requires Valid()
      ensures result == Selected(Active(LogOf(Contents(), ns), now), pattern)
    {
      var msgs := Query(ns, EVERYTHING);
      ContiguousIsSorted(Contents(), ns);
      var claims := FilterActiveClaims(msgs, now);
      result := SelectByPattern(claims, pattern);
    }

    method GetAgentState(ns: string, agentId: string, now: Instant) returns (state: AgentState)
      requires Valid()
      ensures state == StateOf(LogOf(Contents(), ns), agentId, now)
    {
      var msgs := Query(ns, EVERYTHING);
      ContiguousIsSorted(Contents(), ns);
      state := ComputeAgentState(msgs, agentId, now);
    }

    /** Expired claims are filtered when read, so there is nothing to sweep. */
    method ReleaseExpired(ns: string, before: Instant)
      ensures Contents() == old(Contents())
    {
    }

    // ---------- A2A tasks ----------

    predicate Keeps(ns: string, task: StoredTask)
      reads this
    {
      TaskKey(ns, task.id) in a2aTasks && a2aTasks[TaskKey(ns, task.id)] == task
    }

    method CreateTask(ns: string, task: StoredTask) returns (ok: bool)
      requires Valid()
      modifies this
      ensures Valid()
      ensures ok == (TaskKey(ns, task.id) !in old(a2aTasks))
      ensures Contents() == TaskCreated(old(Contents()), ns, task)
    {
      ghost var before := Contents();
      var key := TaskKey(ns, task.id);
      if key in a2aTasks { return false; }
      a2aTasks := a2aTasks[key := task];
      ok := true;
      TasksAreApart(before, Contents());
    }

    method GetTask(ns: string, taskId: string) returns (task: Option<StoredTask>)
      ensures task == if TaskKey(ns, taskId) in a2aTasks then Some(a2aTasks[TaskKey(ns, taskId)]) else None
    {
      var key := TaskKey(ns, taskId);
      task := if key in a2aTasks then Some(a2aTasks[key]) else None;
    }

    method UpdateTask(ns: string, task: StoredTask) returns (ok: bool)
      requires Valid()
      modifies this
      ensures Valid()
      ensures ok == (TaskKey(ns, task.id) in old(a2aTasks))
      ensures Contents() == TaskUpdated(old(Contents()), ns, task)
    {
      ghost var before := Contents();
      var key := TaskKey(ns, task.id);
      if key !in a2aTasks { return false; }
      a2aTasks := a2aTasks[key := task];
      ok := true;
      TasksAreApart(before, Contents());
    }

    method AppendTaskHistory(ns: string, taskId: string, msg: HistoryMessage)
      requires Valid()
      modifies this
      ensures Valid()
      ensures Contents() == HistoryAppended(old(Contents()), ns, taskId, msg)
    {
      ghost var before := Contents();
      var key := TaskKey(ns, taskId);
      a2aHistory := a2aHistory[key := (if key in a2aHistory then a2aHistory[key] else []) + [msg]];
      TasksAreApart(before, Contents());
    }

    method CreateArtifact(ns: string, taskId: string, art: Artifact)
      requires Valid()
      modifies this
      ensures Valid()
      ensures Contents() == ArtifactCreated(old(Contents()), ns, taskId, art)
    {
      ghost var before := Contents();
      var key := TaskKey(ns, taskId);
      a2aArtifacts := a2aArtifacts[key := (if key in a2aArtifacts then a2aArtifacts[key] else []) + [art]];
      TasksAreApart(before, Contents());
    }
  }
}
