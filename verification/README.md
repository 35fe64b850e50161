# Verification of hearsay's coordination core

hearsay lets agents claim resources before they work on them. Claims, releases, transfers, heartbeats and
intents are messages in one log per namespace; which claims are active is computed from that log, and a new
claim is granted only if no active claim of another agent conflicts with it. This project models that
protocol in Dafny, from the scans of the raw log up to the guarantee agents rely on, together with the two
stores it runs over, the background loops around it, and the A2A adapter that drives it.

Check the whole project with `dafny verify dfyconfig.toml`.

## How it is organised

| file | part of the system |
|---|---|
| `messages.dfy` | messages, claims, time (an instant is a natural number, 0 being Go's zero time) |
| `active_claims.dfy`, `scans.dfy` | the two log scans, when they agree, and the two-pass scan as a replay |
| `conflicts.dfy` | resource patterns, the operation matrix, conflict reports |
| `queries.dfy` | filtered and limited queries, paging, agent state |
| `memory.dfy`, `sqlite.dfy` | the two providers as classes over their maps and rows |
| `views.dfy`, `agent_sweeps.dfy` | what type filters and sweeps hide from the scans |
| `protocol.dfy`, `heartbeats.dfy`, `both_ways.dfy`, `liveness.dfy` | runs of the protocol: safety, well-formed logs, what heartbeats can break and keep, freedom from conflict in both directions |
| `grants.dfy` | what grants, refusals and releases mean in operations, resources and times, on whole runs |
| `client.dfy` | the client over either provider, each call one step of the protocol |
| `events.dfy` | event streams of both providers |
| `death_detector.dfy`, `rate_limiter.dfy`, `audit.dfy` | the background loops |
| `a2a_types.dfy`, `tasks.dfy`, `task_properties.dfy`, `task_outcomes.dfy`, `handlers.dfy` | A2A task execution, sent and streamed |
| `a2a_safety.dfy` | A2A requests as steps of the protocol, and safety of every run of them |

Where hearsay updates state in place, the model has a class or a loop, proved against a specification function;
the theorems are about those functions. A message's payload is already decoded: `asClaim` and `asRef` say what
decoding it as a claim or as a `claim_id` gives, `None` being a decoding error. Every reading of the clock is a parameter.

## Main results

- **Safety.** Over a SQL provider, no run ever makes two claims of different agents active of which the later
  conflicts with the earlier (`SqlRunsAreSafe`). Over the memory provider, whose scan counts heartbeats, that holds
  for a run exactly when no heartbeat in it revives a lapsed claim (`MemoryRunsAreSafeIff`); a concrete run shows the
  danger is real (`LateHeartbeatBreaksSafety`), and every run that renews only claims still held is safe (`RenewingRunsAreSafe`).
  On concrete URIs none of which is both read and refactored, safe runs are free of conflict in both directions
  (`SqlRunsAreSafeBothWays`, `MemoryRunsAreSafeBothWaysIff`).
- **Grants.** A claim is granted exactly when every active claim of another agent is allowed beside it by a list of operation pairs (`GrantedIff`),
  it is then active for its lifetime (`GrantedIsActive`), and at every point of a safe run agents share resources only as the list says (`SafeRunsShareOnlyAllowed`).
- **Scans.** The fast scan and the per-claim scan agree exactly on unambiguous logs (`ScansAgreeExactly`); well-formed logs,
  which every disciplined run produces, are unambiguous, and on them the fast scan is a replay of the log (`ScanIsReplay`).
- **Stores.** A sweep is invisible to SQLite's active claims (`SweepIsInvisibleToSql`), and to agent states exactly under a
  condition on heartbeats and last messages (`SweepIsInvisibleToAgentsIff`); SQLite shows a sub-list of what memory shows (`SqlIsSubList`).
- **Streams.** Nothing is lost, repeated or reordered in memory (`StreamConserves`), nor in SQLite as long as
  appended numbers pass the subscriber's cursor (`SqliteStreamIsFaithful`). That is the exact condition for an append to be seen
  (`AppendIsPendingIff`), and sweeps that spare the newest row ensure it (`SparingRunsPass`); what it shuts out is never delivered (`PassedOverForGood`), and it happens (`ASweepLosesARelease`).
- **Loops.** A death-detector tick removes exactly the claims of dead agents (`TickReleasesTheDead`); the rate limiter keeps every
  window (`WindowsAreLimited`) and refuses only when it must (`RefusedIff`); the audit queue conserves events (`RunKeeps`)
  and a healthy storage gets them all (`HealthyStorageGetsAll`).
- **A2A.** Sending and streaming leave the same store (`StreamingLeavesWhatSendingLeaves`), every stream is
  well ordered under every cancellation timing (`StreamIsWellOrdered`), and it is known exactly when a granted claim is recorded (`GrantIsRecordedIff`).
  What sending, streaming and cancelling leave is stated map by map (`SendLeaves`, `SubscribeLeaves`, `CancelLeaves`).
  Every request is at most one step of the protocol (`SystemStepRefines`), so that no run of requests breaks safety (`SystemRunsAreSafe`).
- **Namespaces.** Task keys are shared between namespaces; which tasks a deletion takes is stated exactly for all names (`DeletionTakesIff`, `DeletionStaysInsideIff`).

## Where code and documentation differ

The model follows the code.

- `README.md:84` promises a burst of requests beyond the rate; `NewRateLimiter` (`internal/server/ratelimit.go:20`) ignores its `burst` argument.
- `docs/superpowers/specs/2026-05-26-death-detection-design.md:35` has heartbeats move an agent's last-seen time; `Client.Heartbeat` puts no
  agent on its message, so they do not (`HeartbeatsAreNotSeen`), and a heartbeating agent can be declared dead (`HeartbeatingAgentStillDies`, `AHeartbeatingAgentDies`).
- `docs/superpowers/specs/2026-05-26-a2a-adapter-design.md:365` and `:529` have `tasks/cancel` release the claim; claim ids are stored only with
  completed A2A tasks, which cannot be cancelled, so it never does (`CancelNeverReleases`).
- `pkg/hearsay/provider.go:41` says a subscription from 0 replays nothing; both providers replay the whole log.
- `internal/sqlite/sqlite.go:449` says the sweep deletes release messages too; it deletes only claim rows.
- A sweep that deletes the newest rows lets their seqs be issued again, at or below a subscriber's cursor (`ReissuedSeqIsLost`). A sweep can also make a living agent look dead (`SweepKillsIff`, `ASweepKillsTheLiving`).
- A dry run is made in the name of the agent `_check_`, so claims held by an agent of that name are overlooked (`DryRunIsExact`, `DryRunOverlooksCheck`).
- `sdk/INTEGRATION_GUIDE.md:50` has namespaces of the form `org/repo/branch`. The memory provider keys A2A tasks by namespace, slash and id (`internal/memory/memory.go:248`),
  so a key does not tell where the namespace ends: deleting `org/repo` also takes tasks of `org/repo/main` and of `org` (`DeletingTheRepository`, `DeletingUnderTheOrganisation`),
  and cancelling under a shared key finds one entry and updates another (`CancelMissesSharedKey`).

## Model

| member | source | states |
|---|---|---|
| `ActiveClaims.FilterActiveClaims` | pkg/hearsay/activeclaims.go:54-105 | the two maps and the second pass return the live entries of the log, in log order: not ended at a later offset than the claim's, and `now` not past the later of creation and last heartbeat plus TTL |
| `ActiveClaims.IsClaimActive` | pkg/hearsay/activeclaims.go:11-50 | true exactly when no release or transfer after the claim names it and creation plus TTL, or some later heartbeat plus TTL, still covers the asking time |
| `Scans.FastScanKeeps` | pkg/hearsay/activeclaims.go:81-103 | on any log the fast scan keeps a claim message's claim exactly when its id is empty, or nothing ends the id, or something ends it no later than the claim, and when its own lifetime or that after some heartbeat for its non-empty id is not over |
| `Scans.ScansAgreeExactly` | pkg/hearsay/activeclaims.go:11-105 | on any log at all, fast scan and per-claim scan give a claim the same answer at every reading of the clock if and only if the claim is not ambiguous (an early end hiding a later one, or an early heartbeat, or an empty id) |
| `Scans.ScansAgree` | pkg/hearsay/activeclaims.go:11-105 | on every well-formed log the fast scan returns exactly the claims `IsClaimActive` accepts, in the same order |
| `Scans.EarlyReleaseHidesLaterOne` | pkg/hearsay/activeclaims.go:64-66 | a release, its claim and a second release: the fast scan keeps the claim, the per-claim scan drops it |
| `Scans.EntriesAppended` | pkg/hearsay/activeclaims.go:57-104 | how one more message changes the scan of any log in offset order: a claim adds an entry, the first release or transfer of an id removes it, a heartbeat moves its deadline forward |
| `Scans.ScanIsReplay` | pkg/hearsay/activeclaims.go:54-105 | on every well-formed log the two-pass scan equals a left-to-right replay of the log's events |
| `Conflicts.CheckConflict` | pkg/hearsay/claims.go:54-75 | the report lists exactly the active claims of other agents that conflict, in order, and `hasConflict` holds if and only if there is one |
| `Conflicts.FilteringKeepsReport` | pkg/hearsay/client.go:39-56 | asking the provider only for claims matching the requested URI gives the same report as checking all active claims |
| `Conflicts.DryRunIsExact` | pkg/hearsay/client.go:116-123 | every agent would be granted a claim if and only if the dry run is clear and the agent named `_check_` holds nothing in the way |
| `Conflicts.DryRunOverlooksCheck` | pkg/hearsay/client.go:116-123 | with one write claim of `_check_` active, the dry run is clear and bob is refused |
| `Conflicts.OperationSymmetry` | pkg/hearsay/claims.go:82-96 | the operation matrix is symmetric exactly outside read/refactor and pairs of an unknown operation with rename or refactor |
| `Conflicts.TreesNestOneWay` | pkg/hearsay/claims.go:104-112 | two different `/**` patterns never lie below each other |
| `Conflicts.GlobsMatchMutually` | pkg/hearsay/claims.go:113-121 | two patterns match each other if and only if they have the same literals in the same order and runs of wildcards between them that take each other up |
| `Conflicts.GlobsCanBeLopsided` | pkg/hearsay/claims.go:113-121 | `*` matches `a*` and not the other way round |
| `Conflicts.ResourceSymmetry` | pkg/hearsay/claims.go:99-123 | resource matching is symmetric exactly outside nested `/**` pairs and pairs of plain globs of different shape of which one matches the other |
| `Conflicts.TreeCovers` | pkg/hearsay/claims.go:104-112 | `p/**`, on either side, matches a URI if and only if the URI lies below `p/`; `p` itself is not matched |
| `Conflicts.GlobStar` | pkg/hearsay/claims.go:113-121 | one `*` between literals matches exactly the names with a slash-free run in its place |
| `Conflicts.StarThenRest` | pkg/hearsay/claims.go:113-121 | a star takes up any run of characters without a slash, and any rest of a pattern what is left |
| `Conflicts.SingleThenRest` | pkg/hearsay/claims.go:113-121 | a question mark, behind any literal beginning, takes up one character that is not a slash |
| `Conflicts.PlainGlobCovers` | pkg/hearsay/claims.go:113-121 | a pattern with one star, on either side, matches exactly the concrete URIs with a slash-free run in its place |
| `Conflicts.ConcreteUrisMatchThemselves` | pkg/hearsay/claims.go:99-123 | two URIs without a star match if and only if they are equal |
| `Conflicts.SelectedAre` | pkg/hearsay/claims.go:125-132 | for a pattern a provider returns all claims if it is empty or `*`, else those on an empty URI, on `*`, or on a URI the pattern matches, and no others |
| `Conflicts.SelectedConcat` | internal/memory/memory.go:132-137 | in the order they were in |
| `Protocol.StepKeepsSafe` | pkg/hearsay/client.go:34-137 | every atomic step, heartbeats over the memory provider excepted, keeps the active claims free of any claim granted against an earlier active one |
| `Protocol.SqlRunsAreSafe` | pkg/hearsay/client.go:34-68 | over a SQL provider every run from a safe state is safe at every point, whatever ids are named and whenever the sweeper deletes; only the clock must not run backwards |
| `Protocol.SafeStaysSafe` | pkg/hearsay/activeclaims.go:92-101 | a safe state stays safe as time passes |
| `Protocol.GrantIsClear` | pkg/hearsay/client.go:39-63 | a granted claim conflicts with no entry live when the active claims were read |
| `Protocol.SafeIsConflictFree` | pkg/hearsay/activeclaims.go:79-104 | freedom from conflict of the list the scan returns is the same as pairwise safety of its entries and deadlines |
| `Protocol.NextIsGood` | pkg/hearsay/client.go:34-137 | every step, sweeps and reissued offsets included, leaves offsets positive and strictly increasing |
| `Protocol.StepKeepsWellFormed` | pkg/hearsay/client.go:34-145 | with fresh claim ids, and other messages naming only ids handed out, every step keeps the log well formed |
| `Protocol.RunKeepsWellFormed` | pkg/hearsay/client.go:34-145 | so does every run |
| `Grants.SafeRunsShareOnlyAllowed` | pkg/hearsay/claims.go:77-97 | at every point of a safe run two agents' active claims on one URI, or on a tree and what lies below it, are, earlier and later, only for reading and reading, reading and writing, writing and reading, or refactoring and reading, unknown operations apart |
| `Grants.SqlRunsShareOnlyAllowed` | pkg/hearsay/client.go:34-68 | over a SQL provider that holds of every run from an empty log |
| `Grants.RenewingRunsShareOnlyAllowed` | pkg/hearsay/client.go:34-87 | over the memory provider it holds of every disciplined run that renews only claims still active |
| `Grants.GrantedIff` | pkg/hearsay/client.go:34-68 | a claim is granted if and only if every active claim of another agent on a matching resource is allowed beside it; a refusal tells, field by field and in order, of every claim that is not |
| `Grants.GrantedIsActive` | pkg/hearsay/client.go:34-68 | a granted claim, with the request's fields and 300 seconds for a TTL of 0, is active behind those that were until its lifetime is over; a refusal leaves the log alone |
| `Grants.EndedIsInactive` | pkg/hearsay/client.go:70-97 | on a well-formed log a release or transfer makes the claim it names inactive for good, and no other |
| `Grants.CallsWriteOneMessage` | pkg/hearsay/client.go:70-137 | each of the other calls writes one message of its kind that names the claim, with the next offset; an intent carries the new text |
| `Heartbeats.HeartbeatIsSafeIff` | internal/memory/memory.go:127-139 | over the memory provider a heartbeat keeps a safe state safe if and only if it revives no lapsed claim next to an active one it conflicts with |
| `Heartbeats.MemoryRunsAreSafeIff` | pkg/hearsay/client.go:34-137 | a disciplined run over the memory provider is safe at every point if and only if each of its heartbeats is harmless |
| `Heartbeats.RenewingIsHarmless` | pkg/hearsay/client.go:80-87 | a heartbeat for a claim still active is always harmless |
| `Heartbeats.RenewingRunsAreSafe` | pkg/hearsay/client.go:34-87 | over the memory provider every legal, disciplined run whose heartbeats name only claims active at that moment is safe at every point |
| `Heartbeats.LateHeartbeatBreaksSafety` | pkg/hearsay/client.go:80-87 | a legal, disciplined three-step run after which two agents hold write claims on one file |
| `Heartbeats.DryRunPredictsClaims` | pkg/hearsay/client.go:116-123 | at one clock reading and on either backend, every agent's `Claim` is granted if and only if the dry run is clear and `_check_` holds nothing in the way |
| `BothWays.EvenPairsBlockMutually` | pkg/hearsay/claims.go:54-97 | two claims that are not lopsided block each other mutually or not at all |
| `BothWays.ConcreteIsEven` | pkg/hearsay/claims.go:77-123 | claims on URIs without a star, with one of the five operations, are lopsided exactly when one reads and the other refactors the same URI |
| `BothWays.StepStaysWithin` | pkg/hearsay/client.go:34-137 | whatever pool of claims the log and the requests are drawn from, every step keeps the log within it |
| `BothWays.SafeRunsAreFreeBothWays` | pkg/hearsay/claims.go:77-123 | for a run on either backend whose claims are pairwise not lopsided, being safe at every point is the same as no active claim ever blocking another, earlier or later |
| `BothWays.SqlRunsAreSafeBothWays` | pkg/hearsay/client.go:34-68 | over a SQL provider, in every run over concrete URIs in which no URI is both read and refactored, no active claim ever blocks another in either direction |
| `BothWays.MemoryRunsAreSafeBothWaysIff` | pkg/hearsay/client.go:34-137 | over the memory provider that holds of a disciplined run if and only if its heartbeats are harmless |
| `Liveness.RenewedClaimStaysActive` | pkg/hearsay/activeclaims.go:69-76 | over the memory provider a claim heartbeated with gaps of at most its TTL and not ended is active at every moment up to TTL after its last heartbeat, on the log of that moment |
| `Liveness.UncoveredClaimLapses` | pkg/hearsay/activeclaims.go:92-101 | a claim of any log that neither its creation nor any heartbeat covers at a moment is not active then |
| `Client.Client.Check` | pkg/hearsay/client.go:39-56 | the report of a claim against the active claims of its own URI |
| `Client.Client.Claim` | pkg/hearsay/client.go:34-68 | granted exactly when the report is empty, in which case one claim message is appended; refused with the report and an untouched log otherwise; a TTL of 0 becomes 300 |
| `Client.Client.Release` | pkg/hearsay/client.go:70-78 | one release message, without agent, is appended |
| `Client.Client.Transfer` | pkg/hearsay/client.go:89-97 | one transfer message is appended |
| `Client.Client.Heartbeat` | pkg/hearsay/client.go:80-87 | one heartbeat message, without agent, is appended |
| `Client.Client.UpdateIntent` | pkg/hearsay/client.go:129-137 | one intent message carrying the claim id and the new intent is appended |
| `Client.Client.DryRun` | pkg/hearsay/client.go:116-123 | `CheckConflict`: the report for agent `_check_`, the log untouched |
| `Client.Client.QueryClaims` | pkg/hearsay/client.go:99-114 | every decodable claim message the query returns, in order, active or not |
| `Client.AllClaimsAre` | pkg/hearsay/client.go:104-112 | the claims listed are exactly those the queried claim messages decode to |
| `Client.AllClaimsConcat` | pkg/hearsay/client.go:104-112 | in the order of their messages |
| `Client.AppendedMessage` | internal/memory/memory.go:67-78 | storing one message in memory is the protocol's append: counter and last offset agree |
| `Client.AppendedRow` | internal/sqlite/sqlite.go:191-219 | storing one row is the protocol's append: `MAX(offset) + 1` and `MAX(seq) + 1` both continue from the last row |
| `Client.RunsOverProviderAreSafe` | pkg/hearsay/client.go:34-137 | from the log of any valid SQLite provider in a safe state, every run is safe at every point |
| `Client.Provider.LogIsGood` | internal/sqlite/sqlite.go:184-222 | the log of any valid provider meets what the theorems about runs ask of it |
| `Queries.ComputeAgentState` | internal/memory/memory.go:141-159 | last-seen time and active claim ids of an agent, from one scan of the messages |
| `Queries.SelectByPattern` | internal/memory/memory.go:132-137 | the claims whose URI the pattern matches, in order |
| `Queries.MatchingIsOrdered` | internal/memory/memory.go:80-101 | a query returns exactly the wanted messages, in offset order |
| `Queries.LimitedAnswers` | internal/memory/memory.go:80-101 | the specification both providers' queries meet says the same of every log in offset order |
| `Queries.QueryReturns` | internal/memory/memory.go:80-101 | without a limit a query returns exactly the messages behind `since`, of the given types, by the given agent |
| `Queries.AgentStateTells` | internal/memory/memory.go:141-159 | an agent's state lists the ids of its own active claims and the time of the latest message in its name |
| `Queries.PagingIsComplete` | internal/memory/memory.go:80-101 | paging with any positive limit from the last returned offset terminates, no page is empty or too long, and the pages concatenate to the unlimited query, under any type and agent filter |
| `Memory.BatchIsNumbered` | internal/memory/memory.go:67-78 | a batch of any length is added behind the log in order, numbered on from the counter, each message with its own time |
| `Memory.BatchStaysInside` | internal/memory/memory.go:67-78 | and no other namespace's log or counter changes |
| `Memory.AppendKeepsContiguous` | internal/memory/memory.go:70-76 | storing a message keeps each namespace's offsets exactly 1..n and its counter n |
| `Memory.NamespaceOperationsKeepContiguous` | internal/memory/memory.go:38-65 | creating or deleting a namespace keeps that |
| `Memory.CreationStartsAfresh` | internal/memory/memory.go:38-48 | a new namespace has an empty log and counter 0, even where messages had been appended before; an existing one and all others stay as they are |
| `Memory.DeletionLeavesNothing` | internal/memory/memory.go:50-65 | a deleted namespace's name, log, counter and tasks with a non-empty id are gone, with their history and artifacts; other namespaces' logs stay |
| `Memory.DeletionSpares` | internal/memory/memory.go:57-63 | a task the deletion does not take keeps its entry, history and artifacts |
| `Memory.TasksComeBack` | internal/memory/memory.go:245-279 | a created task is read back and an update replaces it; creating over an entry and updating a missing one change nothing |
| `Memory.KeysMeetIff` | internal/memory/memory.go:248-260 | two namespaces have a task key in common if and only if one name is the other followed by a slash and more, and the rest of the name begins the task id on the other side |
| `Memory.DeletionTakesIff` | internal/memory/memory.go:57-63 | for all names: deleting a namespace takes exactly its own tasks with a non-empty id, all tasks of namespaces whose name continues its own behind a slash, and of a namespace its own name continues the tasks whose id goes on with the rest of that name |
| `Memory.DeletionStaysInsideIff` | internal/memory/memory.go:57-63 | deleting one namespace takes a task of another in no store if and only if neither name continues the other behind a slash |
| `Memory.BranchesAreApart` | internal/memory/memory.go:57-63 | deleting `org/repo/main` takes no task of `org/repo/dev` |
| `Memory.DeletingTheRepository` | internal/memory/memory.go:57-63 | deleting `org/repo` takes every task of `org/repo/main` |
| `Memory.DeletingUnderTheOrganisation` | internal/memory/memory.go:57-63 | deleting `org/repo` takes task `repo/t` of `org`, which has the key of task `t` of `org/repo` |
| `Memory.Provider.CreateNamespace` | internal/memory/memory.go:38-48 | refused if it exists; otherwise an empty log and counter 0, even where messages had been appended before |
| `Memory.Provider.DeleteNamespace` | internal/memory/memory.go:50-65 | log, counter and every A2A entry under the prefix go; nothing else changes |
| `Memory.Provider.Append` | internal/memory/memory.go:67-78 | the loop stores the batch one message at a time, each with the next offset, the namespace and its own reading of the clock, and keeps the offsets contiguous |
| `Memory.Provider.Query` | internal/memory/memory.go:80-101 | only wanted messages, in offset order and within the limit; a wanted one is missing only if the limit is used up by earlier ones |
| `Memory.Provider.ActiveClaims` | internal/memory/memory.go:127-139 | the scan of the whole log, heartbeats included, filtered by pattern |
| `Memory.Provider.GetAgentState` | internal/memory/memory.go:141-159 | `AgentState` of the whole log |
| `Memory.Provider.ReleaseExpired` | internal/memory/memory.go:161-163 | changes nothing |
| `Memory.Provider.CreateTask` | internal/memory/memory.go:245-255 | refused if the key exists |
| `Memory.Provider.UpdateTask` | internal/memory/memory.go:269-279 | refused unless the key exists |
| `Memory.Provider.AppendTaskHistory` | internal/memory/memory.go:281-287 | one more history message under the key |
| `Memory.Provider.CreateArtifact` | internal/memory/memory.go:302-308 | one more artifact under the key |
| `Sqlite.InsertKeepsOrdered` | internal/sqlite/sqlite.go:191-219 | an insert keeps offset equal to seq in every row and both strictly increasing |
| `Sqlite.BatchIsInserted` | internal/sqlite/sqlite.go:191-219 | a batch of any length goes behind the rows in order, numbered on from both maxima; a message keeps its own time and one without takes the clock's reading |
| `Sqlite.SweepKeepsOrdered` | internal/sqlite/sqlite.go:422-459 | so does a sweep |
| `Sqlite.DeletingOffsetsSweeps` | internal/sqlite/sqlite.go:449-457 | deleting by offset the claims found expired removes exactly the rows of expired claims |
| `Sqlite.Provider.Append` | internal/sqlite/sqlite.go:184-222 | the rows inserted continue from `MAX + 1`; only a zero timestamp is replaced, each by its own reading of the clock |
| `Sqlite.Provider.Query` | internal/sqlite/sqlite.go:224-263 | only wanted messages, in offset order and within the limit; a wanted one is missing only if the limit is used up by earlier ones |
| `Sqlite.Provider.ActiveClaims` | internal/sqlite/sqlite.go:385-399 | the scan of claims, releases and transfers only, filtered by pattern |
| `Sqlite.Provider.GetAgentState` | internal/sqlite/sqlite.go:401-420 | `AgentState` of the whole log, heartbeats included |
| `Sqlite.Provider.ReleaseExpired` | internal/sqlite/sqlite.go:422-459 | the two loops delete exactly the rows of claims whose own lifetime ended before the given time |
| `Views.SqlEntries` | internal/sqlite/sqlite.go:385-399 | SQLite sees the memory provider's entries, each with its original deadline |
| `Views.OtherTypesNeverMatter` | internal/sqlite/sqlite.go:386-388 | messages other than claims, releases, transfers and heartbeats never change either provider's active claims |
| `Views.SqlIsSubList` | internal/sqlite/sqlite.go:385-399 | on the same log and time SQLite's active claims are a sub-list of the memory provider's, and equal to them if and only if no active claim owes its life to a heartbeat |
| `Views.SweepIsInvisibleIff` | internal/sqlite/sqlite.go:422-459 | for a reader of heartbeats a sweep changes the active claims if and only if it deletes a claim a heartbeat keeps alive |
| `Views.SweepTakes` | internal/sqlite/sqlite.go:422-459 | a sweep takes exactly the decodable claims whose creation plus TTL lies before the given time; everything else stays in order |
| `Views.SweepIsInvisibleToSql` | internal/sqlite/sqlite.go:385-459 | for every log and `before <= now`, a sweep never changes SQLite's active claims |
| `AgentSweeps.SweepAndLastSeen` | internal/sqlite/sqlite.go:401-459 | a sweep never makes an agent look fresher, and leaves its last-seen time alone if and only if every deleted message of it is outlived by one that stays |
| `AgentSweeps.SweepIsInvisibleToAgentsIff` | internal/sqlite/sqlite.go:401-459 | no agent's `AgentState` changes if and only if the sweep deletes no claim kept alive by a heartbeat and no message an agent was last seen in |
| `Events.EventTypesAgreeIff` | internal/memory/memory.go:396-409 | memory and SQLite give a message the same event type except for transfers and two mailbox types |
| `Events.EventTypes` | internal/memory/memory.go:396-409 | claims, releases and heartbeats have the types of those names with both providers; a transfer is a release in memory and a transfer in SQLite |
| `Events.PollSends` | internal/memory/memory.go:370-389 | a poll sends as many pending messages as it gets through, in order, and the cursor stands on the last |
| `Events.Subscriber.PollMemory` | internal/memory/memory.go:335-391 | a walk of the log with the moving cursor sends the pending messages in order, cut wherever the context ends |
| `Events.Subscriber.PollRows` | internal/sqlite/sqlite.go:299-366 | so does a read of the rows after the cursor |
| `Events.PollSplits` | internal/memory/memory.go:370-389 | moving the cursor over what was sent leaves exactly the rest pending |
| `Events.StreamConserves` | internal/memory/memory.go:330-394 | in every interleaving of polls, cuts and appends, what was sent followed by what is pending is everything after the starting point |
| `Events.CutAndResumed` | internal/memory/memory.go:330-394 | a stream cut anywhere and resumed from its last seq delivers in all what one uninterrupted stream delivers |
| `Events.SqliteStreamIsFaithful` | internal/sqlite/sqlite.go:184-370 | in every interleaving of appends, polls and sweeps in which appended numbers pass the cursor, offset equals seq, events go out in strictly increasing order, and each row still in the table has been sent or is pending |
| `Events.SparingRunsPass` | internal/sqlite/sqlite.go:184-459 | a cursor that starts within the table is passed by every append as long as no sweep removes the newest row |
| `Events.UncutPollDeliversAll` | internal/sqlite/sqlite.go:299-366 | after an uncut poll every row after the start still in the table has been sent once, in order |
| `Events.AppendIsPendingIff` | internal/sqlite/sqlite.go:197-201 | for every table and cursor, all messages of an append become pending if and only if its numbers pass the cursor |
| `Events.ReissuedSeqIsLost` | internal/sqlite/sqlite.go:197-201 | for every table and cursor, the first message appended after a sweep becomes pending if and only if the sweep leaves a seq at or past the cursor |
| `Events.PassedOverForGood` | internal/sqlite/sqlite.go:299-366 | a message stored at or below the cursor is delivered in no continuation of the run |
| `Events.ASweepLosesARelease` | internal/sqlite/sqlite.go:197-201 | a concrete table: a claim is delivered and swept, its release reuses seq 1 and is never delivered |
| `DeathDetector.Tick` | cmd/hearsay/cmd_serve.go:140-176 | one tick visits each owner of an active claim once, in some order, and appends a release for each claim of those dead when their turn comes; tick, filter and releases each read the clock for themselves |
| `DeathDetector.GroupByAgent` | cmd/hearsay/cmd_serve.go:148-151 | the map holds each owner's claims, in order |
| `DeathDetector.CheckAgent` | cmd/hearsay/cmd_serve.go:153-175 | an agent never seen is skipped; one unseen for longer than the timeout has all its claims released, each with its own time |
| `DeathDetector.ReleaseRemoves` | cmd/hearsay/cmd_serve.go:161-171 | on a well-formed log a release takes out the claim it names and nothing else, on either backend |
| `DeathDetector.TickReleasesTheDead` | cmd/hearsay/cmd_serve.go:140-176 | after one tick the claims active at the moment it read them, and at every later one, are exactly those of before minus those of dead agents, in the same order, whatever order the agents were visited in |
| `DeathDetector.TickKeepsSafe` | cmd/hearsay/cmd_serve.go:140-176 | a tick keeps the log well formed and the active claims free of conflicts, and leaves active exactly the claims of living agents |
| `DeathDetector.TickWrites` | cmd/hearsay/cmd_serve.go:161-171 | a tick only appends, and only releases, each in the name of the agent whose active claim it names |
| `DeathDetector.HeartbeatsAreNotSeen` | pkg/hearsay/client.go:80-87 | a heartbeat never moves the last-seen time of a named agent |
| `DeathDetector.HeartbeatingAgentStillDies` | cmd/hearsay/cmd_serve.go:153-158 | after any number of heartbeats an agent is dead if and only if it was before them |
| `DeathDetector.AHeartbeatingAgentDies` | pkg/hearsay/client.go:80-87 | an agent that claimed at instant 1 and heartbeats at second 50 is dead at second 70 with a timeout of 60 |
| `DeathDetector.SweepKillsIff` | internal/sqlite/sqlite.go:449-457 | after a sweep an agent is dead if and only if something it sent is left and nothing it sent within the timeout |
| `DeathDetector.ASweepKillsTheLiving` | internal/sqlite/sqlite.go:449-457 | an agent seen 20 seconds ago in a lapsed claim is alive before the sweep and dead after it |
| `RateLimiting.RateLimiter.Wrap` | internal/server/ratelimit.go:27-82 | eviction, decision, stored list and remaining count of one request; a refused request leaves the list as it was |
| `RateLimiting.CallRefusedIff` | internal/server/ratelimit.go:31-60 | for runs of calls by header, with clocks in order: a call is refused if and only if exactly `limit` calls with the same header got through in the second before it, no header counting as the name `unknown` |
| `RateLimiting.CallWindowsAreLimited` | internal/server/ratelimit.go:31-60 | in no second do more than `limit` calls with the same header get through |
| `RateLimiting.OthersNeverMatter` | internal/server/ratelimit.go:32-60 | calls with other headers never change the answer, whatever the clocks do |
| `RateLimiting.RefusedIff` | internal/server/ratelimit.go:37-60 | after any run in clock order a request is refused if and only if exactly `limit` requests of its agent were admitted in the second before it |
| `RateLimiting.WindowsAreLimited` | internal/server/ratelimit.go:37-60 | in every run no one-second window, wherever it begins, admits more than `limit` requests of an agent |
| `RateLimiting.StoredListsAreBounded` | internal/server/ratelimit.go:41-59 | no stored list exceeds `limit`, whatever the clocks do |
| `RateLimiting.RunRemembers` | internal/server/ratelimit.go:43-51 | despite eviction, the stored list counts every window that begins within the last second exactly as the full history of admitted requests does |
| `Audit.AuditLogger.Log` | internal/server/audit.go:32-62 | an event is queued unless 256 are waiting, in which case it is dropped |
| `Audit.AuditLogger.Receive` | internal/server/audit.go:72-77 | one event moves from queue to batch; a batch of 32 is flushed and emptied |
| `Audit.AuditLogger.Tick` | internal/server/audit.go:78-82 | a pending batch is flushed and emptied, an empty one is not flushed |
| `Audit.FlushStores` | internal/sqlite/sqlite.go:138-149 | a flush puts its events into storage in order, up to the first that storage does not take |
| `Audit.ReceiveStores` | internal/server/audit.go:72-77 | a received event joins the batch; the thirty-second goes to storage with the rest |
| `Audit.TickStores` | internal/server/audit.go:78-82 | after a tick nothing is pending, and with room enough all that was is in storage |
| `Audit.HealthyStorageGetsAll` | internal/server/audit.go:64-91 | with a storage that takes every batch, at every point of every run, storage, batch and queue concatenate to the accepted events |
| `Audit.DroppedIff` | internal/server/audit.go:57-61 | an event is accepted behind those before it if and only if fewer than 256 are queued; otherwise it is dropped |
| `Audit.RunKeeps` | internal/server/audit.go:57-91 | at every point of every run, flushed batches, pending batch and queue concatenate to the accepted events in order; every flush holds 1 to 32 events |
| `Audit.NothingElseIsLost` | internal/server/audit.go:32-62 | accepted and dropped events together are exactly the events logged |
| `Audit.StoredUnlessFlushFails` | internal/sqlite/sqlite.go:138-149 | a flush writes its events one by one; what reached storage is all that was flushed if and only if every flush wrote all its events |
| `Audit.RunStores` | internal/server/audit.go:64-91 | so it is after every run of the logger |
| `Tasks.StreamIsWellOrdered` | internal/a2a/task_executor.go:31-142 | for every cancellation timing the executor emits 1 to 5 events, fewer than the channel's 8 slots, whose snapshots follow the transition graph, with an `error` or `done` only at the end |
| `Tasks.UncancelledStreamEnds` | internal/a2a/task_executor.go:85-127 | without cancellation it ends in done/completed or error/failed according to the skill |
| `Tasks.SkillRunsIff` | internal/a2a/task_executor.go:73-86 | the skill runs if and only if the context is alive at the check before it; otherwise the store is untouched |
| `TaskOutcomes.StreamIsCut` | internal/a2a/task_executor.go:38-128 | for every cancellation timing, what is sent before the context ends arrives, and the stream is that of an uncancelled execution cut short, or its first events and one cancellation error |
| `TaskOutcomes.UncancelledStreamIsFull` | internal/a2a/task_executor.go:38-128 | without cancellation the events are, one by one: submitted, working, the artifacts if there are any, completed, done; or submitted, working and the skill's error |
| `TaskOutcomes.ClaimSkill` | internal/a2a/handler_skills.go:38-59 | granted under the request's agent or else the caller's if and only if no active claim is in the way; then claim id and artifact, otherwise only the report and error -32002 |
| `TaskOutcomes.ClaimSkillGrants` | internal/a2a/handler_skills.go:38-59 | a claim granted to a skill is active until its lifetime is over |
| `TaskOutcomes.CheckSkill` | internal/a2a/handler_skills.go:72-83 | one artifact reports every active claim in the way of `_check_`; nothing else changes |
| `TaskOutcomes.OtherSkills` | internal/a2a/handler_skills.go:61-110 | a release leaves the artifacts, a mailbox skill shows its answer, anything else fails with -32003 and changes nothing |
| `TaskOutcomes.SendLeaves` | internal/a2a/handler_tasks.go:26-92 | the entry is completed or failed by the skill, with its claim id; a successful skill's artifacts are added in order; the history gains the user's message; no other entry, artifact or history changes |
| `TaskOutcomes.GrantLeavesItsArtifact` | internal/a2a/handler_tasks.go:56-86 | for a free resource the one artifact added is `claim-result` |
| `TaskOutcomes.SubscribeLeaves` | internal/a2a/handler_tasks.go:155-184 | for every cancellation timing: artifacts are added if and only if their event went out, the entry has the state the last event gives, and nothing else changes |
| `TaskOutcomes.NoStreamLeaves` | internal/a2a/handler_tasks.go:138-148 | a writer that cannot stream leaves the entry submitted |
| `TaskOutcomes.RejectedLeavesAll` | internal/a2a/handler_tasks.go:31-40 | a request without an id, or with one already taken, changes nothing |
| `TaskOutcomes.CancelLeaves` | internal/a2a/handler_tasks.go:216-249 | cancelling a submitted, working or waiting entry stores it canceled, under the id the entry carries, and leaves all else alone |
| `TaskOutcomes.CancelledStaysCancelled` | internal/a2a/handler_tasks.go:230-249 | an entry under its own id is canceled once; a second cancel changes nothing |
| `TaskOutcomes.CancelRefused` | internal/a2a/handler_tasks.go:221-232 | a missing id or entry, or a finished entry, changes nothing |
| `TaskOutcomes.CancelMissesSharedKey` | internal/a2a/handler_tasks.go:225-246 | at a concrete pair of namespaces that share a key, the entry found is not the one updated |
| `TaskOutcomes.StorageRoundTrip` | internal/a2a/task.go:103-130 | storing a task and reading it back loses nothing but its artifacts |
| `A2ATypes.WaysInto` | internal/a2a/task.go:73-77 | from where each state can be reached, and that nothing leads out of a finished one |
| `TaskProperties.StreamingLeavesWhatSendingLeaves` | internal/a2a/handler_tasks.go:56-184 | without cancellation streaming and sending leave the same stored state, claim id, artifacts, history and claim log |
| `TaskProperties.FinishHandled` | internal/a2a/handler_tasks.go:157-184 | what the streaming handler stores after a successful skill, for every cancellation timing |
| `TaskProperties.GrantIsRecordedIff` | internal/a2a/task_executor.go:102-127 | a claim granted while streaming is in the log whatever follows, but its id is stored if and only if artifact, completed status and `done` all get through; otherwise the stored state stays submitted |
| `TaskProperties.AGrantGoesUnrecorded` | internal/a2a/task_executor.go:102-109 | a stream cut off at its artifact leaves the claim in the log and no claim id in the stored entry |
| `TaskProperties.RunKeepsClaimIds` | internal/a2a/handler_tasks.go:26-249 | in every run of send, streaming and cancel requests, a claim id is stored only with a completed A2A task |
| `TaskProperties.CancelNeverReleases` | internal/a2a/handler_tasks.go:230-240 | in no store a run reaches does `tasks/cancel` append a release |
| `TaskProperties.CancelReleasesIff` | internal/a2a/handler_tasks.go:216-249 | in an arbitrary store it does if and only if the stored entry has a claim id and no terminal state |
| `A2ASafety.SkillShows` | internal/a2a/handler_skills.go:11-83 | over a contiguous store a skill changes the namespace's log by exactly one claim or release step of the protocol, or not at all |
| `A2ASafety.SystemStepRefines` | internal/a2a/handler_tasks.go:26-249 | a send, stream or cancel request, under any cancellation, changes the log by at most one named step of the protocol and keeps the store contiguous |
| `A2ASafety.SystemRunsAreSafe` | internal/a2a/handler_tasks.go:26-249 | from a safe store, after any run of requests, under any cancellation, with steps other than heartbeats of other clients in between, the active claims are free of conflict, then and later |
| `A2ASafety.SystemRunRefines` | internal/a2a/handler_tasks.go:26-249 | every run of requests and client steps with clocks in order is a legal run of the protocol with the same log |
| `A2ASafety.SystemRunsAreSafeIff` | internal/a2a/handler_tasks.go:26-249 | such a run with fresh claim ids, heartbeats included, is safe at every point if and only if its heartbeats are harmless |
| `Handlers.Task.constructor` | internal/a2a/task.go:90-101 | `NewTask`: submitted, without claim id or artifacts |
| `Handlers.Task.FromStorage` | internal/a2a/task.go:114-130 | `storageToTask`: everything but the artifacts comes back |
| `Handlers.Task.Transition` | internal/a2a/task.go:72-88 | the table look-up moves the state exactly along the transition graph and otherwise changes nothing |
| `Handlers.Server.SkillClaimResource` | internal/a2a/handler_skills.go:38-59 | a grant sets claim id and artifact; a conflict sets only the report artifact and fails |
| `Handlers.Server.HandleTasksSend` | internal/a2a/handler_tasks.go:26-92 | the store `tasks/send` leaves; the error code of a refusal; otherwise the response shows the stored entry with the skill's artifacts |
| `Handlers.Server.HandleTasksSendSubscribe` | internal/a2a/handler_tasks.go:96-185 | the store and the events of the streaming handler, for every cancellation timing and for a writer that cannot stream |
| `Handlers.Server.HandleTasksCancel` | internal/a2a/handler_tasks.go:216-249 | the store `tasks/cancel` leaves and its answer in each case, error codes included |
| `Handlers.CancelAnswersTruly` | internal/a2a/handler_tasks.go:241-248 | a cancel answered with a task has stored what it answers |
| `Handlers.Server.ExecuteSkill` | internal/a2a/handler_skills.go:11-117 | store, claim id, artifacts and error after each skill, and for messages that cannot be decoded |
| `Handlers.Server.HandleEvents` | internal/a2a/handler_tasks.go:157-184 | the loop stores artifacts as they come and stops at the first `error` or `done`, whose snapshot it stores |
| `Handlers.TaskExecutor.Run` | internal/a2a/task_executor.go:38-128 | the goroutine's events, final snapshot and store are those of the specified execution, and a slot is free at each of its sends |

## Left out

- Racing calls: `Client.Claim` reads the active claims and appends in two provider calls, between which another client may append; it is one atomic step here, with its three clock readings kept apart. Handlers are atomic steps too: a cancel request inside a running send is not modelled.
- Streaming in lock step: the executor runs to its end before the handler reads its events. Executor and handler write the store at disjoint moments, and the channel never fills, so no other order leaves a different store.
- Memory.Provider.DeleteNamespace: the namespace's mailbox messages, which it also deletes, are not part of the store.
- Handlers.Server.ExecuteSkill: what the two mailbox skills answer is an input; their storage, expiry and read flags would add only small facts.
- Sqlite.Provider.Append: the transaction, and driver errors in the middle of it, are left out; a call is one atomic change of the table. Rows older than the `seq` column are not part of the table.
- Conflicts.GlobStar: `path.Match` is modelled with literals, `?` and `*` over characters; character classes, escapes, malformed patterns and byte-wise matching are left out.
- Protocol.SqlRunsAreSafe: clocks do not run backwards along a run; nothing is said of clocks that do.
- Heartbeats.MemoryRunsAreSafeIff: claim ids are taken to be fresh, as nanosecond clock readings usually are; two claims in the same nanosecond are not modelled.
- Tasks.StreamIsWellOrdered: timestamps, metadata and status messages of A2A tasks, and the fields of artifacts other than name and data, are left out.
- TaskProperties.StreamingLeavesWhatSendingLeaves: storage errors of the provider are left out; the memory provider has none on these paths.
- DeathDetector.Tick: a failing provider call, which skips an agent or a claim, is left out.
- DeathDetector.CheckAgent: failing `AgentState` and `Append` calls, which skip the agent or the claim, are left out.
- Audit.AuditLogger.Log: the table of audit levels is one boolean parameter; the event's timestamp and level name are left out.
- Durations are unbounded integers; overflow of `time.Duration` and of 64-bit offsets is left out.
- `ProjectedEnd` and `ParentClaimID` of a claim, the outcome of a release and the target of a transfer are carried by messages and read by nothing modelled here.
- SQL text, drivers and namespace deletion in SQLite; Postgres and D1, which repeat SQLite's logic over other drivers.
- HTTP routing, JSON and JSON-RPC encoding, server-sent event framing, authentication, TLS, configuration, command-line flags, the Worker entry point, and the TypeScript hooks and editor extensions.
- `Subscribe`, which polls like `SubscribeEvents` with offsets for cursors; `GetTaskHistory`, `GetArtifacts` and `tasks/get`, which only read.
- Blocking of a subscription on a full 100-slot channel, and the read lock the memory provider holds meanwhile.
