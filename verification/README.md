# SciRust Hub, modelled in Dafny

SciRust Hub is a control plane for scientific components. It registers component
manifests, admits and executes runs, schedules workflows of steps over a dependency
graph with retries and cancellation, keeps lifecycle records and an event log for
agent tasks, drives sandbox containers through a durable journal, recovers after a
restart, and packs directory trees into deterministic bundles.

This project models those parts and proves what each of them is for. Everything is
stated for all inputs, all histories or all reachable states. `dafny verify
dfyconfig.toml` checks it.

## How it is organised

| files | what they hold |
|---|---|
| `Keys`, `Graph` | string order and ordered enumeration; paths, acyclicity, topological orders |
| `Dag`, `Workflow` | the dependency graph class with its search and Kahn's algorithm; workflow specifications and their validation |
| `Publication` | publication fences: the repository class and its histories |
| `Runs`, `Scheduler*` | the scheduling loop, its workers and cancellers as a transition system; its invariants; safety, outcome, order, progress and token theorems; what workers report and publish, how the ending follows from that, and what a request to cancel stops; complete runs of a one-step workflow |
| `Sandbox*` | the container protocol: journal, daemon, executing and reconciling controllers, crashes; which attempts can still be closed; what an execution sends |
| `Workspace`, `TaskLifecycle`, `Events`, `RunEvents` | workspace evidence; agent-task records; the event log and the store that couples them; one run's record, its events and the threads that write it |
| `Recovery` | the two passes at daemon start |
| `Admission*` | component registry, run submission, execution and reproduction as a transition system; which submissions are admitted |
| `Bundle*` | flattening a tree, creating and extracting a bundle |

Code that updates objects or loops over collections is modelled by classes and
methods proved against specification functions: `Dags.Dag`,
`Publications.InMemoryPublicationFences`, `TaskLifecycle.TaskRecord`,
`Events.EventLog`, `Events.HubStore`, `Recovery.Repositories`,
`Admission.Components`, and the methods of `Workflows`, `Workspaces` and the bundle
modules. Concurrent code is a function `Next` from a state and an action to the next
state; a run is any sequence of enabled actions, so a theorem about runs is about
every interleaving. Digests are function parameters, clocks are arguments, and the
order in which a directory or a map is listed is a parameter.

## What the code does not keep

Some expected properties fail. For each there is a run or an input that shows it and
an exact condition that can be checked beforehand.

- A successful workflow can end up with a failure text and a cancellation intent
  (`SuccessCanBeMarked`). It can exactly when somebody asked to cancel after the last
  look, while success was being recorded (`SuccessIsCleanIff`).
- A failed workflow can lose its first failure to a canceller's text
  (`FailureCanBeLost`). It can exactly when somebody asked to cancel while the failure
  was being recorded (`FailureIsKeptIff`).
- A step can start although the cancel token was set before (`ChosenStepCanStart`). It
  can exactly when the guard had already chosen it and every output it takes from
  another step is published (`StartsAfterTokenIff`). Only that one step starts, and it
  makes no attempt (`TokenStopsAttempts`).
- An admission that fails because the clock went backwards leaves its evidence in the
  record, which then no longer validates; on a record of the legacy schema even a
  successful admission does (`AdmissionCanSpoil`, `AdmitKeepsValidIff`).
- Bundle creation does not count the root member and extraction does, so a tree with
  exactly 100000 entries is bundled and cannot be extracted (`FullBundleIsStuck`,
  `RoundTripIff`).
- A task write that finds too few event numbers left stores the record and cuts its
  events short; repeating it succeeds and logs nothing (`ExhaustedLogGoesSilent`,
  `PutKeepsTruthIff`, `LogIsTruthfulIff`).
- A run write is not checked against the stored record, so the log of a run can tell
  something else than its record. A canceller's stale write goes untold until the
  execution finishes (`LateCancelIsUntold`); a run that was cancelled is started and
  finished all the same, and its log is wrong for good (`CancelledRunStarts`). A write
  keeps the log true exactly when the stored record is what its writer had read, or
  already what it writes (`WriteIsToldIff`); a wrong log can become true exactly when
  somebody holds a copy whose write makes it so (`TruthReturnsIff`).
- A reserved sandbox attempt can keep its workspace and its place for ever: a controller
  that stops right after reserving is enough (`ReservationCanStick`). It can be closed
  exactly as long as a container of it exists or may still turn up (`ClosableIff`).

## Model

| member | source | states |
|---|---|---|
| `Dags.Reachable` | crates/hub-core/src/dag.rs:170-184 | the depth-first search ends and answers yes exactly when a path leads from start to target |
| `Dags.Dag.AddNode` | crates/hub-core/src/dag.rs:53-68 | a node is refused exactly when it is new and the graph is full; the graph stays closed, acyclic and within limits |
| `Dags.Dag.EdgeCount` | crates/hub-core/src/dag.rs:114-116 | counts each edge once |
| `Dags.Dag.AddEdge` | crates/hub-core/src/dag.rs:75-106 | an edge is accepted exactly when both ends are known and distinct, the limit allows it and the graph with it is acyclic; a refusal changes nothing |
| `Dags.Kahn` | crates/hub-core/src/dag.rs:124-168 | orders every node exactly when the graph is acyclic, always taking the least ready node; counts never go below zero |
| `Dags.Dag.TopologicalOrder` | crates/hub-core/src/dag.rs:124-168 | succeeds exactly on an acyclic graph, with each node and its payload once |
| `Graph.LeastFirstIsTopological` | crates/hub-core/src/dag.rs:118-168 | taking the least ready node gives a permutation of the nodes that respects every edge |
| `Graph.LeastFirstIsLeast` | crates/hub-core/src/dag.rs:118-168 | and no topological order is lexicographically smaller |
| `Workflows.Validate` | crates/hub-core/src/workflow.rs:205-314 | accepts exactly the well-formed specifications; an error names a rule that is really broken |
| `Workflows.BuildDag` | crates/hub-core/src/workflow.rs:345-366 | the checked insertions build the step graph exactly when it is acyclic, has known ends and is within limits |
| `Workflows.BuildableIff` | crates/hub-core/src/workflow.rs:292-314 | for otherwise sound specifications, buildable means few enough edges and no cycle |
| `Workflows.TopoKeys` | crates/hub-core/src/workflow.rs:345-366 | computes the execution order exactly when the graph can be built |
| `Workflows.ExecutionOrderIsLeast` | crates/hub-core/src/workflow.rs:341-366 | of all topological orders of the steps the execution order is the lexicographically least |
| `Workflows.DependenciesArePredecessors` | crates/hub-core/src/workflow.rs:326-339 | the dependency map the scheduler uses is the predecessor relation of the validated graph |
| `Workflows.EdgesAreReferences` | crates/hub-core/src/workflow.rs:292-339 | the step graph has an edge exactly where a step names another as a barrier or as the source of an input |
| `Publications.InMemoryPublicationFences.AdvanceFence` | crates/hub-core/src/publication.rs:155-188 | issues the next generation and withdraws the publication, or fails and changes nothing |
| `Publications.InMemoryPublicationFences.PublishOutputs` | crates/hub-core/src/publication.rs:190-221 | commits under the current fence, repeats an equal commit, refuses a stale, missing or conflicting one |
| `Publications.FencingIsSafe` | crates/hub-core/src/publication.rs:154-252 | over every history: generations strictly increase, a superseded fence never commits, a fence commits one output map once and after being issued, what is read carries the current fence |
| `Publications.CommitIsFinal` | crates/hub-core/src/publication.rs:190-221 | after any history, a committed publication is answered as there already and any other outputs as conflicting while its fence is current, and both as stale afterwards; nothing changes |
| `Scheduler.ResolveWorkflowInputs` | crates/hub-core/src/orchestrator.rs:1591-1631 | all inputs resolved, or the fault of the least input that cannot be |
| `SchedulerTheorems.SchedulingIsSafe` | crates/hub-core/src/orchestrator.rs:1199-1331 | in every reachable state pending, in-flight and completed are disjoint, in-flight respects the concurrency limit, each step started at most once and after all its dependencies completed |
| `SchedulerTheorems.BarriersAreKept` | crates/hub-core/src/orchestrator.rs:1225-1259 | every explicit barrier of a started step, and every step it takes an input from, has completed and stands before it among the started steps |
| `SchedulerTheorems.PlacesAreFilled` | crates/hub-core/src/orchestrator.rs:1225-1274 | unless halted, the scheduler leaves a place free only when every pending step still waits for one that has not completed |
| `SchedulerReports.StartedWithItsInputs` | crates/hub-core/src/orchestrator.rs:1591-1631 | a started step was given every input it declares and nothing else, and each artifact it names is stored |
| `SchedulerReports.FaultIsReal` | crates/hub-core/src/orchestrator.rs:1591-1631 | a fault names the least input that cannot be had: an artifact that is not stored or an output that is not published |
| `SchedulerTheorems.NothingStartsAfterHalt` | crates/hub-core/src/orchestrator.rs:1225-1329 | once a failure or a cancellation is recorded nothing starts, and the first of each is never overwritten |
| `SchedulerTheorems.TokenStopsAttempts` | crates/hub-core/src/orchestrator.rs:1225-1274 | once the token is set, at most the one step the guard had already let through still starts, and neither it nor any other pending step makes an attempt |
| `SchedulerToken.StartsAfterTokenIff` | crates/hub-core/src/orchestrator.rs:1225-1274 | once the token is set, some continuation starts a step exactly when one is chosen already and each output it takes from another step is in that step's publication |
| `SchedulerWitness.ChosenStepCanStart` | crates/hub-core/src/orchestrator.rs:1227-1264 | a run in which a step starts after the token was set |
| `SchedulerTheorems.AttemptsAreBounded` | crates/hub-core/src/orchestrator.rs:1364-1530 | a step makes at most its policy's attempts, numbered from one; every attempt but the last failed in a category the policy allows |
| `SchedulerTheorems.GenerationIsAttemptNumber` | crates/hub-core/src/orchestrator.rs:1396-1420 | the fence a worker holds is current, belongs to its latest attempt and has the attempt's number as generation |
| `SchedulerTheorems.CompletedIsPublished` | crates/hub-core/src/orchestrator.rs:1448-1498 | a completed step has an authoritative publication from its last, successful attempt |
| `SchedulerTheorems.InputsComeFromPublications` | crates/hub-core/src/orchestrator.rs:1591-1631 | a started step took each data-flow input from its dependency's authoritative publication |
| `SchedulerTheorems.GuardsAreUnreachable` | crates/hub-core/src/orchestrator.rs:1241-1356 | the stall, vanished-step, missing-publication, incomplete-count and refused-fence branches are never taken |
| `SchedulerReports.PublicationIsExact` | crates/hub-core/src/orchestrator.rs:1472-1497 | a completed step's publication holds exactly the pairs its last execution produced, no label twice |
| `SchedulerReports.ReportIsExact` | crates/hub-core/src/orchestrator.rs:1385-1530 | every report follows from how the latest execution ended: success with exactly its outputs published; failure only of an attempt the policy does not retry; cancellation only when asked or cancelled; duplicate labels and refused publications exactly when there are |
| `SchedulerCauses.OutcomeFollowsReports` | crates/hub-core/src/orchestrator.rs:1298-1361 | over the actions of a run: cancelled exactly when somebody asked before the last look or the first step that did not succeed reported a cancellation, failed exactly when nobody did and that step failed, succeeded exactly when nobody did and there is none; the text is that step's and names it |
| `SchedulerCauses.ReportSetsToken` | crates/hub-core/src/orchestrator.rs:1276-1330 | the first step that does not succeed sets the token |
| `SchedulerCauses.LookStopsStarting` | crates/hub-core/src/orchestrator.rs:1211-1224 | a round that begins with the intent persisted starts nothing, nor does any later one |
| `SchedulerCauses.CancelledBeforeStart` | crates/hub-core/src/orchestrator.rs:1189-1193 | a workflow that ends without having started was cancelled before execution, started nothing and says so |
| `SchedulerCauses.ClosedStaysClosed` | crates/hub-core/src/orchestrator.rs:1179-1188 | a record closed before execution is never executed nor rewritten by an execution |
| `SchedulerIntent.IntentStopsWorkers` | crates/hub-core/src/orchestrator.rs:1385-1530 | once the intent is persisted, each worker stops at its next look with the text due there, makes no attempt but one just being submitted, and its step completes only if its outputs were being published already |
| `SchedulerIntent.TokenStopsAtLook` | crates/hub-core/src/orchestrator.rs:1385-1530 | the token alone stops a worker before an attempt and during backoff |
| `SchedulerOutcome.OutcomeIsExact` | crates/hub-core/src/orchestrator.rs:1333-1361 | a workflow ends cancelled exactly when a step reported a cancellation or somebody asked before the last look; failed exactly when a failure is recorded and neither is the case; success means every step completed and published |
| `SchedulerOutcome.IntentIsHonoured` | crates/hub-core/src/orchestrator.rs:1683-1693 | intent persisted before the last look always ends in cancellation |
| `SchedulerOutcome.SuccessIsCleanIff` | crates/hub-core/src/orchestrator.rs:1744-1803 | a succeeded workflow carries intent, and can come to carry a failure text, exactly when a request arrived while success was being recorded; it carries the text exactly in the continuations where the canceller closes the record |
| `SchedulerOutcome.FailureIsKeptIff` | crates/hub-core/src/orchestrator.rs:1727-1803 | a failed workflow can lose its first failure exactly when a request arrived while the failure was being recorded; it loses it exactly in the continuations where the canceller closes the record |
| `SchedulerWitness.SuccessCanBeMarked` | crates/hub-core/src/orchestrator.rs:1766-1803 | a complete run of a one-step workflow that succeeds and ends with intent and a failure text |
| `SchedulerWitness.FailureCanBeLost` | crates/hub-core/src/orchestrator.rs:1727-1803 | a complete run of a one-step workflow that fails and loses its failure |
| `SchedulerOrder.SequentialFollowsExecutionOrder` | crates/hub-core/src/orchestrator.rs:1225-1259 | with concurrency one the started steps are always a prefix of the execution order, and all of it on success |
| `SchedulerOrder.SuccessIsTopological` | crates/hub-core/src/orchestrator.rs:1225-1259 | with any concurrency a succeeded workflow started its steps in a topological order |
| `SchedulerProgress.StepFalls` | crates/hub-core/src/orchestrator.rs:1199-1361 | every step of the scheduler or a worker lowers a measure that other threads never raise |
| `SchedulerProgress.RunsAreBounded` | crates/hub-core/src/orchestrator.rs:1199-1361 | however threads interleave, a workflow of n steps takes at most 600 n + 12 steps of its own |
| `SchedulerProgress.AlwaysProgress` | crates/hub-core/src/orchestrator.rs:1199-1331 | an execution that has begun and not ended can always take a step |
| `SandboxTheorems.CommandsNeedOwnership` | crates/hub-executor/src/gvisor.rs:221-365 | a start or removal is only issued for a container journalled as owned by that attempt, by a controller that holds the lock and is not reconciling |
| `SandboxTheorems.RunningIsOnRecord` | crates/hub-executor/src/gvisor.rs:221-365 | whatever runs, however late, is on record as owned, and no agent task is started twice |
| `SandboxTheorems.ReconcilingSendsNothing` | crates/hub-executor/src/gvisor.rs:382-445 | over a whole run in which executing controllers take no step, no create, start or removal is sent and no start is logged |
| `SandboxTheorems.RecordsMoveForward` | crates/hub-store-sqlite/src/sandbox_attempt.rs:142-218 | a reservation only becomes owned, and only by the container really created for it; an empty lookup never cleans it; no record is dropped |
| `SandboxTheorems.CleanedIsForever` | crates/hub-executor/src/gvisor.rs:540-584 | after cleaning, in every later state the record is unchanged, no container of the attempt exists and no create of it is pending |
| `SandboxTheorems.WorkspacesAreExclusive` | crates/hub-store-sqlite/src/sandbox_attempt.rs:72-121 | two existing containers never share or nest their workspaces, even ones created after their controllers gave up |
| `SandboxTheorems.ContainersAreBounded` | crates/hub-store-sqlite/src/sandbox_attempt.rs:72-121 | at most 256 such containers exist at once |
| `SandboxClosure.ClosableIff` | crates/hub-executor/src/gvisor.rs:382-445 | a record that is not cleaned can still be closed exactly when it is owned, its create is pending, its container exists, or a live controller is about to send the create or has the container's identity |
| `SandboxClosure.ReservationCanStick` | crates/hub-executor/src/gvisor.rs:221-365 | from any initial state, a controller that reserves and stops leaves a record that no continuation closes |
| `SandboxStarts.TakenIff` | crates/hub-store-sqlite/src/sandbox_attempt.rs:72-121 | a request is taken exactly when its task was never journalled, fewer than 256 records are not cleaned, and none of those has a workspace that is, contains or lies in the requested one |
| `SandboxStarts.ExecutionsStart` | crates/hub-executor/src/gvisor.rs:337-348 | an execution sends and logs the start before it removes anything and sends the removal before it waits; a record it closes belongs to a started task |
| `SandboxStarts.ExecutionCanRun` | crates/hub-executor/src/gvisor.rs:221-365 | from any initial state an execution can be carried through: its container runs, and afterwards its record is closed |
| `SandboxSafety.NextOk` | crates/hub-executor/src/gvisor.rs:221-445 | each step of a controller, of the daemon, a crash or an arrival keeps the protocol's invariant |
| `Workspaces.ValidateTokens` | crates/hub-core/src/task.rs:746-773 | accepts exactly the lists of distinct, bounded, trimmed, control-free tokens |
| `Workspaces.ValidateWorkspace` | crates/hub-core/src/task.rs:104-126 | accepts exactly the declarations with bounded, distinct repositories at exact revisions and unique tokens |
| `Workspaces.CheckEvidence` | crates/hub-core/src/task.rs:205-270 | accepts exactly the observations in one-to-one correspondence with the declared repositories, revision and flag matching |
| `Workspaces.CheckedIsMatched` | crates/hub-core/src/task.rs:209-270 | equal counts, distinct names and an answer each is the same as a bijection |
| `Workspaces.NewEvidence` | crates/hub-core/src/task.rs:160-174 | builds the canonical evidence or refuses |
| `Workspaces.BuildIff` | crates/hub-core/src/task.rs:160-174 | evidence exists exactly for a valid declaration with a matching set of observations |
| `Workspaces.BuildIgnoresOrder` | crates/hub-core/src/task.rs:160-174 | every permutation of the observations gives the same result |
| `Workspaces.ValidateAgainst` | crates/hub-core/src/task.rs:180-203 | decides whether retained evidence still proves the declaration |
| `Workspaces.ValidIffRebuilt` | crates/hub-core/src/task.rs:160-203 | evidence revalidates exactly when it is what would be built afresh from what it retains |
| `TaskLifecycle.TaskRecord.Move` | crates/hub-core/src/task_lifecycle.rs:176-183 | the record after a move and the answer to the caller, admission excluded |
| `TaskLifecycle.TaskRecord.ApplyTransition` | crates/hub-core/src/task_lifecycle.rs:185-212 | a legal, timely move updates state, derived times and history together; otherwise nothing changes |
| `TaskLifecycle.TaskRecord.AdmitTask` | crates/hub-core/src/task_lifecycle.rs:145-166 | admission stores verified evidence before it looks at the clock |
| `TaskLifecycle.Validate` | crates/hub-core/src/task_lifecycle.rs:220-298 | the replay loop accepts exactly the records whose fields follow from their history and whose evidence fits |
| `TaskLifecycle.ValidIffProduced` | crates/hub-core/src/task_lifecycle.rs:126-298 | a record of the current schema validates exactly when some creation and successful calls produce it |
| `TaskLifecycle.CheckUpdate` | crates/hub-core/src/task_lifecycle.rs:310-365 | decides whether a snapshot may replace another |
| `TaskLifecycle.UpdateIffReachable` | crates/hub-core/src/task_lifecycle.rs:310-365 | under the current schema, replacement is allowed exactly when successful calls lead from the one snapshot to the other |
| `TaskLifecycle.UpdatesArePartialOrder` | crates/hub-core/src/task_lifecycle.rs:310-365 | replacement is reflexive on valid snapshots, antisymmetric and transitive, under either schema |
| `TaskLifecycle.FinishedIsFinal` | crates/hub-core/src/task_lifecycle.rs:38-65 | a finished record can only be written again as it is |
| `TaskLifecycle.MovesInto` | crates/hub-core/src/task_lifecycle.rs:38-65 | from which states each state is reached |
| `TaskLifecycle.TimesAreExact` | crates/hub-core/src/task_lifecycle.rs:185-212 | in a valid record admission and start are the times of the first transition to Admitted and Running, the end that of the last transition of a finished record, in this order |
| `TaskLifecycle.MoveKeepsValid` | crates/hub-core/src/task_lifecycle.rs:176-212 | a move never spoils a record and a refused one leaves it alone |
| `TaskLifecycle.AdmitKeepsValidIff` | crates/hub-core/src/task_lifecycle.rs:145-166 | an admission leaves a valid record exactly when it stores nothing, or the schema is current and the clock has not gone back; and exactly when it succeeds |
| `TaskLifecycle.AdmissionCanSpoil` | crates/hub-core/src/task_lifecycle.rs:162-163 | two concrete admissions that leave an invalid record |
| `Events.EventLog.Record` | crates/hub-core/src/event.rs:194-214 | appends with the next number, or fails when numbers run out |
| `Events.EventLog.ListAfter` | crates/hub-core/src/event.rs:217-234 | returns exactly the slice of the log after a number, at most the limit, for limits 1 to 1000 |
| `Events.PagesAreExact` | crates/hub-api/src/lib.rs:798-805 | whatever limits and appends in between, the pages read are a gapless, duplicate-free prefix of the log after the starting point, and all of it exactly when the next page is empty |
| `Events.DeriveTaskEvents` | crates/hub-core/src/event.rs:335-376 | the creation event for a new record, then one event per new transition |
| `Events.HubStore.PutTask` | crates/hub-core/src/memory.rs:637-645 | an admissible write replaces the record and appends its events as far as numbers last; any other changes nothing |
| `Events.LogMatchesRecords` | crates/hub-core/src/memory.rs:125-134 | after any writes, accepted or not, stored records are valid; until numbers run out the log of each one is its creation and its transitions in order |
| `Events.PutKeepsTruthIff` | crates/hub-core/src/memory.rs:637-645 | a write keeps a truthful log truthful exactly when it is not admissible or there are numbers left for all its events |
| `Events.LogIsTruthfulIff` | crates/hub-core/src/event.rs:194-214 | after any history the log is truthful exactly when every admissible write found room; one that did not spoils it for good |
| `Events.ExhaustedLogGoesSilent` | crates/hub-core/src/memory.rs:637-645 | with no number left, writing any valid record stores it, fails and logs nothing, and writing it again succeeds and logs nothing |
| `Events.IdleWritesLeaveNoTrace` | crates/hub-core/src/memory.rs:125-134 | a history and the same history without its rejected and repeated writes end in the same store |
| `Events.LogTellsFields` | crates/hub-core/src/event.rs:335-376 | as long as every admissible write found room, a task's events are its creation with principal and time, then per transition its states, its time and, for an admission, the evidence digest |
| `Events.ReplayGivesState` | crates/hub-core/src/event.rs:335-376 | as long as every admissible write found room, replaying the events of a stored record gives its state |
| `RunEvents.DeriveRunEvents` | crates/hub-core/src/event.rs:295-332 | the creation event for a new run, then one event per transition after those of the stored record |
| `RunEvents.WriteIsToldIff` | crates/hub-core/src/orchestrator.rs:471-543 | in every reachable state of submission, execution, cancellers, restarts and recovery, a write keeps a truthful log truthful exactly when the stored record is the copy its writer read, or is the record being written |
| `RunEvents.FreshWritesAreTold` | crates/hub-store-sqlite/src/lib.rs:383-426 | over a whole run in which every write found what its writer had read, the log is the record's creation and transitions in order |
| `RunEvents.TruthReturnsIff` | crates/hub-core/src/orchestrator.rs:356-545 | some continuation makes the log true exactly when it is true already, or somebody holds a copy whose next write does; otherwise no continuation ever does |
| `RunEvents.ExecutionIsUndisturbed` | crates/hub-core/src/orchestrator.rs:791-799 | an execution that registers while no canceller is under way keeps record and log to itself until it leaves, and the log true |
| `RunEvents.StateIsLastWritten` | crates/hub-core/src/orchestrator.rs:1842-1851 | the stored state is the one written last, by submission, execution, canceller or recovery |
| `RunEvents.LateCancelIsUntold` | crates/hub-core/src/orchestrator.rs:791-812 | a run from the empty store: the execution starts, a stale cancellation goes untold, and the last write makes the log true again |
| `RunEvents.CancelledRunStarts` | crates/hub-core/src/orchestrator.rs:386-473 | a run from the empty store: cancelled, then started and finished from the copy as queued; the log tells a cancellation followed by a success and never becomes true again |
| `Recovery.Repositories.RecoverCancellations` | crates/hub-core/src/orchestrator.rs:1808-1824 | the pass equals its specification, workflow by workflow |
| `Recovery.Repositories.RecoverInterrupted` | crates/hub-core/src/orchestrator.rs:1830-1870 | the pass equals its specification, workflow by workflow |
| `Recovery.Repositories.CancelNamedRuns` | crates/hub-core/src/orchestrator.rs:2018-2035 | ends exactly the live runs a workflow's attempts name |
| `Recovery.AttemptsAreMarked` | crates/hub-core/src/orchestrator.rs:1842-1861 | within a step, exactly the first attempt of each live run is marked failed |
| `Recovery.RecoveryIsExact` | apps/scirust-hubd/src/main.rs:421-434 | from any stored state and listing order, workflows left unfinished are created and without intent, those taken up are settled, all others are untouched |
| `Recovery.RecoveryEndsRuns` | apps/scirust-hubd/src/main.rs:421-434 | a stored run ends exactly when it is live and named by a workflow taken up: cancelled where a cancellation was pending, failed otherwise |
| `Recovery.RecoveryMarksAttempts` | crates/hub-core/src/orchestrator.rs:1842-1861 | in every workflow that was running, exactly the first attempt naming each surviving run is marked failed, across its steps, and each step exactly when its own run is among those |
| `Recovery.RecoveryIsIdempotent` | apps/scirust-hubd/src/main.rs:421-434 | recovering again changes nothing |
| `Admission.Components.Put` | crates/hub-core/src/memory.rs:41-58 | inserts a new entry, repeats an equal digest, refuses another; an entry is never replaced |
| `Admission.Components.Latest` | crates/hub-core/src/memory.rs:60-68 | the manifest with the greatest version, or none |
| `Admission.ExecutionAlwaysResolves` | crates/hub-core/src/orchestrator.rs:402-432 | over any interleaving, executing a claimed run finds its component, digest, capability and contract unchanged, and the manifest it was admitted with |
| `Admission.ExecutesWhatWasAdmitted` | crates/hub-core/src/orchestrator.rs:356-432 | every execution is of the admitted manifest, and no run executes twice |
| `Admission.ReproductionIsFaithful` | crates/hub-core/src/orchestrator.rs:1887-1945 | along any chain of reproductions spec, version, digest, contract and manifest are the first original's; a chain is finite and repeats no run |
| `Admission.ReproductionAlwaysResolves` | crates/hub-core/src/orchestrator.rs:1887-1925 | a recorded run's component can always be resolved again |
| `Admission.AdmissionsLast` | crates/hub-core/src/memory.rs:41-58 | registered manifests and admissions never change later |
| `AdmissionBindings.HeldIff` | crates/hub-core/src/orchestrator.rs:259-291 | a submission comes to hold a manifest exactly when it is the pinned one, or without pins the latest, and declares the capability with the pinned contract |
| `AdmissionBindings.AdmittedIff` | crates/hub-core/src/orchestrator.rs:297-346 | what a submission holds is admitted exactly when its inputs are the ports of the capability and its artifacts are stored; it is then queued with its pins, otherwise nothing is recorded |
| `AdmissionBindings.RecordedRunsFit` | crates/hub-core/src/orchestrator.rs:297-322 | in every reachable state each recorded run names exactly the ports of its capability in the admitted manifest, and its artifacts are stored |
| `AdmissionBindings.ReproductionGoesThrough` | crates/hub-core/src/orchestrator.rs:1887-1945 | in every reachable state any recorded run can be reproduced to a queued run with its spec and manifest |
| `AdmissionBindings.StateIsLastWritten` | crates/hub-core/src/orchestrator.rs:341-543 | a recorded run's state is the one written last, by admission, execution or canceller |
| `AdmissionBindings.ExecutionIsAlone` | crates/hub-core/src/orchestrator.rs:791-799 | an execution that claims a run while no canceller is at it keeps the record to itself as long as it lasts |
| `BundleTrees.ScanOrderIsIrrelevant` | scripts/soup_hub_adapter.py:134-153 | the listing is the same for every order in which directories are scanned |
| `BundleTrees.FlattenDirExact` | scripts/soup_hub_adapter.py:134-153 | the listing holds each path of the tree exactly once, with what is there |
| `BundleTrees.FlattenDirIffRegular` | scripts/soup_hub_adapter.py:143-151 | a listing exists exactly when the tree has no link and no special file |
| `Bundles.CreateBundle` | scripts/soup_hub_adapter.py:156-199 | the bundle is a function of the tree, within the entry and byte limits |
| `Bundles.NameRoundTrip` | scripts/soup_hub_adapter.py:178-221 | a member's name parses back to the path it was made from |
| `BundleExtraction.ExtractBundle` | scripts/soup_hub_adapter.py:202-245 | the extraction loop equals its specification |
| `BundleExtraction.ExtractExact` | scripts/soup_hub_adapter.py:202-245 | any archive is accepted exactly when its members are few, safe, distinct, within budget and compatible; then exactly they and the directories above them are on disk |
| `BundleExtraction.ExtractionStaysInside` | scripts/soup_hub_adapter.py:216-231 | every written path stays below the destination |
| `BundleExtraction.RoundTripIff` | scripts/soup_hub_adapter.py:156-245 | a created bundle extracts exactly when the tree has fewer than 100000 entries, and then gives the same tree, names and bytes |
| `BundleExtraction.FullBundleIsStuck` | scripts/soup_hub_adapter.py:164-214 | a directory of exactly 100000 empty files, named by six-digit numerals, is bundled and cannot be extracted |

## Left out

- Storage errors, lock poisoning and panics: every repository call is taken to succeed, apart from the sandbox protocol, where a controller may crash anywhere, and run execution, where a fault may stop it anywhere.
- Wall-clock waiting and backoff: only the choice to continue or stop is kept.
- Clock readings: one argument per call or pass, where the original may read the clock several times.
- The SQLite store beyond the sandbox-attempt journal and the transaction of a run write, remote workers, HTTP, TLS, the command line and metrics.
- Process spawning, container arguments, mounts and quotas; file locks are atomic and a controller takes both of its locks in one step.
- SHA-256, JSON encoding and the tar byte format: digests are functions, bundles are lists of members.
- Grammar of component, capability and version names, the SciCapsule contract and placeholder checks on submission; a submission may be abandoned at any point instead.
- Versions are numbers, of which only the order matters; identifiers the original generates at random are taken to be fresh.
- Texts of error messages, except where one is stored.
- The scheduler and the sandbox protocol are transition systems on values, because their threads share state; update in place is not shown there. Step results are a map by step key rather than a sorted vector.
- A task write reads the previous record and stores the new one in one step. Where the scheduler merges several accesses, `Scheduler.dfy` says which and why no interleaving is lost.
- In the task store, events about anything else are one kind of entry. Events of runs are modelled one run at a time, without number exhaustion, and of its record only what the events tell; writing a run and its events is one step, as in the SQLite store. The derivation of workflow, artifact and component events is not modelled.
- A tree does not change while it is bundled, and a failed creation or extraction leaves files that are not described.
- The counts that the recovery passes return, and their log lines.
- Workflow admission pins per step and classification of process outcomes: one-branch members.
