/** The workflow scheduler as a transition system.

    The original runs one scheduling loop and one worker thread per started step;
    cancellation requests arrive from other threads.  A run is any sequence of
    `Action`s that are enabled one after the other.  An access to shared state is an
    action of its own, except where several are merged and no interleaving is lost:

    - `ExecuteWorkflow` registers the execution and reads the record.  What cancellers
      do in between they could do before, or, as for the token, which is first read in
      `Boot`, after.
    - `Spawn` reads all inputs.  Publications of completed steps do not change and
      artifacts are only added, so what earlier reads found is there at the last one.
    - `Submit` writes the run and names it in the workflow record.  Nobody knows the
      run before that.
    - `FinishCancel` reads the record and writes it.  The intent was persisted before,
      so an execution that comes between ends cancelled as well, and its text is
      replaced either way.
    - The write that ends an execution also unregisters it.  A canceller that comes
      between only sets a token nobody reads any more.

    Starting a step is two actions: the guard reads the token, and the body then starts
    what was chosen. */
module Scheduler {
  import opened Keys
  import opened Workflows
  import opened Publications
  import opened Runs

  datatype Config = Config(workflow: WorkflowId, spec: WorkflowSpec)

  // -------------------------------------------------------- input resolution

  datatype InputFault = ArtifactMissing | NoPublication | NoSuchOutput

  function ResolveSource(workflow: WorkflowId, fences: Entries, artifacts: set<ArtifactId>, source: InputSource)
    : Result<ArtifactId, InputFault>
  {
    match source
    case Artifact(a) => if a in artifacts then Ok(a) else Err(ArtifactMissing)
    case FromStep(dep, output) =>
      match Authoritative(fences, workflow, dep)
      case None => Err(NoPublication)
      case Some(p) => if output in p.outputs then Ok(p.outputs[output]) else Err(NoSuchOutput)
  }

  function Unresolved(workflow: WorkflowId, fences: Entries, artifacts: set<ArtifactId>,
                      inputs: map<string, InputSource>): set<string>
  {
    set n | n in inputs && ResolveSource(workflow, fences, artifacts, inputs[n]).Err?
  }

  /** Every input resolved, or the fault of the first input that is not. */
  function ResolveInputs(workflow: WorkflowId, fences: Entries, artifacts: set<ArtifactId>,
                         inputs: map<string, InputSource>)
    : Result<map<string, ArtifactId>, (string, InputFault)>
  {
    var bad := Unresolved(workflow, fences, artifacts, inputs);
    if bad == {} then
      assert forall n :: n in inputs ==> n !in bad;
      Ok(map n | n in inputs :: ResolveSource(workflow, fences, artifacts, inputs[n]).value)
    else
      var n := Least(bad);
      Err((n, ResolveSource(workflow, fences, artifacts, inputs[n]).error))
  }

  /** Resolves input by input in name order, stopping at the first fault. */
  method ResolveWorkflowInputs(workflow: WorkflowId, fences: Entries, artifacts: set<ArtifactId>,
                               inputs: map<string, InputSource>)
    returns (r: Result<map<string, ArtifactId>, (string, InputFault)>)
    ensures r == ResolveInputs(workflow, fences, artifacts, inputs)
  {
    var resolved: map<string, ArtifactId> := map[];
    var left := inputs.Keys;
    ghost var bad := Unresolved(workflow, fences, artifacts, inputs);
    while left != {}
      invariant left <= inputs.Keys && bad <= left
      invariant resolved.Keys == inputs.Keys - left
      invariant forall n :: n in resolved ==> Ok(resolved[n]) == ResolveSource(workflow, fences, artifacts, inputs[n])
      decreases |left|
    {
      var n := Least(left);
      match ResolveSource(workflow, fences, artifacts, inputs[n]) {
        case Ok(a) =>
          resolved := resolved[n := a];
          left := left - {n};
        case Err(fault) =>
          LeastUnique(bad, n, Least(bad));
          return Err((n, fault));
      }
    }
    assert bad == {};
    assert resolved == ResolveInputs(workflow, fences, artifacts, inputs).value;
    return Ok(resolved);
  }

  // ------------------------------------------------------------------ state

  /** Errors that escape an attempt instead of ending it. */
  datatype StepFault =
    | SubmitRefused
    | FenceRefused(reason: FenceError)
    | RunErrored
    | DuplicateOutput
    | PublishRefused(reason: FenceError)

  /** Why a step, or the workflow, did not succeed. */
  datatype Cause =
    | InputUnresolved(step: Key, input: string, fault: InputFault)
    | StepVanished(step: Key)
    | AttemptFailed(step: Key, attempt: nat)
    | StepErrored(step: Key, error: StepFault)
    | RunEnded(step: Key)
    | CancelRequested
    | CancelledInBackoff
    | CancelledBeforeExecution
    | Incomplete(done: nat, total: nat)

  /** What a worker reports. */
  datatype Terminal = StepSucceeded | StepFailed(cause: Cause) | StepCancelled(cause: Cause) | StepError(cause: Cause)

  /** How the execution of one attempt ended. */
  datatype RunEnd =
    | EndSucceeded(outputs: seq<(string, ArtifactId)>)
    | EndFailed(category: FailureCategory)
    | EndCancelled
    | EndErrored(state: RunState)
  {
    function State(): RunState
    {
      match this
      case EndSucceeded(_) => RunSucceeded
      case EndFailed(_) => RunFailed
      case EndCancelled => RunCancelled
      case EndErrored(s) => s
    }

    function Category(): Option<FailureCategory>
    {
      match this
      case EndSucceeded(_) => None
      case EndFailed(c) => Some(c)
      case EndCancelled => Some(CategoryCancelled)
      case EndErrored(_) => Some(ExecutionError)
    }
  }

  /** Where a worker stands in the retry loop of its step. */
  datatype Pc =
    | Checking
    | Submitting
    | Fencing(run: RunId, attempt: AttemptId)
    | Executing(run: RunId, fence: Fence)
    | Finishing(run: RunId, fence: Fence, end: RunEnd)
    | Deciding(fence: Fence, end: RunEnd)
    | Publishing(fence: Fence, outputs: seq<(string, ArtifactId)>)
    | Waiting
    | Done(terminal: Terminal)

  datatype Worker = Worker(pc: Pc, number: nat)

  /** Where the scheduling thread stands. */
  datatype Phase =
    | Idle | Rejected | Booting | Starting
    | Refreshing | Launching | Chosen(key: Key) | Settling | Receiving | Stalled
    | Concluding | Completing | Failing(cause: Cause) | FailCommitting(cause: Cause) | Cancelling(cause: Cause)
    | Ended(outcome: Outcome)

  /** The steps and what they have produced. */
  datatype Work = Work(
    pending: set<Key>,
    inFlight: set<Key>,
    completed: set<Key>,
    workers: map<Key, Worker>,
    steps: map<Key, StepResult>,
    fences: Entries,
    runs: set<RunId>,
    // history: steps in the order they were started, with their inputs
    started: seq<Key>,
    resolved: map<Key, map<string, ArtifactId>>)

  datatype State = State(
    phase: Phase,
    work: Work,
    failure: Option<Cause>,
    reason: Option<Cause>,
    token: bool,
    artifacts: set<ArtifactId>,
    // the stored record: its state, cancellation intent and failure text
    stored: StoredState,
    intent: bool,
    message: Option<Cause>,
    // the scheduler's own copy of the intent
    seen: bool,
    // some canceller has persisted its intent and may still signal
    signalling: bool,
    // some canceller has found no registered execution and will close the record
    closing: bool)

  /** Nothing started; no step of this workflow has a fence yet. */
  ghost predicate Untouched(cfg: Config, w: Work)
  {
    && w.pending == StepKeys(cfg.spec.steps) && w.inFlight == {} && w.completed == {}
    && w.workers == map[] && w.steps == map[]
    && (forall slot :: slot in w.fences ==> slot.0 != cfg.workflow)
    && w.started == [] && w.resolved == map[]
  }

  /** A submitted workflow nobody has executed. */
  ghost predicate Initial(cfg: Config, s: State)
  {
    && s.phase == Idle && Untouched(cfg, s.work)
    && s.failure == None && s.reason == None && !s.token
    && s.stored == StoredCreated && !s.intent && s.message == None
    && !s.seen && !s.signalling && !s.closing
  }

  // ---------------------------------------------------------------- workers

  /** The part of the state one worker works on. */
  datatype Local = Local(worker: Worker, result: Option<StepResult>, fences: Entries, runs: set<RunId>)

  /** Output labels must be distinct to be published. */
  function OutputMap(outputs: seq<(string, ArtifactId)>): Option<Outputs>
  {
    if outputs == [] then Some(map[]) else
      match OutputMap(outputs[..|outputs| - 1])
      case None => None
      case Some(m) =>
        var (name, artifact) := outputs[|outputs| - 1];
        if name in m then None else Some(m[name := artifact])
  }

  datatype WorkerInput =
    | Check
    | Submit(run: RunId, attempt: AttemptId)
    | SubmitError
    | TakeFence
    | Execute(end: RunEnd)
    | RecordEnd
    | Decide
    | PublishOutputs
    | Backoff

  /** A retry is due when the policy allows the category and attempts are left. */
  predicate RetryDue(step: Step, number: nat, end: RunEnd)
  {
    step.retry.Some? && number < step.retry.value.maxAttempts && end.Category().Some?
      && step.retry.value.Allows(end.Category().value)
  }

  function Stop(l: Local, terminal: Terminal): Local
  {
    l.(worker := l.worker.(pc := Done(terminal)))
  }

  function At(l: Local, pc: Pc): Local
  {
    l.(worker := l.worker.(pc := pc))
  }

  /** One atomic step of a worker, given what it reads of the cancel token and of
      the persisted intent.  `None` when the input does not apply. */
  function WorkerStep(cfg: Config, step: Step, token: bool, intent: bool, l: Local, input: WorkerInput): Option<Local>
  {
    match (l.worker.pc, input)
    case (Checking, Check) =>
      Some(if token || intent then Stop(l, StepCancelled(CancelRequested)) else At(l, Submitting))
    case (Submitting, SubmitError) =>
      Some(Stop(l, StepError(StepErrored(step.key, SubmitRefused))))
    case (Submitting, Submit(run, attempt)) =>
      if run in l.runs then None else
        var made := StepAttempt(attempt, l.worker.number, run, RunQueued, None);
        Some(At(l, Fencing(run, attempt)).(result := Some(RecordAttempt(l.result, made)), runs := l.runs + {run}))
    case (Fencing(run, attempt), TakeFence) =>
      (match Advance(l.fences, cfg.workflow, step.key, attempt)
       case Ok((after, fence)) => Some(At(l, Executing(run, fence)).(fences := after))
       case Err(e) => Some(Stop(l, StepError(StepErrored(step.key, FenceRefused(e))))))
    case (Executing(run, fence), Execute(end)) =>
      Some(At(l, Finishing(run, fence, end)))
    case (Finishing(run, fence, end), RecordEnd) =>
      var after := l.(result := match l.result
                                case None => None
                                case Some(r) => Some(FinishAttempt(r, run, end.State(), end.Category())));
      Some(if end.EndErrored? then Stop(after, StepError(StepErrored(step.key, RunErrored)))
           else At(after, Deciding(fence, end)))
    case (Deciding(fence, end), Decide) =>
      Some(if intent || end.EndCancelled? then
             Stop(l, StepCancelled(if end.EndSucceeded? then CancelRequested else RunEnded(step.key)))
           else if end.EndSucceeded? then
             At(l, Publishing(fence, end.outputs))
           else if RetryDue(step, l.worker.number, end) then
             At(l, Waiting)
           else
             Stop(l, StepFailed(AttemptFailed(step.key, l.worker.number))))
    case (Publishing(fence, outputs), PublishOutputs) =>
      (match OutputMap(outputs)
       case None => Some(Stop(l, StepError(StepErrored(step.key, DuplicateOutput))))
       case Some(m) =>
         (match Publish(l.fences, Publication(fence, m))
          case Ok((after, _)) => Some(Stop(l, StepSucceeded).(fences := after))
          case Err(e) => Some(Stop(l, StepError(StepErrored(step.key, PublishRefused(e)))))))
    case (Waiting, Backoff) =>
      Some(if token || intent then Stop(l, StepCancelled(CancelledInBackoff))
           else l.(worker := Worker(Checking, l.worker.number + 1)))
    case _ => None
  }

  // ---------------------------------------------------------------- actions

  datatype Action =
    // the scheduling thread
    | ExecuteWorkflow | Boot | Start
    | Refresh | Launch | Spawn | Settle | Receive(key: Key)
    | Conclude | Complete | RefreshFailure | CommitFailure | CommitCancel
    // a worker
    | Work(key: Key, input: WorkerInput)
    // other threads
    | RequestCancel | SignalToken | FindNoExecution | FinishCancel
    | OtherWorkflow(slot: Slot, entry: Entry)
    | IngestArtifact(artifact: ArtifactId)

  predicate IsSystem(a: Action)
  {
    !a.RequestCancel? && !a.SignalToken? && !a.FindNoExecution? && !a.FinishCancel? && !a.OtherWorkflow?
      && !a.IngestArtifact?
  }

  function FirstOf<T>(o: Option<T>, default: T): Option<T>
  {
    if o.Some? then o else Some(default)
  }

  /** Pending steps whose dependencies have all completed. */
  function Startable(cfg: Config, pending: set<Key>, completed: set<Key>): set<Key>
  {
    var deps := DependencyMap(cfg.spec.steps);
    set k | k in pending && k in deps && deps[k] <= completed
  }

  predicate MayLaunch(cfg: Config, s: State)
  {
    s.failure.None? && s.reason.None? && !s.token && |s.work.inFlight| < cfg.spec.maxConcurrency
  }

  function StartStep(w: Work, k: Key, resolved: map<string, ArtifactId>): Work
  {
    w.(pending := w.pending - {k},
       inFlight := w.inFlight + {k},
       workers := w.workers[k := Worker(Checking, 1)],
       started := w.started + [k],
       resolved := w.resolved[k := resolved])
  }

  /** The guard of the inner loop: choose the least startable step, or leave. */
  function LaunchStep(cfg: Config, s: State): State
  {
    var ready := Startable(cfg, s.work.pending, s.work.completed);
    s.(phase := if !MayLaunch(cfg, s) || ready == {} then Settling else Chosen(Least(ready)))
  }

  /** The body of the inner loop: resolve the chosen step's inputs and start it.
      The token is not looked at again. */
  function SpawnStep(cfg: Config, s: State, k: Key): State
  {
    match FindStep(cfg.spec.steps, k)
    case None => s.(phase := Settling, failure := Some(StepVanished(k)))
    case Some(step) =>
      match ResolveInputs(cfg.workflow, s.work.fences, s.artifacts, step.inputs)
      case Err((n, fault)) => s.(phase := Settling, failure := Some(InputUnresolved(k, n, fault)))
      case Ok(resolved) => s.(phase := Launching, work := StartStep(s.work, k, resolved))
  }

  function SettleStep(s: State): State
  {
    var t := s.(token := s.token || s.failure.Some?);
    if t.work.inFlight != {} then t.(phase := Receiving)
    else if t.work.pending == {} || t.failure.Some? || t.reason.Some? || t.token then t.(phase := Concluding)
    else t.(phase := Stalled)
  }

  function CollectStep(w: Work, key: Key, success: bool): Work
  {
    w.(inFlight := w.inFlight - {key},
       workers := w.workers - {key},
       completed := if success then w.completed + {key} else w.completed)
  }

  function ReceiveStep(s: State, key: Key, terminal: Terminal): State
  {
    var t := s.(phase := Refreshing, work := CollectStep(s.work, key, terminal.StepSucceeded?));
    match terminal
    case StepSucceeded => t
    case StepFailed(c) => if t.failure.None? then t.(failure := Some(c), token := true) else t
    case StepError(c) => if t.failure.None? then t.(failure := Some(c), token := true) else t
    case StepCancelled(c) => if t.failure.None? && t.reason.None? then t.(reason := Some(c), token := true) else t
  }

  function ConcludeStep(cfg: Config, s: State): State
  {
    var t := s.(seen := s.seen || s.intent);
    if t.seen || t.reason.Some? then t.(phase := Cancelling(if t.reason.Some? then t.reason.value else CancelRequested))
    else if t.failure.Some? then t.(phase := Failing(t.failure.value))
    else if |t.work.completed| != |cfg.spec.steps|
      then t.(phase := Failing(Incomplete(|t.work.completed|, |cfg.spec.steps|)))
    else t.(phase := Completing)
  }

  function LocalOf(w: Work, key: Key): Local
    requires key in w.workers
  {
    Local(w.workers[key], if key in w.steps then Some(w.steps[key]) else None, w.fences, w.runs)
  }

  function Install(w: Work, key: Key, l: Local): Work
  {
    w.(workers := w.workers[key := l.worker],
       steps := if l.result.Some? then w.steps[key := l.result.value] else w.steps,
       fences := l.fences,
       runs := l.runs)
  }

  function WorkStep(cfg: Config, s: State, key: Key, input: WorkerInput): Option<State>
  {
    if key !in s.work.workers then None else
      match FindStep(cfg.spec.steps, key)
      case None => None
      case Some(step) =>
        match WorkerStep(cfg, step, s.token, s.intent, LocalOf(s.work, key), input)
        case None => None
        case Some(l) => Some(s.(work := Install(s.work, key, l)))
  }

  predicate IsLoop(a: Action)
  {
    a.Refresh? || a.Launch? || a.Spawn? || a.Settle? || a.Receive? || a.Conclude?
  }

  predicate IsEdge(a: Action)
  {
    a.ExecuteWorkflow? || a.Boot? || a.Start? || a.Complete? || a.RefreshFailure? || a.CommitFailure? || a.CommitCancel?
  }

  /** The rounds of the scheduling loop and the decision after it. */
  function LoopNext(cfg: Config, s: State, a: Action): Option<State>
    requires IsLoop(a)
  {
    match a
    case Refresh =>
      if s.phase != Refreshing then None
      else if s.intent then
        Some(s.(phase := Launching, seen := true, token := true, reason := FirstOf(s.reason, CancelRequested)))
      else Some(s.(phase := Launching))
    case Launch =>
      if s.phase != Launching then None else Some(LaunchStep(cfg, s))
    case Spawn =>
      if !s.phase.Chosen? then None else Some(SpawnStep(cfg, s, s.phase.key))
    case Settle =>
      if s.phase != Settling then None else Some(SettleStep(s))
    case Receive(k) =>
      if s.phase != Receiving || k !in s.work.workers || !s.work.workers[k].pc.Done? then None
      else Some(ReceiveStep(s, k, s.work.workers[k].pc.terminal))
    case Conclude =>
      if s.phase != Concluding then None else Some(ConcludeStep(cfg, s))
  }

  /** How an execution begins and how it is put on record. */
  function EdgeNext(s: State, a: Action): Option<State>
    requires IsEdge(a)
  {
    match a
    case ExecuteWorkflow =>
      if s.phase != Idle then None
      else Some(s.(phase := if s.stored == StoredCreated then Booting else Rejected))
    case Boot =>
      if s.phase != Booting then None else
        var t := s.(seen := s.seen || s.intent);
        Some(t.(phase := if t.token || t.seen then Cancelling(CancelledBeforeExecution) else Starting))
    case Start =>
      if s.phase != Starting then None else Some(s.(phase := Refreshing, stored := StoredRunning))
    case Complete =>
      if s.phase != Completing then None
      else Some(s.(phase := Ended(WorkflowSucceeded), stored := StoredEnded(WorkflowSucceeded)))
    case RefreshFailure =>
      if !s.phase.Failing? then None else
        var t := s.(seen := s.seen || s.intent);
        Some(t.(phase := if t.seen then Cancelling(s.phase.cause) else FailCommitting(s.phase.cause)))
    case CommitFailure =>
      if !s.phase.FailCommitting? then None
      else Some(s.(phase := Ended(WorkflowFailed), stored := StoredEnded(WorkflowFailed),
                   message := Some(s.phase.cause)))
    case CommitCancel =>
      if !s.phase.Cancelling? then None
      else Some(s.(phase := Ended(WorkflowCancelled), stored := StoredEnded(WorkflowCancelled),
                   seen := true, intent := true, message := Some(s.phase.cause)))
  }

  /** What other threads do: cancel this workflow, run others, ingest artifacts. */
  function OthersNext(cfg: Config, s: State, a: Action): Option<State>
    requires !IsSystem(a)
  {
    match a
    case RequestCancel =>
      if s.stored.StoredEnded? then Some(s) else Some(s.(intent := true, signalling := true))
    case SignalToken =>
      if !s.signalling then None else Some(s.(token := true))
    case FindNoExecution =>
      if !s.signalling || !(s.phase.Idle? || s.phase.Rejected? || s.phase.Ended?) then None
      else Some(s.(closing := true))
    case FinishCancel =>
      if !s.closing then None
      else Some(s.(stored := if s.stored.StoredEnded? then s.stored else StoredEnded(WorkflowCancelled),
                   message := Some(CancelRequested)))
    case OtherWorkflow(slot, entry) =>
      if slot.0 == cfg.workflow then None
      else Some(s.(work := s.work.(fences := s.work.fences[slot := entry])))
    case IngestArtifact(artifact) =>
      Some(s.(artifacts := s.artifacts + {artifact}))
  }

  /** The state after one action, or `None` when it is not enabled. */
  function Next(cfg: Config, s: State, a: Action): Option<State>
  {
    if a.Work? then WorkStep(cfg, s, a.key, a.input)
    else if IsLoop(a) then LoopNext(cfg, s, a)
    else if IsSystem(a) then EdgeNext(s, a)
    else OthersNext(cfg, s, a)
  }

  /** Runs a sequence of actions; `None` as soon as one is not enabled. */
  function Run(cfg: Config, s: State, actions: seq<Action>): Option<State>
  {
    if actions == [] then Some(s) else
      var n := |actions| - 1;
      match Run(cfg, s, actions[..n])
      case None => None
      case Some(t) => Next(cfg, t, actions[n])
  }
}
