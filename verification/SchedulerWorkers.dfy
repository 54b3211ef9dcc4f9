/** What one worker keeps while it runs the retry loop of its step, whatever it
    reads of the cancel token and the persisted intent. */
module SchedulerWorkers {
  import opened Keys
  import opened Workflows
  import opened Publications
  import opened Runs
  import opened Scheduler

  /** The attempt failed in a category the step's policy allows to retry. */
  predicate Retryable(step: Step, a: StepAttempt)
  {
    && a.state == RunFailed
    && a.category.Some?
    && step.retry.Some?
    && step.retry.value.Allows(a.category.value)
  }

  ghost predicate AllRetryable(step: Step, attempts: seq<StepAttempt>)
  {
    forall i :: 0 <= i < |attempts| ==> Retryable(step, attempts[i])
  }

  /** Attempts are numbered from one, bounded by the policy, with distinct runs,
      and every one but the last failed retryably. */
  ghost predicate ChainOk(step: Step, attempts: seq<StepAttempt>)
  {
    && |attempts| <= step.AttemptLimit()
    && (forall i :: 0 <= i < |attempts| ==> attempts[i].number == i + 1)
    && (forall i, j :: 0 <= i < j < |attempts| ==> attempts[i].run != attempts[j].run)
    && (forall i :: 0 <= i < |attempts| - 1 ==> Retryable(step, attempts[i]))
  }

  ghost predicate RunsKnown(attempts: seq<StepAttempt>, runs: set<RunId>)
  {
    forall i :: 0 <= i < |attempts| ==> attempts[i].run in runs
  }

  /** The step result repeats its latest attempt. */
  ghost predicate Mirrors(result: Option<StepResult>)
  {
    result.Some? ==>
      && |result.value.attempts| > 0
      && result.value.run == Last(result.value.attempts).run
      && result.value.state == Last(result.value.attempts).state
  }

  function Last(attempts: seq<StepAttempt>): StepAttempt
    requires |attempts| > 0
  {
    attempts[|attempts| - 1]
  }

  function GenerationOf(entry: Option<Entry>): nat
  {
    if entry.Some? then entry.value.fence.generation else 0
  }

  predicate Unpublished(entry: Option<Entry>)
  {
    entry.Some? ==> entry.value.publication.None?
  }

  /** The fence of attempt `n` carries generation `n`. */
  function FenceFor(workflow: WorkflowId, key: Key, attempts: seq<StepAttempt>): Fence
    requires |attempts| > 0
  {
    Fence(FENCE_SCHEMA_VERSION, workflow, key, Last(attempts).id, |attempts|)
  }

  /** The latest attempt succeeded and its outputs are authoritative. */
  ghost predicate PublishedOk(workflow: WorkflowId, key: Key, result: Option<StepResult>, entry: Option<Entry>)
  {
    var attempts := AttemptsOf(result);
    && |attempts| > 0
    && Last(attempts).state == RunSucceeded
    && entry.Some?
    && entry.value.fence == FenceFor(workflow, key, attempts)
    && entry.value.publication.Some?
    && entry.value.publication.value.fence == entry.value.fence
  }

  ghost predicate Holding(workflow: WorkflowId, key: Key, attempts: seq<StepAttempt>, entry: Option<Entry>,
                          fence: Fence)
  {
    && |attempts| > 0
    && fence == FenceFor(workflow, key, attempts)
    && entry == Some(Entry(fence, None))
  }

  ghost predicate PcOk(workflow: WorkflowId, step: Step, w: Worker, result: Option<StepResult>, entry: Option<Entry>)
    requires w.number >= 1
  {
    var attempts, n := AttemptsOf(result), w.number;
    match w.pc
    case Checking => |attempts| == n - 1 && AllRetryable(step, attempts) && GenerationOf(entry) == n - 1
      && Unpublished(entry)
    case Submitting => |attempts| == n - 1 && AllRetryable(step, attempts) && GenerationOf(entry) == n - 1
      && Unpublished(entry)
    case Fencing(run, attempt) =>
      && |attempts| == n && Last(attempts).run == run && Last(attempts).id == attempt
      && GenerationOf(entry) == n - 1 && Unpublished(entry)
    case Executing(run, fence) =>
      |attempts| == n && Last(attempts).run == run && Holding(workflow, step.key, attempts, entry, fence)
    case Finishing(run, fence, end) =>
      |attempts| == n && Last(attempts).run == run && Holding(workflow, step.key, attempts, entry, fence)
    case Deciding(fence, end) =>
      && |attempts| == n && Last(attempts).state == end.State() && Last(attempts).category == end.Category()
      && Holding(workflow, step.key, attempts, entry, fence) && !end.EndErrored?
    case Publishing(fence, outputs) =>
      |attempts| == n && Last(attempts).state == RunSucceeded && Holding(workflow, step.key, attempts, entry, fence)
    case Waiting =>
      && |attempts| == n && AllRetryable(step, attempts) && n < step.AttemptLimit()
      && GenerationOf(entry) == n && Unpublished(entry)
    case Done(terminal) =>
      terminal.StepSucceeded? ==> PublishedOk(workflow, step.key, result, entry)
  }

  ghost predicate WorkerOk(workflow: WorkflowId, step: Step, w: Worker, result: Option<StepResult>,
                           entry: Option<Entry>)
  {
    && 1 <= w.number <= step.AttemptLimit()
    && PcOk(workflow, step, w, result, entry)
  }

  ghost predicate ResultOk(step: Step, result: Option<StepResult>, runs: set<RunId>)
  {
    ChainOk(step, AttemptsOf(result)) && RunsKnown(AttemptsOf(result), runs) && Mirrors(result)
  }

  /** Branches that only guard against states that cannot arise. */
  predicate Reachable(c: Cause)
  {
    match c
    case InputUnresolved(_, _, fault) => fault != NoPublication
    case StepVanished(_) => false
    case Incomplete(_, _) => false
    case StepErrored(_, e) =>
      (match e
       case FenceRefused(_) => false
       case PublishRefused(reason) => reason == InvalidPublication
       case _ => true)
    case _ => true
  }

  /** The cause lies with a step and not with a canceller. */
  predicate Blames(c: Cause)
  {
    c.InputUnresolved? || c.StepVanished? || c.AttemptFailed? || c.StepErrored?
  }

  predicate TerminalReachable(t: Terminal)
  {
    match t
    case StepSucceeded => true
    case StepFailed(c) => Reachable(c) && Blames(c)
    case StepCancelled(c) => Reachable(c)
    case StepError(c) => Reachable(c) && Blames(c)
  }

  predicate PcReachable(pc: Pc)
  {
    pc.Done? ==> TerminalReachable(pc.terminal)
  }

  ghost function EntryAt(fences: Entries, slot: Slot): Option<Entry>
  {
    if slot in fences then Some(fences[slot]) else None
  }

  /** A worker step touches its own slot only. */
  ghost predicate OnlySlot(before: Entries, after: Entries, slot: Slot)
  {
    forall other :: other != slot ==> EntryAt(before, other) == EntryAt(after, other)
  }

  ghost predicate LocalOk(workflow: WorkflowId, step: Step, l: Local)
  {
    && ResultOk(step, l.result, l.runs)
    && WorkerOk(workflow, step, l.worker, l.result, EntryAt(l.fences, (workflow, step.key)))
    && PcReachable(l.worker.pc)
  }

  predicate StepUsable(step: Step)
  {
    ValidKey(step.key) && (step.retry.Some? ==> step.retry.value.Valid())
  }

  lemma RecordKeepsChain(step: Step, result: Option<StepResult>, runs: set<RunId>, a: StepAttempt)
    requires ResultOk(step, result, runs) && AllRetryable(step, AttemptsOf(result))
    requires a.number == |AttemptsOf(result)| + 1 <= step.AttemptLimit() && a.run !in runs
    ensures ResultOk(step, Some(RecordAttempt(result, a)), runs + {a.run})
  {
    var before, after := AttemptsOf(result), AttemptsOf(result) + [a];
    forall i | 0 <= i < |after| - 1
      ensures Retryable(step, after[i])
    {
      assert after[i] == before[i];
    }
  }

  lemma FinishKeepsChain(step: Step, result: StepResult, runs: set<RunId>, state: RunState,
                         category: Option<FailureCategory>)
    requires ResultOk(step, Some(result), runs)
    ensures var after := FinishAttempt(result, Last(result.attempts).run, state, category);
            && ResultOk(step, Some(after), runs)
            && |after.attempts| == |result.attempts|
            && Last(after.attempts) == Last(result.attempts).(state := state, category := category)
  {
    var run, n := Last(result.attempts).run, |result.attempts| - 1;
    var i := AttemptIndex(result.attempts, run);
    assert i == n;
    var after := FinishAttempt(result, run, state, category);
    assert forall j :: 0 <= j < n ==> after.attempts[j] == result.attempts[j];
    assert forall j :: 0 <= j <= n ==>
      after.attempts[j].run == result.attempts[j].run && after.attempts[j].number == result.attempts[j].number;
  }

  lemma AdvanceExact(fences: Entries, workflow: WorkflowId, key: Key, attempt: AttemptId)
    requires ValidKey(key) && GenerationOf(EntryAt(fences, (workflow, key))) < MAX_ATTEMPTS
    ensures Advance(fences, workflow, key, attempt).Ok?
    ensures
      var (after, fence) := Advance(fences, workflow, key, attempt).value;
      && fence
         == Fence(FENCE_SCHEMA_VERSION, workflow, key, attempt, GenerationOf(EntryAt(fences, (workflow, key))) + 1)
      && EntryAt(after, (workflow, key)) == Some(Entry(fence, None))
      && OnlySlot(fences, after, (workflow, key))
  {
  }

  lemma PublishExact(fences: Entries, p: Publication)
    requires p.fence.Valid() && EntryAt(fences, p.fence.Slot()) == Some(Entry(p.fence, None))
    ensures Publish(fences, p).Err? ==> Publish(fences, p).error == InvalidPublication
    ensures Publish(fences, p).Ok? ==>
      var (after, _) := Publish(fences, p).value;
      && EntryAt(after, p.fence.Slot()) == Some(Entry(p.fence, Some(p)))
      && OnlySlot(fences, after, p.fence.Slot())
  {
  }

  lemma FinishOk(cfg: Config, step: Step, token: bool, intent: bool, l: Local)
    requires LocalOk(cfg.workflow, step, l) && StepUsable(step) && l.worker.pc.Finishing?
    ensures LocalOk(cfg.workflow, step, WorkerStep(cfg, step, token, intent, l, RecordEnd).value)
  {
    var end := l.worker.pc.end;
    FinishKeepsChain(step, l.result.value, l.runs, end.State(), end.Category());
  }

  lemma SubmitOk(cfg: Config, step: Step, token: bool, intent: bool, l: Local, run: RunId, attempt: AttemptId)
    requires LocalOk(cfg.workflow, step, l) && StepUsable(step) && l.worker.pc.Submitting? && run !in l.runs
    ensures LocalOk(cfg.workflow, step, WorkerStep(cfg, step, token, intent, l, Submit(run, attempt)).value)
  {
    RecordKeepsChain(step, l.result, l.runs, StepAttempt(attempt, l.worker.number, run, RunQueued, None));
  }

  lemma DecideOk(cfg: Config, step: Step, token: bool, intent: bool, l: Local)
    requires LocalOk(cfg.workflow, step, l) && StepUsable(step) && l.worker.pc.Deciding?
    ensures LocalOk(cfg.workflow, step, WorkerStep(cfg, step, token, intent, l, Decide).value)
  {
    var end, attempts := l.worker.pc.end, AttemptsOf(l.result);
    if !intent && !end.EndCancelled? && !end.EndSucceeded? && RetryDue(step, l.worker.number, end) {
      forall i | 0 <= i < |attempts|
        ensures Retryable(step, attempts[i])
      {
        if i == |attempts| - 1 { assert attempts[i] == Last(attempts); }
      }
    }
  }

  lemma FenceOk(cfg: Config, step: Step, token: bool, intent: bool, l: Local)
    requires LocalOk(cfg.workflow, step, l) && StepUsable(step) && l.worker.pc.Fencing?
    ensures LocalOk(cfg.workflow, step, WorkerStep(cfg, step, token, intent, l, TakeFence).value)
  {
    assert step.AttemptLimit() <= MAX_ATTEMPTS;
    AdvanceExact(l.fences, cfg.workflow, step.key, l.worker.pc.attempt);
  }

  lemma PublishOk(cfg: Config, step: Step, token: bool, intent: bool, l: Local)
    requires LocalOk(cfg.workflow, step, l) && StepUsable(step) && l.worker.pc.Publishing?
    ensures LocalOk(cfg.workflow, step, WorkerStep(cfg, step, token, intent, l, PublishOutputs).value)
  {
    var fence, outputs := l.worker.pc.fence, l.worker.pc.outputs;
    if OutputMap(outputs).Some? {
      PublishExact(l.fences, Publication(fence, OutputMap(outputs).value));
    }
  }

  lemma QuietOk(cfg: Config, step: Step, token: bool, intent: bool, l: Local, input: WorkerInput)
    requires LocalOk(cfg.workflow, step, l)
    requires input.Check? || input.SubmitError? || input.Execute? || input.Backoff?
    requires WorkerStep(cfg, step, token, intent, l, input).Some?
    ensures var l' := WorkerStep(cfg, step, token, intent, l, input).value;
      LocalOk(cfg.workflow, step, l')
  {
  }

  /** Every worker step keeps the worker's invariant. */
  lemma WorkerStepOk(cfg: Config, step: Step, token: bool, intent: bool, l: Local, input: WorkerInput)
    requires LocalOk(cfg.workflow, step, l) && StepUsable(step)
    requires WorkerStep(cfg, step, token, intent, l, input).Some?
    ensures LocalOk(cfg.workflow, step, WorkerStep(cfg, step, token, intent, l, input).value)
  {
    match input
    case Submit(run, attempt) => SubmitOk(cfg, step, token, intent, l, run, attempt);
    case TakeFence => FenceOk(cfg, step, token, intent, l);
    case RecordEnd => FinishOk(cfg, step, token, intent, l);
    case Decide => DecideOk(cfg, step, token, intent, l);
    case PublishOutputs => PublishOk(cfg, step, token, intent, l);
    case _ => QuietOk(cfg, step, token, intent, l, input);
  }

  /** A worker leaves the fences of all other steps and workflows alone. */
  lemma WorkerStepFrame(cfg: Config, step: Step, token: bool, intent: bool, l: Local, input: WorkerInput)
    requires l.worker.pc.Publishing? ==> l.worker.pc.fence.Slot() == (cfg.workflow, step.key)
    requires WorkerStep(cfg, step, token, intent, l, input).Some?
    ensures var l' := WorkerStep(cfg, step, token, intent, l, input).value;
      && OnlySlot(l.fences, l'.fences, (cfg.workflow, step.key))
      && l.runs <= l'.runs
      && (l.result.Some? ==> l'.result.Some?)
  {
  }
}
