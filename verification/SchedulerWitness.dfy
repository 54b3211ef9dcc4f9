/** Complete runs of a workflow of one step, which succeeds or fails while a
    cancellation arrives too late. */
module SchedulerWitness {
  import opened Keys
  import opened Workflows
  import opened Publications
  import opened Runs
  import opened Scheduler
  import opened SchedulerTheorems

  /** One step, no inputs. */
  ghost predicate Single(cfg: Config, step: Step)
  {
    WellFormed(cfg.spec) && cfg.spec.steps == [step] && step.inputs == map[]
  }

  lemma SingleFacts(cfg: Config, step: Step)
    requires Single(cfg, step)
    ensures StepKeys(cfg.spec.steps) == {step.key}
    ensures DependencyMap(cfg.spec.steps) == map[step.key := {}]
    ensures FindStep(cfg.spec.steps, step.key) == Some(step)
    ensures ValidKey(step.key)
  {
    assert cfg.spec.steps[0] == step;
    assert StepWellFormed(cfg.spec.steps[0]) && ReferencesKnown(cfg.spec.steps[0], StepKeys(cfg.spec.steps));
    assert step.Dependencies() == {};
    assert cfg.spec.steps[..0] == [];
  }

  /** The only step is with its worker, which stands at `l`; nothing has gone wrong. */
  ghost predicate Working(s: State, k: Key, l: Local)
  {
    && s.phase == Receiving && s.stored == StoredRunning
    && !s.token && !s.intent && !s.seen && s.failure.None? && s.reason.None?
    && s.work.pending == {} && s.work.inFlight == {k} && s.work.completed == {}
    && k in s.work.workers && LocalOf(s.work, k) == l
  }

  ghost predicate Reachable(cfg: Config, start: State, s: State)
  {
    exists actions :: Run(cfg, start, actions) == Some(s)
  }

  lemma Take(cfg: Config, start: State, s: State, a: Action, t: State)
    requires Reachable(cfg, start, s) && Next(cfg, s, a) == Some(t)
    ensures Reachable(cfg, start, t)
  {
    var actions :| Run(cfg, start, actions) == Some(s);
    RunOne(cfg, start, actions, s, a, t);
  }

  lemma Begin(cfg: Config, start: State) returns (s: State)
    requires Initial(cfg, start)
    ensures Reachable(cfg, start, s) && s == start.(phase := Launching, stored := StoredRunning)
  {
    assert Run(cfg, start, []) == Some(start);
    var s1 := start.(phase := Booting);
    Take(cfg, start, start, ExecuteWorkflow, s1);
    var s2 := s1.(phase := Starting);
    Take(cfg, start, s1, Boot, s2);
    var s3 := s2.(phase := Refreshing, stored := StoredRunning);
    Take(cfg, start, s2, Start, s3);
    s := s3.(phase := Launching);
    Take(cfg, start, s3, Refresh, s);
  }

  lemma ChooseOnly(cfg: Config, step: Step, s: State)
    requires Single(cfg, step) && Untouched(cfg, s.work) && MayLaunch(cfg, s)
    ensures LaunchStep(cfg, s) == s.(phase := Chosen(step.key))
  {
    SingleFacts(cfg, step);
    var ready := Startable(cfg, s.work.pending, s.work.completed);
    assert ready == {step.key};
    assert Least(ready) == step.key;
  }

  lemma SpawnOnly(cfg: Config, step: Step, s: State)
    requires Single(cfg, step)
    ensures SpawnStep(cfg, s, step.key) == s.(phase := Launching, work := StartStep(s.work, step.key, map[]))
  {
    SingleFacts(cfg, step);
    assert Unresolved(cfg.workflow, s.work.fences, s.artifacts, step.inputs) == {};
    assert ResolveInputs(cfg.workflow, s.work.fences, s.artifacts, step.inputs).value == map[];
  }

  lemma StartOnly(cfg: Config, step: Step, start: State) returns (s: State)
    requires Single(cfg, step) && Initial(cfg, start)
    ensures Reachable(cfg, start, s)
    ensures Working(s, step.key, Local(Worker(Checking, 1), None, start.work.fences, start.work.runs))
  {
    var s1 := Begin(cfg, start);
    ChooseOnly(cfg, step, s1);
    var chosen := s1.(phase := Chosen(step.key));
    Take(cfg, start, s1, Launch, chosen);
    SpawnOnly(cfg, step, chosen);
    var s2 := SpawnStep(cfg, chosen, step.key);
    Take(cfg, start, chosen, Spawn, s2);
    SingleFacts(cfg, step);
    assert s2.work.pending == {};
    var s3 := s2.(phase := Settling);
    NothingToLaunch(cfg, s2);
    Take(cfg, start, s2, Launch, s3);
    s := s3.(phase := Receiving);
    assert step.key in s3.work.inFlight;
    Take(cfg, start, s3, Settle, s);
  }

  lemma WorkOn(cfg: Config, step: Step, start: State, s: State, l: Local, input: WorkerInput,
               m: Local) returns (t: State)
    requires Single(cfg, step) && Reachable(cfg, start, s) && Working(s, step.key, l)
    requires WorkerStep(cfg, step, false, false, l, input) == Some(m) && (l.result.Some? ==> m.result.Some?)
    ensures Reachable(cfg, start, t) && Working(t, step.key, m)
  {
    SingleFacts(cfg, step);
    t := s.(work := Install(s.work, step.key, m));
    Take(cfg, start, s, Action.Work(step.key, input), t);
  }

  /** The worker makes one attempt, which succeeds, and publishes it. */
  lemma WorkThrough(cfg: Config, step: Step, start: State, run: RunId, attempt: AttemptId) returns (s: State, l: Local)
    requires Single(cfg, step) && Initial(cfg, start) && run !in start.work.runs
    ensures Reachable(cfg, start, s) && Working(s, step.key, l) && l.worker.pc == Done(StepSucceeded)
  {
    SingleFacts(cfg, step);
    var fences := start.work.fences;
    var l0 := Local(Worker(Checking, 1), None, fences, start.work.runs);
    s := StartOnly(cfg, step, start);
    var l1 := At(l0, Submitting);
    s := WorkOn(cfg, step, start, s, l0, Check, l1);
    var made := StepAttempt(attempt, 1, run, RunQueued, None);
    var l2 := At(l1, Fencing(run, attempt)).(result := Some(RecordAttempt(None, made)), runs := l1.runs + {run});
    s := WorkOn(cfg, step, start, s, l1, WorkerInput.Submit(run, attempt), l2);
    var fence := Fence(FENCE_SCHEMA_VERSION, cfg.workflow, step.key, attempt, 1);
    assert (cfg.workflow, step.key) !in fences;
    var l3 := At(l2, Executing(run, fence)).(fences := fences[(cfg.workflow, step.key) := Entry(fence, None)]);
    s := WorkOn(cfg, step, start, s, l2, TakeFence, l3);
    s, l := Deliver(cfg, step, start, s, l3, run, fence);
  }

  lemma Deliver(cfg: Config, step: Step, start: State, at: State, l3: Local, run: RunId,
                fence: Fence) returns (s: State, l: Local)
    requires Single(cfg, step) && Reachable(cfg, start, at) && Working(at, step.key, l3)
    requires l3.worker.pc == Executing(run, fence) && l3.result.Some?
    requires fence.Valid() && fence.Slot() in l3.fences && l3.fences[fence.Slot()] == Entry(fence, None)
    ensures Reachable(cfg, start, s) && Working(s, step.key, l) && l.worker.pc == Done(StepSucceeded)
  {
    var end := EndSucceeded([]);
    var l4 := At(l3, Finishing(run, fence, end));
    s := WorkOn(cfg, step, start, at, l3, Execute(end), l4);
    var l5 := At(l4, Deciding(fence, end)).(result := Some(FinishAttempt(l4.result.value, run, RunSucceeded, None)));
    s := WorkOn(cfg, step, start, s, l4, RecordEnd, l5);
    s, l := Hand(cfg, step, start, s, l5, fence);
  }

  lemma Hand(cfg: Config, step: Step, start: State, at: State, l5: Local, fence: Fence) returns (s: State, l: Local)
    requires Single(cfg, step) && Reachable(cfg, start, at) && Working(at, step.key, l5)
    requires l5.worker.pc == Deciding(fence, EndSucceeded([])) && l5.result.Some?
    requires fence.Valid() && fence.Slot() in l5.fences && l5.fences[fence.Slot()] == Entry(fence, None)
    ensures Reachable(cfg, start, s) && Working(s, step.key, l) && l.worker.pc == Done(StepSucceeded)
  {
    var l6 := At(l5, Publishing(fence, []));
    s := WorkOn(cfg, step, start, at, l5, Decide, l6);
    l := Stop(l6, StepSucceeded).(fences := l6.fences[fence.Slot() := Entry(fence, Some(Publication(fence, map[])))]);
    s := WorkOn(cfg, step, start, s, l6, WorkerInput.PublishOutputs, l);
  }

  lemma Collect(cfg: Config, step: Step, start: State, run: RunId, attempt: AttemptId) returns (s: State)
    requires Single(cfg, step) && Initial(cfg, start) && run !in start.work.runs
    ensures Reachable(cfg, start, s) && s.phase == Launching && s.stored == StoredRunning
    ensures !s.token && !s.intent && !s.seen && s.failure.None? && s.reason.None?
    ensures s.work.pending == {} && s.work.inFlight == {} && s.work.completed == {step.key}
  {
    var s0, l := WorkThrough(cfg, step, start, run, attempt);
    var s1 := ReceiveStep(s0, step.key, StepSucceeded);
    Take(cfg, start, s0, Receive(step.key), s1);
    s := s1.(phase := Launching);
    Take(cfg, start, s1, Refresh, s);
  }

  lemma NothingToLaunch(cfg: Config, s: State)
    requires s.work.pending == {}
    ensures LaunchStep(cfg, s) == s.(phase := Settling)
  {
    assert Startable(cfg, s.work.pending, s.work.completed) == {};
  }

  /** The scheduler has collected the result and is about to record success. */
  lemma ReachesCompleting(cfg: Config, step: Step, start: State, run: RunId, attempt: AttemptId) returns (s: State)
    requires Single(cfg, step) && Initial(cfg, start) && run !in start.work.runs
    ensures Reachable(cfg, start, s) && s.phase == Completing && s.stored == StoredRunning
  {
    var s2 := Collect(cfg, step, start, run, attempt);
    var s3 := s2.(phase := Settling);
    NothingToLaunch(cfg, s2);
    Take(cfg, start, s2, Launch, s3);
    var s4 := s3.(phase := Concluding);
    Take(cfg, start, s3, Settle, s4);
    s := s4.(phase := Completing);
    Take(cfg, start, s4, Conclude, s);
  }

  /** So a run exists in which a succeeded workflow carries the intent to cancel and
      a failure text: it finishes between the canceller's two writes. */
  lemma SuccessCanBeMarked(cfg: Config, step: Step, start: State, run: RunId, attempt: AttemptId)
    requires Single(cfg, step) && Initial(cfg, start) && run !in start.work.runs
    ensures exists s ::
      Reachable(cfg, start, s) && s.stored == StoredEnded(WorkflowSucceeded) && s.intent
        && s.message == Some(CancelRequested)
  {
    var s0 := ReachesCompleting(cfg, step, start, run, attempt);
    var s1 := s0.(intent := true, signalling := true);
    Take(cfg, start, s0, RequestCancel, s1);
    var s2 := s1.(phase := Ended(WorkflowSucceeded), stored := StoredEnded(WorkflowSucceeded));
    Take(cfg, start, s1, Complete, s2);
    var s3 := s2.(closing := true);
    Take(cfg, start, s2, FindNoExecution, s3);
    var s4 := s3.(message := Some(CancelRequested));
    Take(cfg, start, s3, FinishCancel, s4);
  }

  // ------------------------------------------------------------------ failing

  /** The step's run is refused, and the scheduler collects the error. */
  lemma CollectRefusal(cfg: Config, step: Step, start: State) returns (s: State, c: Cause)
    requires Single(cfg, step) && Initial(cfg, start)
    ensures Reachable(cfg, start, s) && s.phase == Launching && s.stored == StoredRunning
    ensures !s.intent && !s.seen && s.failure == Some(c) && c != CancelRequested && s.reason.None?
    ensures s.work.inFlight == {}
  {
    c := StepErrored(step.key, SubmitRefused);
    var l0 := Local(Worker(Checking, 1), None, start.work.fences, start.work.runs);
    var s0 := StartOnly(cfg, step, start);
    var l1 := At(l0, Submitting);
    s0 := WorkOn(cfg, step, start, s0, l0, Check, l1);
    s0 := WorkOn(cfg, step, start, s0, l1, SubmitError, Stop(l1, StepError(c)));
    var s1 := ReceiveStep(s0, step.key, StepError(c));
    Take(cfg, start, s0, Receive(step.key), s1);
    s := s1.(phase := Launching);
    Take(cfg, start, s1, Refresh, s);
  }

  lemma ConcludesRefusal(cfg: Config, step: Step, start: State) returns (s: State, c: Cause)
    requires Single(cfg, step) && Initial(cfg, start)
    ensures Reachable(cfg, start, s) && s.phase == Concluding && s.stored == StoredRunning
    ensures !s.intent && !s.seen && s.failure == Some(c) && c != CancelRequested && s.reason.None?
  {
    var s2;
    s2, c := CollectRefusal(cfg, step, start);
    var s3 := s2.(phase := Settling);
    Take(cfg, start, s2, Launch, s3);
    s := s3.(phase := Concluding, token := true);
    Take(cfg, start, s3, Settle, s);
  }

  /** The scheduler has taken its last look and is about to record the failure. */
  lemma ReachesFailCommitting(cfg: Config, step: Step, start: State) returns (s: State, c: Cause)
    requires Single(cfg, step) && Initial(cfg, start)
    ensures Reachable(cfg, start, s) && s.phase == FailCommitting(c) && s.stored == StoredRunning
    ensures s.failure == Some(c) && c != CancelRequested
  {
    var s4;
    s4, c := ConcludesRefusal(cfg, step, start);
    var s5 := s4.(phase := Phase.Failing(c));
    Take(cfg, start, s4, Conclude, s5);
    s := s5.(phase := FailCommitting(c));
    Take(cfg, start, s5, RefreshFailure, s);
  }

  /** So a run exists in which a failed workflow loses its failure: the canceller
      that came too late writes its own text over it. */
  lemma FailureCanBeLost(cfg: Config, step: Step, start: State)
    requires Single(cfg, step) && Initial(cfg, start)
    ensures exists s :: Reachable(cfg, start, s) && s.stored == StoredEnded(WorkflowFailed)
                        && s.failure.Some? && s.message == Some(CancelRequested) && s.message != s.failure
  {
    var s0, c := ReachesFailCommitting(cfg, step, start);
    var s1 := s0.(intent := true, signalling := true);
    Take(cfg, start, s0, RequestCancel, s1);
    var s2 := s1.(phase := Ended(WorkflowFailed), stored := StoredEnded(WorkflowFailed), message := Some(c));
    Take(cfg, start, s1, CommitFailure, s2);
    var s3 := s2.(closing := true);
    Take(cfg, start, s2, FindNoExecution, s3);
    var s4 := s3.(message := Some(CancelRequested));
    Take(cfg, start, s3, FinishCancel, s4);
  }

  /** And one in which a step starts although the token was set before: the guard
      had let it through. */
  lemma ChosenStepCanStart(cfg: Config, step: Step, start: State)
    requires Single(cfg, step) && Initial(cfg, start)
    ensures exists s, t :: Reachable(cfg, start, s) && s.token && s.work.started == []
                           && Next(cfg, s, Spawn) == Some(t) && t.work.started == [step.key]
  {
    var s1 := Begin(cfg, start);
    ChooseOnly(cfg, step, s1);
    var s2 := s1.(phase := Chosen(step.key));
    Take(cfg, start, s1, Launch, s2);
    var s3 := s2.(intent := true, signalling := true);
    Take(cfg, start, s2, RequestCancel, s3);
    var s4 := s3.(token := true);
    Take(cfg, start, s3, SignalToken, s4);
    SpawnOnly(cfg, step, s4);
    assert SpawnStep(cfg, s4, step.key).work.started == [step.key];
    assert Next(cfg, s4, Spawn) == Some(SpawnStep(cfg, s4, step.key));
  }
}
