/** Every run of the scheduler keeps its invariant: the control flow, the cancel
    token and the recorded outcome stay consistent with the steps. */
module SchedulerSafety {
  import opened Keys
  import opened Graph
  import opened Workflows
  import opened Publications
  import opened Runs
  import opened Scheduler
  import opened SchedulerWorkers
  import opened SchedulerInvariants

  ghost predicate NotYetClosed(s: State)
  {
    s.stored.StoredCreated? || (s.closing && s.stored == StoredEnded(WorkflowCancelled))
  }

  ghost predicate BeforeLoop(cfg: Config, s: State)
  {
    Untouched(cfg, s.work) && s.failure.None? && s.reason.None?
  }

  ghost predicate InLoop(s: State)
  {
    !s.closing && s.stored == StoredRunning
  }

  /** After the inner loop: either nothing may start or nothing can. */
  ghost predicate LaunchExhausted(cfg: Config, s: State)
  {
    !MayLaunch(cfg, s) || Startable(cfg, s.work.pending, s.work.completed) == {}
  }

  /** The step was startable when it was chosen, and still is. */
  ghost predicate ChosenOk(cfg: Config, s: State, k: Key)
  {
    && s.failure.None? && s.reason.None? && |s.work.inFlight| < cfg.spec.maxConcurrency
    && IsLeast(Startable(cfg, s.work.pending, s.work.completed), k)
  }

  ghost predicate PhaseOk(cfg: Config, s: State)
  {
    match s.phase
    case Idle => BeforeLoop(cfg, s) && NotYetClosed(s)
    case Rejected => BeforeLoop(cfg, s) && s.closing && s.stored == StoredEnded(WorkflowCancelled)
    case Booting => BeforeLoop(cfg, s) && NotYetClosed(s)
    case Starting => BeforeLoop(cfg, s) && !s.closing && s.stored.StoredCreated?
    case Refreshing => InLoop(s)
    case Launching => InLoop(s)
    case Chosen(k) => InLoop(s) && ChosenOk(cfg, s, k)
    case Settling => InLoop(s) && LaunchExhausted(cfg, s)
    case Receiving => InLoop(s) && s.work.inFlight != {}
    case Stalled => false
    case Concluding =>
      InLoop(s) && s.work.inFlight == {} && (s.work.pending == {} || s.failure.Some? || s.reason.Some? || s.token)
    case Completing =>
      && InLoop(s) && s.work.inFlight == {} && s.failure.None? && s.reason.None? && !s.seen
      && s.work.completed == Nodes(cfg)
    case Failing(c) => InLoop(s) && s.work.inFlight == {} && s.failure == Some(c) && s.reason.None?
    case FailCommitting(c) => InLoop(s) && s.work.inFlight == {} && s.failure == Some(c) && s.reason.None? && !s.seen
    case Cancelling(c) => s.work.inFlight == {} && (s.seen || s.reason.Some?) && SchedulerWorkers.Reachable(c)
    case Ended(outcome) => s.work.inFlight == {} && s.stored == StoredEnded(outcome) && EndedOk(cfg, s, outcome)
  }

  ghost predicate EndedOk(cfg: Config, s: State, outcome: Outcome)
  {
    && (outcome.WorkflowCancelled? <==> s.seen)
    && (outcome.WorkflowSucceeded? ==> s.failure.None? && s.reason.None? && s.work.completed == Nodes(cfg))
    && (outcome.WorkflowFailed? ==> s.failure.Some? && s.reason.None?)
    && (!s.closing ==> s.message == match outcome
                                    case WorkflowSucceeded => None
                                    case WorkflowFailed => s.failure
                                    case WorkflowCancelled => s.message)
  }

  /** The token and the intents have a recorded cause, and nothing is lost from
      the plan before a failure or a cancellation is recorded. */
  ghost predicate SignalsOk(cfg: Config, s: State)
  {
    && (s.token ==> s.intent || s.failure.Some? || s.reason.Some?)
    && (s.seen ==> s.intent) && (s.signalling ==> s.intent) && (s.closing ==> s.signalling)
    && (s.failure.None? && s.reason.None? ==> NothingDropped(cfg, s.work))
    && (s.failure.Some? ==> SchedulerWorkers.Reachable(s.failure.value) && Blames(s.failure.value))
    && (s.reason.Some? ==> SchedulerWorkers.Reachable(s.reason.value))
    && (s.stored.StoredCreated? || s.stored.StoredRunning? ==> s.message.None?)
    && (s.stored.StoredEnded? ==> s.phase.Ended? || s.closing)
  }

  ghost predicate ControlOk(cfg: Config, s: State)
  {
    SignalsOk(cfg, s) && PhaseOk(cfg, s)
  }

  ghost predicate Inv(cfg: Config, s: State)
  {
    WorkOk(cfg, s.work) && ControlOk(cfg, s)
  }

  lemma InitialOk(cfg: Config, s: State)
    requires Initial(cfg, s)
    ensures Inv(cfg, s)
  {
    UntouchedOk(cfg, s.work);
  }

  // ------------------------------------------------- guards that never fire

  /** With nothing in flight and nothing dropped, something can start until
      everything has completed: the scheduler cannot stall. */
  lemma NeverStalled(cfg: Config, w: Work)
    requires WellFormed(cfg.spec) && Partitioned(cfg, w) && NothingDropped(cfg, w)
    requires w.inFlight == {} && Startable(cfg, w.pending, w.completed) == {}
    ensures w.pending == {}
  {
    assert w.completed == Nodes(cfg) - w.pending;
    StartableIsReady(cfg, w.pending, w.completed);
    if w.pending != {} {
      var k :| k in w.pending;
      assert k in Nodes(cfg) && k !in w.completed;
      WellFormedGraph(cfg.spec);
      SomethingReady(Nodes(cfg), SpecEdges(cfg.spec), w.completed);
    }
  }

  lemma {:induction false} DistinctStepCount(steps: seq<Step>)
    requires DistinctKeys(steps)
    ensures |StepKeys(steps)| == |steps|
    decreases |steps|
  {
    if steps == [] {
      assert StepKeys(steps) == {};
    } else {
      var n := |steps| - 1;
      assert steps[..n + 1] == steps;
      DistinctStepCount(steps[..n]);
      StepKeysGrow(steps, n);
      forall k | k in StepKeys(steps[..n])
        ensures k != steps[n].key
      {
        var i :| 0 <= i < n && steps[..n][i].key == k;
        assert steps[i].key == k;
      }
    }
  }

  // ----------------------------------------------------- one action at a time

  lemma EdgeControl(cfg: Config, s: State, a: Action)
    requires ControlOk(cfg, s) && IsEdge(a) && EdgeNext(s, a).Some?
    ensures ControlOk(cfg, EdgeNext(s, a).value) && EdgeNext(s, a).value.work == s.work
  {
  }

  lemma RefreshControl(cfg: Config, s: State)
    requires ControlOk(cfg, s) && LoopNext(cfg, s, Refresh).Some?
    ensures ControlOk(cfg, LoopNext(cfg, s, Refresh).value) && LoopNext(cfg, s, Refresh).value.work == s.work
  {
  }

  lemma CancelControl(cfg: Config, s: State, a: Action)
    requires ControlOk(cfg, s)
      && (a.RequestCancel? || a.SignalToken? || a.FindNoExecution? || a.FinishCancel? || a.IngestArtifact?)
    requires OthersNext(cfg, s, a).Some?
    ensures ControlOk(cfg, OthersNext(cfg, s, a).value) && OthersNext(cfg, s, a).value.work == s.work
  {
  }

  lemma ConcludeControl(cfg: Config, s: State)
    requires |Nodes(cfg)| == |cfg.spec.steps| && ControlOk(cfg, s) && s.phase == Concluding
    ensures ControlOk(cfg, ConcludeStep(cfg, s)) && ConcludeStep(cfg, s).work == s.work
  {
    if !s.seen && !s.intent && s.reason.None? && s.failure.None? { NothingLeft(cfg, s); }
  }

  /** Without intent, failure or reason the loop ends only when all is completed. */
  lemma NothingLeft(cfg: Config, s: State)
    requires SignalsOk(cfg, s) && PhaseOk(cfg, s) && s.phase == Concluding
    requires !s.intent && s.reason.None? && s.failure.None?
    ensures s.work.completed == Nodes(cfg)
  {
    assert NothingDropped(cfg, s.work);
  }

  lemma SettleControl(cfg: Config, s: State)
    requires ControlOk(cfg, s) && s.phase == Settling
    requires s.work.inFlight == {} && s.failure.None? && s.reason.None? && !s.token ==> s.work.pending == {}
    ensures ControlOk(cfg, SettleStep(s)) && SettleStep(s).work == s.work
  {
  }

  lemma SettleDoesNotStall(cfg: Config, s: State)
    requires WellFormed(cfg.spec) && Partitioned(cfg, s.work) && SignalsOk(cfg, s) && LaunchExhausted(cfg, s)
    ensures s.work.inFlight == {} && s.failure.None? && s.reason.None? && !s.token ==> s.work.pending == {}
  {
    if s.work.inFlight == {} && s.failure.None? && s.reason.None? && !s.token {
      NeverStalled(cfg, s.work);
    }
  }

  lemma OtherControl(cfg: Config, s: State, slot: Slot, entry: Entry)
    requires ControlOk(cfg, s) && slot.0 != cfg.workflow
    ensures ControlOk(cfg, s.(work := s.work.(fences := s.work.fences[slot := entry])))
  {
  }

  lemma InstallControl(cfg: Config, s: State, k: Key, l: Local)
    requires ControlOk(cfg, s) && k in s.work.workers
    ensures ControlOk(cfg, s.(work := Install(s.work, k, l)))
  {
    var t := s.(work := Install(s.work, k, l));
    assert !Untouched(cfg, s.work);
    assert t.work.pending == s.work.pending && t.work.completed == s.work.completed
      && t.work.inFlight == s.work.inFlight;
  }

  lemma StartControl(cfg: Config, s: State, k: Key, resolved: map<string, ArtifactId>)
    requires ControlOk(cfg, s) && s.phase.Chosen? && k in s.work.pending
    ensures ControlOk(cfg, s.(phase := Launching, work := StartStep(s.work, k, resolved)))
  {
    assert NothingDropped(cfg, s.work) ==> NothingDropped(cfg, StartStep(s.work, k, resolved));
  }

  lemma LaunchControl(cfg: Config, s: State)
    requires ControlOk(cfg, s) && s.phase == Launching
    ensures ControlOk(cfg, LaunchStep(cfg, s)) && LaunchStep(cfg, s).work == s.work
  {
  }

  lemma SpawnFails(cfg: Config, s: State, k: Key) returns (n: string, fault: InputFault)
    requires k in Nodes(cfg) && SpawnStep(cfg, s, k).phase != Launching
    ensures ResolveInputs(cfg.workflow, s.work.fences, s.artifacts, StepOf(cfg, k).inputs) == Err((n, fault))
    ensures SpawnStep(cfg, s, k) == s.(phase := Settling, failure := Some(InputUnresolved(k, n, fault)))
  {
    var e := ResolveInputs(cfg.workflow, s.work.fences, s.artifacts, StepOf(cfg, k).inputs).error;
    n, fault := e.0, e.1;
  }

  lemma SpawnControl(cfg: Config, s: State, k: Key)
    requires WellFormed(cfg.spec) && WorkOk(cfg, s.work) && ControlOk(cfg, s) && s.phase == Chosen(k)
    requires SpawnStep(cfg, s, k).phase != Launching
    ensures ControlOk(cfg, SpawnStep(cfg, s, k)) && SpawnStep(cfg, s, k).work == s.work
  {
    StartableIff(cfg, s.work.pending, s.work.completed, k);
    ResolvedFromPublications(cfg, s.work, s.artifacts, k);
    var n, fault := SpawnFails(cfg, s, k);
    FailedSpawnControl(cfg, s, InputUnresolved(k, n, fault));
  }

  lemma FailedSpawnControl(cfg: Config, s: State, c: Cause)
    requires ControlOk(cfg, s) && s.phase.Chosen? && SchedulerWorkers.Reachable(c) && Blames(c)
    ensures ControlOk(cfg, s.(phase := Settling, failure := Some(c)))
  {
  }

  /** What the body of the inner loop does to the steps. */
  ghost predicate SpawnEffect(s: State, k: Key, t: State)
  {
    if t.phase == Launching
    then k in t.work.resolved && t.work == StartStep(s.work, k, t.work.resolved[k])
    else t.phase == Settling && t.work == s.work
  }

  lemma SpawnHasEffect(cfg: Config, s: State, k: Key)
    ensures SpawnEffect(s, k, SpawnStep(cfg, s, k))
  {
    var found := FindStep(cfg.spec.steps, k);
    if found.Some? {
      var inputs := ResolveInputs(cfg.workflow, s.work.fences, s.artifacts, found.value.inputs);
      if inputs.Err? { var (n, fault) := inputs.error; }
    }
  }

  lemma CollectDropsNothing(cfg: Config, w: Work, k: Key, success: bool)
    requires NothingDropped(cfg, w) && success && k in w.inFlight
    ensures NothingDropped(cfg, CollectStep(w, k, success))
  {
    assert w.pending + (w.inFlight - {k}) + (w.completed + {k}) == w.pending + w.inFlight + w.completed;
  }

  lemma ReceiveControl(cfg: Config, s: State, k: Key, terminal: Terminal)
    requires ControlOk(cfg, s) && s.phase == Receiving && k in s.work.inFlight && s.work.inFlight <= Nodes(cfg)
    requires TerminalReachable(terminal)
    ensures ControlOk(cfg, ReceiveStep(s, k, terminal))
    ensures ReceiveStep(s, k, terminal).work == CollectStep(s.work, k, terminal.StepSucceeded?)
  {
    if terminal.StepSucceeded? && NothingDropped(cfg, s.work) {
      CollectDropsNothing(cfg, s.work, k, true);
    }
  }

  // ------------------------------------------------------------- preservation

  lemma SpawnPreserved(cfg: Config, s: State, k: Key)
    requires WellFormed(cfg.spec) && Inv(cfg, s) && s.phase == Chosen(k)
    ensures Inv(cfg, SpawnStep(cfg, s, k))
  {
    if SpawnStep(cfg, s, k).phase != Launching {
      SpawnControl(cfg, s, k);
    } else {
      ChosenIsStartable(cfg, s, k);
      var resolved := SpawnStarts(cfg, s, k);
      StepOfUsable(cfg, k);
      StartOk(cfg, s.work, s.artifacts, k, resolved);
      StartControl(cfg, s, k, resolved);
    }
  }

  lemma ChosenIsStartable(cfg: Config, s: State, k: Key)
    requires WellFormed(cfg.spec) && s.work.pending <= Nodes(cfg) && PhaseOk(cfg, s) && s.phase == Chosen(k)
    ensures k in s.work.pending && Deps(cfg, k) <= s.work.completed && |s.work.inFlight| < cfg.spec.maxConcurrency
  {
    StartableIff(cfg, s.work.pending, s.work.completed, k);
  }

  lemma SpawnStarts(cfg: Config, s: State, k: Key) returns (resolved: map<string, ArtifactId>)
    requires k in Nodes(cfg) && SpawnStep(cfg, s, k).phase == Launching
    ensures ResolveInputs(cfg.workflow, s.work.fences, s.artifacts, StepOf(cfg, k).inputs) == Ok(resolved)
    ensures SpawnStep(cfg, s, k) == s.(phase := Launching, work := StartStep(s.work, k, resolved))
  {
    resolved := ResolveInputs(cfg.workflow, s.work.fences, s.artifacts, StepOf(cfg, k).inputs).value;
  }

  lemma ReceiveWork(cfg: Config, w: Work, k: Key)
    requires WellFormed(cfg.spec) && WorkOk(cfg, w) && k in w.workers && w.workers[k].pc.Done?
    ensures WorkOk(cfg, CollectStep(w, k, w.workers[k].pc.terminal.StepSucceeded?))
    ensures TerminalReachable(w.workers[k].pc.terminal) && k in w.inFlight && w.inFlight <= Nodes(cfg)
  {
    StepOfUsable(cfg, k);
    assert KeyOk(cfg, w, k);
    CollectOk(cfg, w, k);
  }

  lemma ReceivePreserved(cfg: Config, s: State, k: Key)
    requires WellFormed(cfg.spec) && Inv(cfg, s) && s.phase == Receiving
    requires k in s.work.workers && s.work.workers[k].pc.Done?
    ensures Inv(cfg, ReceiveStep(s, k, s.work.workers[k].pc.terminal))
  {
    var terminal := s.work.workers[k].pc.terminal;
    ReceiveWork(cfg, s.work, k);
    ReceiveControl(cfg, s, k, terminal);
    assert WorkOk(cfg, ReceiveStep(s, k, terminal).work);
  }

  lemma WorkerPreserved(cfg: Config, s: State, k: Key, input: WorkerInput)
    requires WellFormed(cfg.spec) && Inv(cfg, s) && WorkStep(cfg, s, k, input).Some?
    ensures Inv(cfg, WorkStep(cfg, s, k, input).value)
  {
    WorkPreserved(cfg, s, k, input);
    InstallControl(cfg, s, k, WorkerStep(cfg, StepOf(cfg, k), s.token, s.intent, LocalOf(s.work, k), input).value);
  }

  lemma SettleKeepsControl(cfg: Config, s: State)
    requires WellFormed(cfg.spec) && Partitioned(cfg, s.work) && ControlOk(cfg, s) && s.phase == Settling
    ensures ControlOk(cfg, SettleStep(s)) && SettleStep(s).work == s.work
  {
    SettleDoesNotStall(cfg, s);
    SettleControl(cfg, s);
  }

  lemma LoopPreserved(cfg: Config, s: State, a: Action)
    requires WellFormed(cfg.spec) && Inv(cfg, s) && IsLoop(a) && LoopNext(cfg, s, a).Some?
    ensures Inv(cfg, LoopNext(cfg, s, a).value)
  {
    match a
    case Refresh => RefreshControl(cfg, s);
    case Launch => LaunchControl(cfg, s);
    case Spawn => SpawnPreserved(cfg, s, s.phase.key);
    case Settle => SettleKeepsControl(cfg, s);
    case Receive(k) => ReceivePreserved(cfg, s, k);
    case Conclude =>
      DistinctStepCount(cfg.spec.steps);
      ConcludeControl(cfg, s);
  }

  lemma EdgePreserved(cfg: Config, s: State, a: Action)
    requires Inv(cfg, s) && IsEdge(a) && EdgeNext(s, a).Some?
    ensures Inv(cfg, EdgeNext(s, a).value)
  {
    EdgeControl(cfg, s, a);
  }

  lemma OthersPreserved(cfg: Config, s: State, a: Action)
    requires Inv(cfg, s) && !IsSystem(a) && OthersNext(cfg, s, a).Some?
    ensures Inv(cfg, OthersNext(cfg, s, a).value)
  {
    if a.OtherWorkflow? {
      OtherWorkflowOk(cfg, s.work, a.slot, a.entry);
      OtherControl(cfg, s, a.slot, a.entry);
    } else {
      CancelControl(cfg, s, a);
    }
  }

  /** Every enabled action keeps the invariant. */
  lemma NextOk(cfg: Config, s: State, a: Action)
    requires WellFormed(cfg.spec) && Inv(cfg, s) && Next(cfg, s, a).Some?
    ensures Inv(cfg, Next(cfg, s, a).value)
  {
    if a.Work? {
      WorkerPreserved(cfg, s, a.key, a.input);
    } else if IsLoop(a) {
      LoopPreserved(cfg, s, a);
    } else if IsSystem(a) {
      EdgePreserved(cfg, s, a);
    } else {
      OthersPreserved(cfg, s, a);
    }
  }

  lemma {:induction false} RunOk(cfg: Config, s: State, actions: seq<Action>)
    requires WellFormed(cfg.spec) && Inv(cfg, s) && Run(cfg, s, actions).Some?
    ensures Inv(cfg, Run(cfg, s, actions).value)
    decreases |actions|
  {
    if actions != [] {
      var n := |actions| - 1;
      RunOk(cfg, s, actions[..n]);
      NextOk(cfg, Run(cfg, s, actions[..n]).value, actions[n]);
    }
  }
}
