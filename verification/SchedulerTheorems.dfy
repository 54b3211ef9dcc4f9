/** What every run of a validated workflow guarantees. */
module SchedulerTheorems {
  import opened Keys
  import opened Workflows
  import opened Publications
  import opened Runs
  import opened Scheduler
  import opened SchedulerWorkers
  import opened SchedulerInvariants
  import opened SchedulerSafety

  /** A state some run of the workflow reaches. */
  ghost predicate Reached(cfg: Config, start: State, actions: seq<Action>, s: State)
  {
    WellFormed(cfg.spec) && Initial(cfg, start) && Run(cfg, start, actions) == Some(s)
  }

  lemma ReachedOk(cfg: Config, start: State, actions: seq<Action>, s: State)
    requires Reached(cfg, start, actions, s)
    ensures Inv(cfg, s)
  {
    InitialOk(cfg, start);
    RunOk(cfg, start, actions);
  }

  lemma ReachedControl(cfg: Config, start: State, actions: seq<Action>, s: State)
    requires Reached(cfg, start, actions, s)
    ensures ControlOk(cfg, s)
  {
    ReachedOk(cfg, start, actions, s);
  }

  lemma ReachedKeys(cfg: Config, start: State, actions: seq<Action>, s: State)
    requires Reached(cfg, start, actions, s)
    ensures KeysOk(cfg, s.work) && Partitioned(cfg, s.work)
  {
    ReachedOk(cfg, start, actions, s);
  }

  // ----------------------------------------------------------------- starting

  /** Pending, in-flight and completed steps are disjoint; the concurrency limit
      holds; a step was started at most once, after the steps it depends on were
      started, and only when those had completed. */
  ghost predicate SafelyScheduled(cfg: Config, w: Work)
  {
    && w.pending !! w.inFlight && w.pending !! w.completed && w.inFlight !! w.completed
    && |w.inFlight| <= cfg.spec.maxConcurrency
    && NoDuplicates(w.started) && Elements(w.started) == Nodes(cfg) - w.pending
    && InOrder(cfg, w.started)
    && DepsDone(cfg, w.pending, w.completed)
  }

  lemma WorkIsSafe(cfg: Config, w: Work)
    requires Partitioned(cfg, w) && StartedOnce(Nodes(cfg), w.pending, w.started, w.resolved.Keys)
    requires InOrder(cfg, w.started) && DepsDone(cfg, w.pending, w.completed)
    ensures SafelyScheduled(cfg, w)
  {
  }

  /** Every run of a validated workflow schedules safely. */
  lemma SchedulingIsSafe(cfg: Config, start: State, actions: seq<Action>, s: State)
    requires Reached(cfg, start, actions, s)
    ensures SafelyScheduled(cfg, s.work)
  {
    ReachedOk(cfg, start, actions, s);
    WorkIsSafe(cfg, s.work);
  }

  /** What a started step waits for has completed, and was started before it. */
  ghost predicate WaitedFor(w: Work, i: nat, d: Key)
    requires i < |w.started|
  {
    d in w.completed && exists j :: 0 <= j < i && w.started[j] == d
  }

  /** Every barrier of a started step, and every step it takes an input from, has
      completed, and was started before it. */
  lemma BarriersAreKept(cfg: Config, start: State, actions: seq<Action>, s: State, i: nat, d: Key)
    requires Reached(cfg, start, actions, s) && i < |s.work.started|
    ensures s.work.started[i] in Nodes(cfg)
    ensures d in StepOf(cfg, s.work.started[i]).after ==> WaitedFor(s.work, i, d)
    ensures forall n :: n in StepOf(cfg, s.work.started[i]).inputs ==>
      StepOf(cfg, s.work.started[i]).inputs[n].FromStep? ==>
        WaitedFor(s.work, i, StepOf(cfg, s.work.started[i]).inputs[n].key)
  {
    SchedulingIsSafe(cfg, start, actions, s);
    var started := s.work.started;
    var k := started[i];
    assert k in Elements(started);
    forall e | e in Deps(cfg, k)
      ensures WaitedFor(s.work, i, e)
    {
      assert e in Elements(started[..i]);
      var j :| 0 <= j < i && started[..i][j] == e;
      assert started[j] == e;
    }
    var step := StepOf(cfg, k);
    forall n | n in step.inputs && step.inputs[n].FromStep?
      ensures WaitedFor(s.work, i, step.inputs[n].key)
    {
      assert step.inputs[n].key in Deps(cfg, k);
    }
  }

  /** Before the scheduler waits for a worker, it has filled all places it has work
      for: unless it is halted or told to stop, either the limit is reached or every
      pending step still waits for one that has not completed. */
  lemma PlacesAreFilled(cfg: Config, start: State, actions: seq<Action>, s: State, k: Key)
    requires Reached(cfg, start, actions, s) && s.phase == Settling && k in s.work.pending
    requires s.failure.None? && s.reason.None? && !s.token && |s.work.inFlight| < cfg.spec.maxConcurrency
    ensures k in Nodes(cfg) && exists d :: WaitsFor(StepOf(cfg, k), d) && d !in s.work.completed
  {
    ReachedPhase(cfg, start, actions, s);
    NotStartable(cfg, s, k);
    var d :| d in Deps(cfg, k) && d !in s.work.completed;
    assert WaitsFor(StepOf(cfg, k), d);
  }

  lemma ReachedPhase(cfg: Config, start: State, actions: seq<Action>, s: State)
    requires Reached(cfg, start, actions, s)
    ensures PhaseOk(cfg, s) && s.work.pending <= Nodes(cfg)
  {
    ReachedControl(cfg, start, actions, s);
    ReachedKeys(cfg, start, actions, s);
  }

  lemma NotStartable(cfg: Config, s: State, k: Key)
    requires WellFormed(cfg.spec) && PhaseOk(cfg, s) && s.phase == Settling && s.work.pending <= Nodes(cfg)
    requires k in s.work.pending
    requires s.failure.None? && s.reason.None? && !s.token && |s.work.inFlight| < cfg.spec.maxConcurrency
    ensures !(Deps(cfg, k) <= s.work.completed)
  {
    StartableIff(cfg, s.work.pending, s.work.completed, k);
    assert k !in Startable(cfg, s.work.pending, s.work.completed);
  }

  /** A failure or a cancellation is on record. */
  predicate Halted(s: State)
  {
    s.failure.Some? || s.reason.Some?
  }

  ghost predicate StaysHalted(s: State, t: State)
  {
    && Halted(t) && !t.phase.Chosen?
    && t.work.started == s.work.started
    && (s.failure.Some? ==> t.failure == s.failure)
    && (s.reason.Some? ==> t.reason == s.reason)
  }

  lemma HaltedLoop(cfg: Config, s: State, a: Action)
    requires IsLoop(a) && LoopNext(cfg, s, a).Some? && Halted(s) && !s.phase.Chosen?
    ensures StaysHalted(s, LoopNext(cfg, s, a).value)
  {
    match a
    case Refresh =>
    case Launch =>
    case Settle =>
    case Conclude =>
    case Receive(k) =>
  }

  lemma HaltedStep(cfg: Config, s: State, a: Action)
    requires Next(cfg, s, a).Some? && Halted(s) && !s.phase.Chosen?
    ensures StaysHalted(s, Next(cfg, s, a).value)
  {
    if IsLoop(a) { HaltedLoop(cfg, s, a); }
  }

  lemma {:induction false} HaltedRun(cfg: Config, s: State, actions: seq<Action>)
    requires Run(cfg, s, actions).Some? && Halted(s) && !s.phase.Chosen?
    ensures StaysHalted(s, Run(cfg, s, actions).value)
    decreases |actions|
  {
    if actions != [] {
      var n := |actions| - 1;
      HaltedRun(cfg, s, actions[..n]);
      HaltedStep(cfg, Run(cfg, s, actions[..n]).value, actions[n]);
    }
  }

  /** Nothing starts any more once a failure or a cancellation is on record, and the
      first of each is never overwritten. */
  lemma NothingStartsAfterHalt(cfg: Config, start: State, actions: seq<Action>, s: State, more: seq<Action>)
    requires Reached(cfg, start, actions, s) && Halted(s) && Run(cfg, s, more).Some?
    ensures StaysHalted(s, Run(cfg, s, more).value)
  {
    ReachedControl(cfg, start, actions, s);
    HaltedRun(cfg, s, more);
  }

  /** Once the token is set, the only step that may still start is one that had been
      chosen before. */
  ghost predicate OnlyChosenStarts(s: State, t: State)
  {
    && t.token
    && ((t.work.started == s.work.started && (t.phase.Chosen? ==> t.phase == s.phase))
        || (s.phase.Chosen? && t.work.started == s.work.started + [s.phase.key] && !t.phase.Chosen?))
  }

  lemma LaunchNeedsNoToken(cfg: Config, s: State)
    requires s.token && s.phase == Launching
    ensures LaunchStep(cfg, s) == s.(phase := Settling)
  {
  }

  lemma TokenSpawn(cfg: Config, s: State, k: Key)
    ensures var t := SpawnStep(cfg, s, k);
      && t.token == s.token && !t.phase.Chosen?
      && (t.work.started == s.work.started || t.work.started == s.work.started + [k])
  {
    SpawnHasEffect(cfg, s, k);
    var found := FindStep(cfg.spec.steps, k);
    if found.Some? {
      var inputs := ResolveInputs(cfg.workflow, s.work.fences, s.artifacts, found.value.inputs);
      if inputs.Err? { var (n, fault) := inputs.error; }
    }
  }

  lemma TokenReceive(s: State, k: Key, terminal: Terminal)
    ensures var t := ReceiveStep(s, k, terminal);
      t.work.started == s.work.started && t.phase == Refreshing && (s.token ==> t.token)
  {
  }

  lemma TokenLoop(cfg: Config, s: State, a: Action)
    requires IsLoop(a) && LoopNext(cfg, s, a).Some? && s.token
    ensures var t := LoopNext(cfg, s, a).value;
      && t.token && !t.phase.Chosen?
      && t.work.started == if t.work.started != s.work.started && s.phase.Chosen?
                           then s.work.started + [s.phase.key] else s.work.started
  {
    match a
    case Refresh =>
    case Launch => LaunchNeedsNoToken(cfg, s);
    case Spawn => TokenSpawn(cfg, s, s.phase.key);
    case Settle =>
    case Conclude =>
    case Receive(k) => TokenReceive(s, k, s.work.workers[k].pc.terminal);
  }

  lemma TokenStep(cfg: Config, s: State, a: Action)
    requires Next(cfg, s, a).Some? && s.token
    ensures OnlyChosenStarts(s, Next(cfg, s, a).value)
  {
    if IsLoop(a) { TokenLoop(cfg, s, a); }
  }

  lemma {:induction false} TokenRun(cfg: Config, s: State, actions: seq<Action>)
    requires Run(cfg, s, actions).Some? && s.token
    ensures OnlyChosenStarts(s, Run(cfg, s, actions).value)
    decreases |actions|
  {
    if actions != [] {
      var n := |actions| - 1;
      TokenRun(cfg, s, actions[..n]);
      TokenStep(cfg, Run(cfg, s, actions[..n]).value, actions[n]);
    }
  }

  /** The step has made no attempt and its worker, if any, will make none. */
  ghost predicate NoAttempt(w: Work, k: Key)
  {
    && k !in w.steps
    && (k in w.workers ==> w.workers[k].pc == Checking || w.workers[k].pc == Done(StepCancelled(CancelRequested)))
  }

  lemma NoAttemptByWork(cfg: Config, s: State, j: Key, input: WorkerInput, k: Key)
    requires WorkStep(cfg, s, j, input).Some? && s.token && NoAttempt(s.work, k)
    ensures NoAttempt(WorkStep(cfg, s, j, input).value.work, k)
  {
  }

  lemma NoAttemptBySpawn(cfg: Config, s: State, j: Key, k: Key)
    requires NoAttempt(s.work, k)
    ensures NoAttempt(SpawnStep(cfg, s, j).work, k)
  {
    SpawnHasEffect(cfg, s, j);
  }

  lemma NoAttemptByReceive(s: State, j: Key, terminal: Terminal, k: Key)
    requires NoAttempt(s.work, k)
    ensures NoAttempt(ReceiveStep(s, j, terminal).work, k)
  {
  }

  lemma NoAttemptByLoop(cfg: Config, s: State, a: Action, k: Key)
    requires IsLoop(a) && LoopNext(cfg, s, a).Some? && NoAttempt(s.work, k)
    ensures NoAttempt(LoopNext(cfg, s, a).value.work, k)
  {
    match a
    case Refresh =>
    case Launch =>
    case Spawn => NoAttemptBySpawn(cfg, s, s.phase.key, k);
    case Settle =>
    case Conclude =>
    case Receive(j) => NoAttemptByReceive(s, j, s.work.workers[j].pc.terminal, k);
  }

  lemma {:induction false} NoAttemptAfterToken(cfg: Config, s: State, actions: seq<Action>, k: Key)
    requires Run(cfg, s, actions).Some? && s.token && NoAttempt(s.work, k)
    ensures NoAttempt(Run(cfg, s, actions).value.work, k)
    decreases |actions|
  {
    if actions != [] {
      var n := |actions| - 1;
      NoAttemptAfterToken(cfg, s, actions[..n], k);
      TokenRun(cfg, s, actions[..n]);
      NoAttemptStep(cfg, Run(cfg, s, actions[..n]).value, actions[n], k);
    }
  }

  lemma NoAttemptStep(cfg: Config, s: State, a: Action, k: Key)
    requires Next(cfg, s, a).Some? && s.token && NoAttempt(s.work, k)
    ensures NoAttempt(Next(cfg, s, a).value.work, k)
  {
    if a.Work? { NoAttemptByWork(cfg, s, a.key, a.input, k); } else if IsLoop(a) { NoAttemptByLoop(cfg, s, a, k); }
  }

  /** Once the token is set, at most the one step the guard had already let through
      still starts, and that step, like every pending one, makes no attempt. */
  lemma TokenStopsAttempts(cfg: Config, start: State, actions: seq<Action>, s: State, more: seq<Action>)
    requires Reached(cfg, start, actions, s) && s.token && Run(cfg, s, more).Some?
    ensures OnlyChosenStarts(s, Run(cfg, s, more).value)
    ensures forall k :: k in s.work.pending ==> NoAttempt(Run(cfg, s, more).value.work, k)
  {
    TokenRun(cfg, s, more);
    ReachedKeys(cfg, start, actions, s);
    forall k | k in s.work.pending
      ensures NoAttempt(Run(cfg, s, more).value.work, k)
    {
      assert KeyOk(cfg, s.work, k);
      NoAttemptAfterToken(cfg, s, more, k);
    }
  }

  // ----------------------------------------------------------------- attempts

  /** Attempts of a step are numbered from one, at most as many as its policy
      says and one without a policy, and every attempt but the last failed in a
      category the policy allows. */
  ghost predicate AttemptsBounded(step: Step, result: StepResult)
  {
    var attempts := result.attempts;
    && 1 <= |attempts| <= step.AttemptLimit() <= MAX_ATTEMPTS
    && (forall i :: 0 <= i < |attempts| ==> attempts[i].number == i + 1)
    && (forall i :: 0 <= i < |attempts| - 1 ==> Retryable(step, attempts[i]))
    && result.run == Last(attempts).run && result.state == Last(attempts).state
  }

  lemma KeyAttempts(cfg: Config, w: Work, k: Key)
    requires k in Nodes(cfg) && KeyOk(cfg, w, k) && k in w.steps && StepUsable(StepOf(cfg, k))
    ensures AttemptsBounded(StepOf(cfg, k), w.steps[k])
  {
  }

  lemma AttemptsAreBounded(cfg: Config, start: State, actions: seq<Action>, s: State, k: Key)
    requires Reached(cfg, start, actions, s) && k in s.work.steps && k in Nodes(cfg)
    ensures AttemptsBounded(StepOf(cfg, k), s.work.steps[k])
  {
    ReachedKeys(cfg, start, actions, s);
    StepOfUsable(cfg, k);
    KeyAttempts(cfg, s.work, k);
  }

  predicate HoldsFence(pc: Pc)
  {
    pc.Executing? || pc.Finishing? || pc.Deciding? || pc.Publishing?
  }

  ghost predicate FenceMatchesAttempt(cfg: Config, w: Work, k: Key)
    requires k in w.workers && HoldsFence(w.workers[k].pc)
  {
    && k in w.steps && |w.steps[k].attempts| > 0
    && var fence, last := w.workers[k].pc.fence, Last(w.steps[k].attempts);
       && fence.generation == w.workers[k].number == last.number == |w.steps[k].attempts|
       && fence.attempt == last.id
       && (cfg.workflow, k) in w.fences && w.fences[(cfg.workflow, k)].fence == fence
  }

  lemma KeyFenceMatches(cfg: Config, w: Work, k: Key)
    requires k in Nodes(cfg) && KeyOk(cfg, w, k) && StepOf(cfg, k).key == k
    requires k in w.workers && HoldsFence(w.workers[k].pc)
    ensures FenceMatchesAttempt(cfg, w, k)
  {
  }

  /** Whatever fence a worker holds is that of its latest attempt, and its
      generation is the attempt's number. */
  lemma GenerationIsAttemptNumber(cfg: Config, start: State, actions: seq<Action>, s: State, k: Key)
    requires Reached(cfg, start, actions, s) && k in s.work.workers
    requires HoldsFence(s.work.workers[k].pc)
    ensures FenceMatchesAttempt(cfg, s.work, k)
  {
    ReachedOk(cfg, start, actions, s);
    StepOfUsable(cfg, k);
    KeyFenceMatches(cfg, s.work, k);
  }

  /** A completed step's outputs are authoritative, published by its last and
      successful attempt. */
  ghost predicate PublishedByLastAttempt(cfg: Config, w: Work, k: Key)
  {
    && k in w.steps && |w.steps[k].attempts| > 0
    && Last(w.steps[k].attempts).state == RunSucceeded
    && var published := Authoritative(w.fences, cfg.workflow, k);
       && published.Some?
       && published.value.fence.attempt == Last(w.steps[k].attempts).id
       && published.value.fence.generation == |w.steps[k].attempts|
  }

  lemma KeyIsPublished(cfg: Config, w: Work, k: Key)
    requires k in Nodes(cfg) && KeyOk(cfg, w, k) && k in w.completed
    ensures PublishedByLastAttempt(cfg, w, k)
  {
  }

  lemma CompletedIsPublished(cfg: Config, start: State, actions: seq<Action>, s: State, k: Key)
    requires Reached(cfg, start, actions, s) && k in s.work.completed
    ensures PublishedByLastAttempt(cfg, s.work, k)
  {
    ReachedKeys(cfg, start, actions, s);
    KeyIsPublished(cfg, s.work, k);
  }

  /** A started step got every data-flow input from the authoritative publication
      of the last, successful attempt of the step it names. */
  lemma InputsComeFromPublications(cfg: Config, start: State, actions: seq<Action>, s: State, k: Key, n: string)
    requires Reached(cfg, start, actions, s) && k in Elements(s.work.started) && k in Nodes(cfg)
    requires n in StepOf(cfg, k).inputs && StepOf(cfg, k).inputs[n].FromStep?
    ensures var source := StepOf(cfg, k).inputs[n];
      && PublishedByLastAttempt(cfg, s.work, source.key)
      && source.output in Authoritative(s.work.fences, cfg.workflow, source.key).value.outputs
      && k in s.work.resolved && n in s.work.resolved[k]
      && s.work.resolved[k][n] == Authoritative(s.work.fences, cfg.workflow, source.key).value.outputs[source.output]
  {
    ReachedOk(cfg, start, actions, s);
    var w, source := s.work, StepOf(cfg, k).inputs[n];
    assert k in w.resolved.Keys;
    assert InputsOfOk(cfg.workflow, w.fences, w.completed, StepOf(cfg, k).inputs, w.resolved[k]);
    assert InputOk(cfg.workflow, w.fences, w.completed, source, n, w.resolved[k]);
    CompletedIsPublished(cfg, start, actions, s, source.key);
  }

  /** No cause on record, or about to be, is one of the guards. */
  ghost predicate CausesReachable(s: State)
  {
    && (s.failure.Some? ==> SchedulerWorkers.Reachable(s.failure.value))
    && (s.reason.Some? ==> SchedulerWorkers.Reachable(s.reason.value))
    && (s.phase.Failing? || s.phase.FailCommitting? || s.phase.Cancelling? ==>
          SchedulerWorkers.Reachable(s.phase.cause))
    && s.phase != Stalled
  }

  lemma ControlCauses(cfg: Config, s: State)
    requires ControlOk(cfg, s)
    ensures CausesReachable(s)
  {
  }

  /** The causes a run can record leave out the guards: no stall, no missing
      step, no missing publication of a dependency, no "completed M of N", no
      refused fence and no stale, missing or conflicting publication. */
  lemma GuardsAreUnreachable(cfg: Config, start: State, actions: seq<Action>, s: State)
    requires Reached(cfg, start, actions, s)
    ensures CausesReachable(s) && WorkersReachable(s.work)
  {
    ReachedControl(cfg, start, actions, s);
    ControlCauses(cfg, s);
    ReachedKeys(cfg, start, actions, s);
    WorkersAreReachable(cfg, s.work);
  }

  ghost predicate WorkersReachable(w: Work)
  {
    forall k :: k in w.workers ==> PcReachable(w.workers[k].pc)
  }

  lemma WorkersAreReachable(cfg: Config, w: Work)
    requires KeysOk(cfg, w) && w.workers.Keys <= Nodes(cfg)
    ensures WorkersReachable(w)
  {
    forall k | k in w.workers
      ensures PcReachable(w.workers[k].pc)
    {
      assert KeyOk(cfg, w, k);
    }
  }

  // ------------------------------------------------------------------ success

  /** Every step completed and its outputs are authoritative. */
  ghost predicate AllPublished(cfg: Config, w: Work)
  {
    w.completed == Nodes(cfg) && forall k :: k in Nodes(cfg) ==> PublishedByLastAttempt(cfg, w, k)
  }

  lemma AllArePublished(cfg: Config, w: Work)
    requires KeysOk(cfg, w) && w.completed == Nodes(cfg)
    ensures AllPublished(cfg, w)
  {
    forall k | k in Nodes(cfg)
      ensures PublishedByLastAttempt(cfg, w, k)
    {
      KeyIsPublished(cfg, w, k);
    }
  }

  lemma SuccessIsComplete(cfg: Config, start: State, actions: seq<Action>, s: State)
    requires Reached(cfg, start, actions, s) && s.phase == Ended(WorkflowSucceeded)
    ensures AllPublished(cfg, s.work)
  {
    ReachedControl(cfg, start, actions, s);
    ControlComplete(cfg, s);
    ReachedKeys(cfg, start, actions, s);
    AllArePublished(cfg, s.work);
  }

  lemma ControlComplete(cfg: Config, s: State)
    requires PhaseOk(cfg, s) && s.phase == Ended(WorkflowSucceeded)
    ensures s.work.completed == Nodes(cfg)
  {
  }

  lemma RunOne(cfg: Config, s: State, actions: seq<Action>, t: State, a: Action, u: State)
    requires Run(cfg, s, actions) == Some(t) && Next(cfg, t, a) == Some(u)
    ensures Run(cfg, s, actions + [a]) == Some(u)
  {
    var more := actions + [a];
    assert more[..|more| - 1] == actions;
  }
}
