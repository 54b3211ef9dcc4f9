/** What a persisted request to cancel does to the workers: from then on none of them
    passes another look at it, so nothing more is published than what already was or
    is just being published. */
module SchedulerIntent {
  import opened Keys
  import opened Workflows
  import opened Runs
  import opened Scheduler
  import opened SchedulerWorkers
  import opened SchedulerInvariants
  import opened SchedulerSafety
  import opened SchedulerTheorems

  /** Between two looks at the intent. */
  predicate UnderWay(pc: Pc)
  {
    pc.Submitting? || pc.Fencing? || pc.Executing? || pc.Finishing?
  }

  /** The text of a cancellation found after an execution. */
  function FoundAfter(k: Key, end: RunEnd): Cause
  {
    if end.EndSucceeded? then CancelRequested else RunEnded(k)
  }

  /** Where a worker may stand once the intent is persisted, given where it stood then
      and how many attempts it had made. */
  ghost predicate Doomed(k: Key, was: Pc, now: Pc)
  {
    match was
    case Checking => now == was || now == Done(StepCancelled(CancelRequested))
    case Waiting => now == was || now == Done(StepCancelled(CancelledInBackoff))
    case Deciding(_, end) => now == was || now == Done(StepCancelled(FoundAfter(k, end)))
    case Publishing(_, _) => now == was || now.Done?
    case Done(_) => now == was
    case _ =>
      || (UnderWay(now) && (now.Submitting? ==> was.Submitting?)) || now.Deciding?
      || (now.Done? && (now.terminal.StepCancelled? || now.terminal.StepError?))
  }

  /** The attempts a worker makes after the intent: at most the one it had decided on. */
  function MoreAttempts(was: Pc, now: Pc): nat
  {
    if was.Submitting? && !now.Submitting? then 1 else 0
  }

  ghost predicate Stopping(k: Key, was: Pc, attempts: nat, now: Pc, result: Option<StepResult>)
  {
    && Doomed(k, was, now)
    && |AttemptsOf(result)| <= attempts + MoreAttempts(was, now)
  }

  lemma WorkerStops(cfg: Config, step: Step, token: bool, l: Local, input: WorkerInput, was: Pc, attempts: nat)
    requires LocalOk(cfg.workflow, step, l) && WorkerStep(cfg, step, token, true, l, input).Some?
    requires Stopping(step.key, was, attempts, l.worker.pc, l.result)
    ensures var l' := WorkerStep(cfg, step, token, true, l, input).value;
      Stopping(step.key, was, attempts, l'.worker.pc, l'.result)
  {
    match input
    case RecordEnd => FinishKeepsCount(l);
    case _ =>
  }

  lemma FinishKeepsCount(l: Local)
    requires l.worker.pc.Finishing? && l.result.Some?
    ensures var pc := l.worker.pc;
      |FinishAttempt(l.result.value, pc.run, pc.end.State(), pc.end.Category()).attempts| == |l.result.value.attempts|
  {
  }

  // ------------------------------------------------------------ over whole runs

  /** A step whose worker stood at `was` when the intent was persisted: its worker is
      doomed, or has been received without completing unless it was past its looks. */
  ghost predicate KeyStops(s: State, k: Key, was: Pc, attempts: nat)
  {
    && s.intent && k !in s.work.pending
    && (k in s.work.workers ==> Stopping(k, was, attempts, s.work.workers[k].pc, ResultAt(s.work, k)))
    && (k !in s.work.workers ==> |AttemptsOf(ResultAt(s.work, k))| <= attempts + if was.Submitting? then 1 else 0)
    && (k in s.work.completed ==> k !in s.work.workers && (was.Publishing? || was == Done(StepSucceeded)))
  }

  /** Nothing of the step changes. */
  ghost predicate StepSame(s: State, t: State, k: Key)
  {
    && (s.intent ==> t.intent) && (k in t.work.pending ==> k in s.work.pending)
    && (k in s.work.workers <==> k in t.work.workers)
    && (k in s.work.workers ==> t.work.workers[k] == s.work.workers[k])
    && ResultAt(t.work, k) == ResultAt(s.work, k)
    && (k in t.work.completed <==> k in s.work.completed)
  }

  lemma SameStops(s: State, t: State, k: Key, was: Pc, attempts: nat)
    requires KeyStops(s, k, was, attempts) && StepSame(s, t, k)
    ensures KeyStops(t, k, was, attempts)
  {
  }

  lemma OwnWorkStops(cfg: Config, s: State, input: WorkerInput, k: Key, was: Pc, attempts: nat)
    requires k in Nodes(cfg) && StepOf(cfg, k).key == k && k in s.work.workers && k !in s.work.completed
    requires LocalOk(cfg.workflow, StepOf(cfg, k), LocalOf(s.work, k))
    requires WorkStep(cfg, s, k, input).Some? && KeyStops(s, k, was, attempts)
    ensures KeyStops(WorkStep(cfg, s, k, input).value, k, was, attempts)
  {
    var l := LocalOf(s.work, k);
    WorkerStops(cfg, StepOf(cfg, k), s.token, l, input, was, attempts);
    var l' := WorkerStep(cfg, StepOf(cfg, k), s.token, s.intent, l, input).value;
    ResultStays(cfg, StepOf(cfg, k), s.token, s.intent, l, input);
    assert ResultAt(Install(s.work, k, l'), k) == l'.result;
  }

  lemma ResultStays(cfg: Config, step: Step, token: bool, intent: bool, l: Local, input: WorkerInput)
    requires WorkerStep(cfg, step, token, intent, l, input).Some?
    ensures l.result.Some? ==> WorkerStep(cfg, step, token, intent, l, input).value.result.Some?
  {
  }

  lemma OtherWorkSame(cfg: Config, s: State, j: Key, input: WorkerInput, k: Key)
    requires WorkStep(cfg, s, j, input).Some? && j != k
    ensures StepSame(s, WorkStep(cfg, s, j, input).value, k)
  {
  }

  lemma WorkStops(cfg: Config, s: State, j: Key, input: WorkerInput, k: Key, was: Pc, attempts: nat)
    requires WellFormed(cfg.spec) && Partitioned(cfg, s.work) && KeysOk(cfg, s.work)
    requires WorkStep(cfg, s, j, input).Some? && KeyStops(s, k, was, attempts)
    ensures KeyStops(WorkStep(cfg, s, j, input).value, k, was, attempts)
  {
    if j == k {
      assert KeyOk(cfg, s.work, k);
      StepOfUsable(cfg, k);
      OwnWorkStops(cfg, s, input, k, was, attempts);
    } else {
      OtherWorkSame(cfg, s, j, input, k);
      SameStops(s, WorkStep(cfg, s, j, input).value, k, was, attempts);
    }
  }

  lemma SpawnSame(cfg: Config, s: State, j: Key, k: Key)
    requires j != k
    ensures StepSame(s, SpawnStep(cfg, s, j), k)
  {
    SpawnHasEffect(cfg, s, j);
    var found := FindStep(cfg.spec.steps, j);
    if found.Some? {
      var inputs := ResolveInputs(cfg.workflow, s.work.fences, s.artifacts, found.value.inputs);
      if inputs.Err? { var (n, fault) := inputs.error; }
    }
  }

  lemma ReceiveSame(s: State, j: Key, t: Terminal, k: Key)
    requires j != k
    ensures StepSame(s, ReceiveStep(s, j, t), k)
  {
  }

  lemma OwnReceiveStops(s: State, k: Key, was: Pc, attempts: nat)
    requires k in s.work.workers && s.work.workers[k].pc.Done? && KeyStops(s, k, was, attempts)
    ensures KeyStops(ReceiveStep(s, k, s.work.workers[k].pc.terminal), k, was, attempts)
  {
    var t := ReceiveStep(s, k, s.work.workers[k].pc.terminal);
    assert ResultAt(t.work, k) == ResultAt(s.work, k) && k !in t.work.workers && t.intent == s.intent;
    if k in t.work.completed { assert s.work.workers[k].pc.terminal.StepSucceeded?; }
  }

  lemma ReceiveStops(s: State, j: Key, k: Key, was: Pc, attempts: nat)
    requires j in s.work.workers && s.work.workers[j].pc.Done? && KeyStops(s, k, was, attempts)
    ensures KeyStops(ReceiveStep(s, j, s.work.workers[j].pc.terminal), k, was, attempts)
  {
    if j == k {
      OwnReceiveStops(s, k, was, attempts);
    } else {
      ReceiveSame(s, j, s.work.workers[j].pc.terminal, k);
      SameStops(s, ReceiveStep(s, j, s.work.workers[j].pc.terminal), k, was, attempts);
    }
  }

  lemma LoopStops(cfg: Config, s: State, a: Action, k: Key, was: Pc, attempts: nat)
    requires IsLoop(a) && LoopNext(cfg, s, a).Some? && KeyStops(s, k, was, attempts)
    requires s.phase.Chosen? ==> s.phase.key in s.work.pending
    ensures KeyStops(LoopNext(cfg, s, a).value, k, was, attempts)
  {
    match a
    case Refresh => SameStops(s, LoopNext(cfg, s, a).value, k, was, attempts);
    case Launch => SameStops(s, LoopNext(cfg, s, a).value, k, was, attempts);
    case Spawn =>
      SpawnSame(cfg, s, s.phase.key, k);
      SameStops(s, SpawnStep(cfg, s, s.phase.key), k, was, attempts);
    case Settle => SameStops(s, LoopNext(cfg, s, a).value, k, was, attempts);
    case Receive(j) => ReceiveStops(s, j, k, was, attempts);
    case Conclude => SameStops(s, LoopNext(cfg, s, a).value, k, was, attempts);
  }

  lemma EdgeSame(s: State, a: Action, k: Key)
    requires IsEdge(a) && EdgeNext(s, a).Some?
    ensures StepSame(s, EdgeNext(s, a).value, k)
  {
  }

  lemma OthersSame(cfg: Config, s: State, a: Action, k: Key)
    requires !IsSystem(a) && OthersNext(cfg, s, a).Some?
    ensures StepSame(s, OthersNext(cfg, s, a).value, k)
  {
  }

  lemma NextStops(cfg: Config, s: State, a: Action, k: Key, was: Pc, attempts: nat)
    requires WellFormed(cfg.spec) && Partitioned(cfg, s.work) && KeysOk(cfg, s.work) && Next(cfg, s, a).Some?
    requires (s.phase.Chosen? ==> s.phase.key in s.work.pending) && KeyStops(s, k, was, attempts)
    ensures KeyStops(Next(cfg, s, a).value, k, was, attempts)
  {
    if a.Work? {
      WorkStops(cfg, s, a.key, a.input, k, was, attempts);
    } else if IsLoop(a) {
      LoopStops(cfg, s, a, k, was, attempts);
    } else if IsSystem(a) {
      EdgeSame(s, a, k);
      SameStops(s, EdgeNext(s, a).value, k, was, attempts);
    } else {
      OthersSame(cfg, s, a, k);
      SameStops(s, OthersNext(cfg, s, a).value, k, was, attempts);
    }
  }

  lemma ChosenIsPending(cfg: Config, s: State)
    requires WellFormed(cfg.spec) && Inv(cfg, s)
    ensures s.phase.Chosen? ==> s.phase.key in s.work.pending
    ensures Partitioned(cfg, s.work) && KeysOk(cfg, s.work)
  {
    if s.phase.Chosen? { ChosenIsStartable(cfg, s, s.phase.key); }
  }

  lemma {:induction false} RunStops(cfg: Config, s: State, more: seq<Action>, k: Key, was: Pc, attempts: nat)
    requires WellFormed(cfg.spec) && Inv(cfg, s) && Run(cfg, s, more).Some? && KeyStops(s, k, was, attempts)
    ensures KeyStops(Run(cfg, s, more).value, k, was, attempts)
    decreases |more|
  {
    if more != [] {
      var n := |more| - 1;
      RunStops(cfg, s, more[..n], k, was, attempts);
      RunOk(cfg, s, more[..n]);
      var t := Run(cfg, s, more[..n]).value;
      ChosenIsPending(cfg, t);
      NextStops(cfg, t, more[n], k, was, attempts);
    }
  }

  lemma StopsFromHere(cfg: Config, s: State, k: Key)
    requires Partitioned(cfg, s.work) && s.intent && k in s.work.workers
    ensures KeyStops(s, k, s.work.workers[k].pc, |AttemptsOf(ResultAt(s.work, k))|)
  {
  }

  lemma ReachedPartition(cfg: Config, start: State, actions: seq<Action>, s: State)
    requires Reached(cfg, start, actions, s)
    ensures Partitioned(cfg, s.work)
  {
    ReachedKeys(cfg, start, actions, s);
  }

  lemma StopsMeans(s: State, k: Key, was: Pc, attempts: nat)
    requires KeyStops(s, k, was, attempts)
    ensures k in s.work.workers ==> Doomed(k, was, s.work.workers[k].pc)
    ensures |AttemptsOf(ResultAt(s.work, k))| <= attempts + (if was.Submitting? then 1 else 0)
    ensures k in s.work.completed ==> was.Publishing? || was == Done(StepSucceeded)
  {
  }

  lemma ReachedStops(cfg: Config, start: State, actions: seq<Action>, s: State, more: seq<Action>, k: Key, was: Pc,
                     attempts: nat)
    requires Reached(cfg, start, actions, s) && Run(cfg, s, more).Some? && KeyStops(s, k, was, attempts)
    ensures KeyStops(Run(cfg, s, more).value, k, was, attempts)
  {
    ReachedOk(cfg, start, actions, s);
    RunStops(cfg, s, more, k, was, attempts);
  }

  /** Once the intent is persisted, every worker stops at its next look at it, with the
      text that belongs there.  It makes no attempt beyond one it was just submitting,
      and its step completes only if its outputs were being published already. */
  lemma IntentStopsWorkers(cfg: Config, start: State, actions: seq<Action>, s: State, more: seq<Action>, k: Key)
    requires Reached(cfg, start, actions, s) && s.intent && k in s.work.workers && Run(cfg, s, more).Some?
    ensures var was, t := s.work.workers[k].pc, Run(cfg, s, more).value;
      && (k in t.work.workers ==> Doomed(k, was, t.work.workers[k].pc))
      && |AttemptsOf(ResultAt(t.work, k))| <= |AttemptsOf(ResultAt(s.work, k))| + (if was.Submitting? then 1 else 0)
      && (k in t.work.completed ==> was.Publishing? || was == Done(StepSucceeded))
  {
    var was, attempts := s.work.workers[k].pc, |AttemptsOf(ResultAt(s.work, k))|;
    ReachedPartition(cfg, start, actions, s);
    StopsFromHere(cfg, s, k);
    ReachedStops(cfg, start, actions, s, more, k, was, attempts);
    StopsMeans(Run(cfg, s, more).value, k, was, attempts);
  }

  // -------------------------------------------------------------- by the token

  /** A worker that is about to look finds the token or the intent there. */
  ghost predicate HaltsAtLook(s: State, k: Key, was: Pc)
  {
    && (s.token || s.intent) && k !in s.work.pending && (was == Checking || was == Waiting)
    && (k in s.work.workers ==> Doomed(k, was, s.work.workers[k].pc))
    && k !in s.work.completed
  }

  lemma SameHalts(s: State, t: State, k: Key, was: Pc)
    requires HaltsAtLook(s, k, was) && StepSame(s, t, k) && (s.token ==> t.token)
    ensures HaltsAtLook(t, k, was)
  {
  }

  lemma WorkHalts(cfg: Config, s: State, j: Key, input: WorkerInput, k: Key, was: Pc)
    requires WorkStep(cfg, s, j, input).Some? && HaltsAtLook(s, k, was)
    ensures HaltsAtLook(WorkStep(cfg, s, j, input).value, k, was)
  {
    if j != k {
      OtherWorkSame(cfg, s, j, input, k);
      SameHalts(s, WorkStep(cfg, s, j, input).value, k, was);
    }
  }

  lemma ReceiveHalts(s: State, j: Key, k: Key, was: Pc)
    requires j in s.work.workers && s.work.workers[j].pc.Done? && HaltsAtLook(s, k, was)
    ensures HaltsAtLook(ReceiveStep(s, j, s.work.workers[j].pc.terminal), k, was)
  {
    TokenReceive(s, j, s.work.workers[j].pc.terminal);
    if j != k {
      ReceiveSame(s, j, s.work.workers[j].pc.terminal, k);
      SameHalts(s, ReceiveStep(s, j, s.work.workers[j].pc.terminal), k, was);
    }
  }

  lemma LoopHalts(cfg: Config, s: State, a: Action, k: Key, was: Pc)
    requires IsLoop(a) && LoopNext(cfg, s, a).Some? && HaltsAtLook(s, k, was)
    requires s.phase.Chosen? ==> s.phase.key in s.work.pending
    ensures HaltsAtLook(LoopNext(cfg, s, a).value, k, was)
  {
    match a
    case Refresh => SameHalts(s, LoopNext(cfg, s, a).value, k, was);
    case Launch => SameHalts(s, LoopNext(cfg, s, a).value, k, was);
    case Spawn =>
      SpawnSame(cfg, s, s.phase.key, k);
      TokenSpawn(cfg, s, s.phase.key);
      SameHalts(s, SpawnStep(cfg, s, s.phase.key), k, was);
    case Settle => SameHalts(s, LoopNext(cfg, s, a).value, k, was);
    case Receive(j) => ReceiveHalts(s, j, k, was);
    case Conclude => SameHalts(s, LoopNext(cfg, s, a).value, k, was);
  }

  lemma EdgeKeepsToken(s: State, a: Action)
    requires IsEdge(a) && EdgeNext(s, a).Some?
    ensures s.token ==> EdgeNext(s, a).value.token
  {
  }

  lemma NextHalts(cfg: Config, s: State, a: Action, k: Key, was: Pc)
    requires Next(cfg, s, a).Some? && HaltsAtLook(s, k, was) && (s.phase.Chosen? ==> s.phase.key in s.work.pending)
    ensures HaltsAtLook(Next(cfg, s, a).value, k, was)
  {
    if a.Work? {
      WorkHalts(cfg, s, a.key, a.input, k, was);
    } else if IsLoop(a) {
      LoopHalts(cfg, s, a, k, was);
    } else if IsSystem(a) {
      EdgeSame(s, a, k);
      EdgeKeepsToken(s, a);
      SameHalts(s, EdgeNext(s, a).value, k, was);
    } else {
      OthersSame(cfg, s, a, k);
      SameHalts(s, OthersNext(cfg, s, a).value, k, was);
    }
  }

  lemma {:induction false} RunHalts(cfg: Config, s: State, more: seq<Action>, k: Key, was: Pc)
    requires WellFormed(cfg.spec) && Inv(cfg, s) && Run(cfg, s, more).Some? && HaltsAtLook(s, k, was)
    ensures HaltsAtLook(Run(cfg, s, more).value, k, was)
    decreases |more|
  {
    if more != [] {
      var n := |more| - 1;
      RunHalts(cfg, s, more[..n], k, was);
      RunOk(cfg, s, more[..n]);
      var t := Run(cfg, s, more[..n]).value;
      ChosenIsPending(cfg, t);
      NextHalts(cfg, t, more[n], k, was);
    }
  }

  lemma HaltsFromHere(cfg: Config, s: State, k: Key)
    requires Partitioned(cfg, s.work) && (s.token || s.intent) && k in s.work.workers
    requires s.work.workers[k].pc == Checking || s.work.workers[k].pc == Waiting
    ensures HaltsAtLook(s, k, s.work.workers[k].pc)
  {
  }

  lemma ReachedHalts(cfg: Config, start: State, actions: seq<Action>, s: State, more: seq<Action>, k: Key, was: Pc)
    requires Reached(cfg, start, actions, s) && Run(cfg, s, more).Some? && HaltsAtLook(s, k, was)
    ensures HaltsAtLook(Run(cfg, s, more).value, k, was)
  {
    ReachedOk(cfg, start, actions, s);
    RunHalts(cfg, s, more, k, was);
  }

  /** The token alone stops a worker that is about to look, before an attempt or during
      the wait for the next one: it stays there or ends cancelled, and its step never
      completes. */
  lemma TokenStopsAtLook(cfg: Config, start: State, actions: seq<Action>, s: State, more: seq<Action>, k: Key)
    requires Reached(cfg, start, actions, s) && (s.token || s.intent) && k in s.work.workers && Run(cfg, s, more).Some?
    requires s.work.workers[k].pc == Checking || s.work.workers[k].pc == Waiting
    ensures var was, t := s.work.workers[k].pc, Run(cfg, s, more).value;
      && (k in t.work.workers ==> Doomed(k, was, t.work.workers[k].pc))
      && k !in t.work.completed
  {
    ReachedPartition(cfg, start, actions, s);
    HaltsFromHere(cfg, s, k);
    ReachedHalts(cfg, start, actions, s, more, k, s.work.workers[k].pc);
  }
}
