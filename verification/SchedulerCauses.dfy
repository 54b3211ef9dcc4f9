/** How a workflow ends, in terms of what its steps reported.  Nothing here speaks of
    the variables in which the scheduler remembers a failure or a cancellation. */
module SchedulerCauses {
  import opened Keys
  import opened Workflows
  import opened Runs
  import opened Scheduler
  import opened SchedulerInvariants
  import opened SchedulerSafety
  import opened SchedulerTheorems
  import opened SchedulerOutcome
  import opened SchedulerReports

  /** A step that did not succeed, and how. */
  datatype Report = Report(key: Key, terminal: Terminal)

  /** The action takes note of a step that did not succeed: a worker's report is
      received, or a chosen step's inputs cannot be resolved. */
  ghost function ReportOf(cfg: Config, s: State, a: Action): Option<Report>
  {
    if a.Receive? && a.key in s.work.workers && s.work.workers[a.key].pc.Done?
       && !s.work.workers[a.key].pc.terminal.StepSucceeded?
    then Some(Report(a.key, s.work.workers[a.key].pc.terminal))
    else if a.Spawn? && s.phase.Chosen? && s.phase.key in Nodes(cfg) then
      match ResolveInputs(cfg.workflow, s.work.fences, s.artifacts, StepOf(cfg, s.phase.key).inputs)
      case Ok(_) => None
      case Err((n, fault)) => Some(Report(s.phase.key, StepError(InputUnresolved(s.phase.key, n, fault))))
    else None
  }

  /** The first such report of a run. */
  ghost function FirstReport(cfg: Config, start: State, actions: seq<Action>): Option<Report>
  {
    if actions == [] then None else
      var n := |actions| - 1;
      var earlier := FirstReport(cfg, start, actions[..n]);
      if earlier.Some? || Run(cfg, start, actions[..n]).None? then earlier
      else ReportOf(cfg, Run(cfg, start, actions[..n]).value, actions[n])
  }

  /** How the scheduler's variables follow from the first report. */
  ghost predicate Noted(s: State, first: Option<Report>, early: bool)
  {
    && (s.reason.Some? ==> early || (first.Some? && first.value.terminal.StepCancelled?))
    && match first
       case None => s.failure.None?
       case Some(r) =>
         && !r.terminal.StepSucceeded?
         && if r.terminal.StepCancelled? then s.reason.Some? && (early || s.reason == Some(r.terminal.cause))
            else s.failure == Some(r.terminal.cause)
  }

  function Or(earlier: Option<Report>, now: Option<Report>): Option<Report>
  {
    if earlier.Some? then earlier else now
  }

  lemma ReceiveNoted(cfg: Config, s: State, k: Key, first: Option<Report>, early: bool)
    requires s.phase == Receiving && k in s.work.workers && s.work.workers[k].pc.Done? && Noted(s, first, early)
    ensures Noted(ReceiveStep(s, k, s.work.workers[k].pc.terminal), Or(first, ReportOf(cfg, s, Receive(k))), early)
  {
  }

  lemma SpawnNoted(cfg: Config, s: State, k: Key, first: Option<Report>, early: bool)
    requires s.phase == Chosen(k) && k in Nodes(cfg) && s.failure.None? && s.reason.None? && Noted(s, first, early)
    ensures Noted(SpawnStep(cfg, s, k), Or(first, ReportOf(cfg, s, Spawn)), early)
  {
    assert first.None?;
    var inputs := ResolveInputs(cfg.workflow, s.work.fences, s.artifacts, StepOf(cfg, k).inputs);
    if inputs.Err? { var (n, fault) := inputs.error; }
  }

  lemma LoopNoted(cfg: Config, s: State, a: Action, first: Option<Report>, early: bool)
    requires WellFormed(cfg.spec) && IsLoop(a) && LoopNext(cfg, s, a).Some? && PhaseOk(cfg, s)
    requires s.work.pending <= Nodes(cfg) && Noted(s, first, early) && (s.phase == Refreshing && s.intent ==> early)
    ensures Noted(LoopNext(cfg, s, a).value, Or(first, ReportOf(cfg, s, a)), early)
  {
    match a
    case Refresh =>
    case Launch =>
    case Spawn =>
      ChosenIsStartable(cfg, s, s.phase.key);
      SpawnNoted(cfg, s, s.phase.key, first, early);
    case Settle =>
    case Conclude =>
    case Receive(k) => ReceiveNoted(cfg, s, k, first, early);
  }

  lemma OtherNoted(cfg: Config, s: State, a: Action, first: Option<Report>, early: bool)
    requires !IsLoop(a) && Next(cfg, s, a).Some? && Noted(s, first, early)
    ensures Noted(Next(cfg, s, a).value, Or(first, ReportOf(cfg, s, a)), early)
  {
  }

  lemma NextNoted(cfg: Config, s: State, a: Action, first: Option<Report>, early: bool)
    requires WellFormed(cfg.spec) && Next(cfg, s, a).Some? && PhaseOk(cfg, s) && s.work.pending <= Nodes(cfg)
    requires Noted(s, first, early) && (s.phase == Refreshing && s.intent ==> early)
    ensures Noted(Next(cfg, s, a).value, Or(first, ReportOf(cfg, s, a)), early)
  {
    if IsLoop(a) { LoopNoted(cfg, s, a, first, early); } else { OtherNoted(cfg, s, a, first, early); }
  }

  lemma IntentIsEarly(cfg: Config, start: State, actions: seq<Action>, s: State)
    requires Reached(cfg, start, actions, s) && s.intent && !Decided(s.phase) && !s.phase.Ended?
    ensures Requested(cfg, start, actions, Early)
  {
    ReachedTracked(cfg, start, actions, s);
  }

  lemma EarlyGrows(s: State, first: Option<Report>, early: bool, later: bool)
    requires Noted(s, first, early) && (early ==> later)
    ensures Noted(s, first, later)
  {
  }

  lemma {:induction false} ReachedNoted(cfg: Config, start: State, actions: seq<Action>, s: State)
    requires Reached(cfg, start, actions, s)
    ensures Noted(s, FirstReport(cfg, start, actions), Requested(cfg, start, actions, Early))
    decreases |actions|
  {
    if actions != [] {
      var n := |actions| - 1;
      var before := Run(cfg, start, actions[..n]).value;
      var first, early := FirstReport(cfg, start, actions[..n]), Requested(cfg, start, actions[..n], Early);
      ReachedNoted(cfg, start, actions[..n], before);
      ReachedControl(cfg, start, actions[..n], before);
      ReachedKeys(cfg, start, actions[..n], before);
      if before.phase == Refreshing && before.intent { IntentIsEarly(cfg, start, actions[..n], before); }
      NextNoted(cfg, before, actions[n], first, early);
      RequestedSnoc(cfg, start, actions, Early);
      EarlyGrows(s, FirstReport(cfg, start, actions), early, Requested(cfg, start, actions, Early));
    }
  }

  // ---------------------------------------------------------- names of steps

  /** A report of failure names the step that made it. */
  ghost predicate NamesStep(r: Report)
  {
    r.terminal.StepFailed? || r.terminal.StepError? ==>
      (r.terminal.cause.InputUnresolved? || r.terminal.cause.AttemptFailed? || r.terminal.cause.StepErrored?)
      && r.terminal.cause.step == r.key
  }

  lemma ReportNames(cfg: Config, start: State, actions: seq<Action>, s: State, a: Action)
    requires Reached(cfg, start, actions, s) && ReportOf(cfg, s, a).Some?
    ensures NamesStep(ReportOf(cfg, s, a).value)
  {
    if a.Receive? {
      ReportIsExact(cfg, start, actions, s, a.key);
      StepOfUsable(cfg, a.key);
    }
  }

  lemma {:induction false} FirstReportNames(cfg: Config, start: State, actions: seq<Action>, s: State)
    requires Reached(cfg, start, actions, s) && FirstReport(cfg, start, actions).Some?
    ensures NamesStep(FirstReport(cfg, start, actions).value)
    decreases |actions|
  {
    var n := |actions| - 1;
    var before := Run(cfg, start, actions[..n]).value;
    if FirstReport(cfg, start, actions[..n]).Some? {
      FirstReportNames(cfg, start, actions[..n], before);
    } else {
      ReportNames(cfg, start, actions[..n], before, actions[n]);
    }
  }

  // ------------------------------------------------- the text of a cancellation

  /** Unless somebody asked early, a cancellation is recorded with the remembered
      reason, and no canceller is about to touch the record. */
  ghost predicate ReasonKept(s: State, early: bool)
  {
    !early ==>
      && (s.phase.Cancelling? ==> s.reason == Some(s.phase.cause))
      && (s.phase == Ended(WorkflowCancelled) ==> !s.signalling && !s.closing && s.message == s.reason)
  }

  lemma LoopReason(cfg: Config, s: State, a: Action, early: bool)
    requires IsLoop(a) && LoopNext(cfg, s, a).Some? && ControlOk(cfg, s) && ReasonKept(s, early)
    requires s.intent && !Decided(s.phase) && !s.phase.Ended? ==> early
    ensures ReasonKept(LoopNext(cfg, s, a).value, early)
  {
    if !a.Conclude? { LoopGoesRound(cfg, s, a); }
  }

  lemma EdgeReason(cfg: Config, s: State, a: Action, early: bool)
    requires IsEdge(a) && EdgeNext(s, a).Some? && ControlOk(cfg, s) && ReasonKept(s, early)
    requires s.intent && !Decided(s.phase) && !s.phase.Ended? ==> early
    ensures ReasonKept(EdgeNext(s, a).value, early)
  {
  }

  lemma OthersReason(cfg: Config, s: State, a: Action, early: bool)
    requires !IsSystem(a) && OthersNext(cfg, s, a).Some? && ControlOk(cfg, s) && ReasonKept(s, early)
    ensures ReasonKept(OthersNext(cfg, s, a).value, early || (a == RequestCancel && InWindow(s.phase, Early)))
  {
  }

  lemma NextReason(cfg: Config, s: State, a: Action, early: bool)
    requires Next(cfg, s, a).Some? && ControlOk(cfg, s) && ReasonKept(s, early)
    requires s.intent && !Decided(s.phase) && !s.phase.Ended? ==> early
    ensures ReasonKept(Next(cfg, s, a).value, early || (a == RequestCancel && InWindow(s.phase, Early)))
  {
    if a.Work? {
    } else if IsLoop(a) {
      LoopReason(cfg, s, a, early);
    } else if IsSystem(a) {
      EdgeReason(cfg, s, a, early);
    } else {
      OthersReason(cfg, s, a, early);
    }
  }

  lemma {:induction false} ReachedReason(cfg: Config, start: State, actions: seq<Action>, s: State)
    requires Reached(cfg, start, actions, s)
    ensures ReasonKept(s, Requested(cfg, start, actions, Early))
    decreases |actions|
  {
    if actions != [] {
      var n := |actions| - 1;
      var before := Run(cfg, start, actions[..n]).value;
      ReachedReason(cfg, start, actions[..n], before);
      ReachedControl(cfg, start, actions[..n], before);
      if before.intent && !Decided(before.phase) && !before.phase.Ended? {
        IntentIsEarly(cfg, start, actions[..n], before);
      }
      NextReason(cfg, before, actions[n], Requested(cfg, start, actions[..n], Early));
      RequestedSnoc(cfg, start, actions, Early);
    }
  }

  /** The ending of a workflow follows from the first step that did not succeed and
      from whether somebody asked to cancel before the last look.  It is cancelled
      exactly when somebody did or that step reported a cancellation; it has failed
      exactly when nobody did and that step failed; and it has succeeded exactly when
      nobody did and there is no such step.  The text is that step's, unless somebody
      asked early or, for a failure, a canceller has replaced it. */
  lemma OutcomeFollowsReports(cfg: Config, start: State, actions: seq<Action>, s: State)
    requires Reached(cfg, start, actions, s) && s.phase.Ended?
    ensures s.stored == StoredEnded(s.phase.outcome)
    ensures var first, early := FirstReport(cfg, start, actions), Requested(cfg, start, actions, Early);
      var cancelled := first.Some? && first.value.terminal.StepCancelled?;
      && (s.phase.outcome.WorkflowCancelled? <==> early || cancelled)
      && (s.phase.outcome.WorkflowFailed? <==> !early && first.Some? && !cancelled)
      && (s.phase.outcome.WorkflowSucceeded? <==> !early && first.None?)
      && (s.phase.outcome.WorkflowFailed? ==>
            && NamesStep(first.value) && !first.value.terminal.StepSucceeded?
            && (FinishCancel !in actions <==> s.message == Some(first.value.terminal.cause)))
      && (!early && cancelled ==> s.message == Some(first.value.terminal.cause))
  {
    OutcomeIsExact(cfg, start, actions, s);
    ReachedNoted(cfg, start, actions, s);
    ReachedReason(cfg, start, actions, s);
    if s.phase.outcome.WorkflowFailed? {
      FailureIsKeptIff(cfg, start, actions, s);
      FirstReportNames(cfg, start, actions, s);
    }
  }

  // --------------------------------------------------------------- the token

  /** Whatever ended the work set the token; a step that could not start does so as
      soon as the round goes on. */
  ghost predicate TokenSet(s: State)
  {
    (s.reason.Some? ==> s.token) && (s.failure.Some? && s.phase != Settling ==> s.token)
  }

  lemma LoopToken(cfg: Config, s: State, a: Action)
    requires IsLoop(a) && LoopNext(cfg, s, a).Some? && TokenSet(s)
    ensures TokenSet(LoopNext(cfg, s, a).value)
  {
    match a
    case Refresh =>
    case Launch =>
    case Spawn => SpawnToken(cfg, s, s.phase.key);
    case Settle =>
    case Conclude =>
    case Receive(k) =>
  }

  lemma SpawnToken(cfg: Config, s: State, k: Key)
    requires s.phase == Chosen(k) && TokenSet(s)
    ensures TokenSet(SpawnStep(cfg, s, k))
  {
    var found := FindStep(cfg.spec.steps, k);
    if found.Some? {
      var inputs := ResolveInputs(cfg.workflow, s.work.fences, s.artifacts, found.value.inputs);
      if inputs.Err? { var (n, fault) := inputs.error; }
    }
  }

  lemma NextToken(cfg: Config, s: State, a: Action)
    requires Next(cfg, s, a).Some? && TokenSet(s)
    ensures TokenSet(Next(cfg, s, a).value)
  {
    if IsLoop(a) { LoopToken(cfg, s, a); }
  }

  lemma {:induction false} ReachedToken(cfg: Config, start: State, actions: seq<Action>, s: State)
    requires Reached(cfg, start, actions, s)
    ensures TokenSet(s)
    decreases |actions|
  {
    if actions != [] {
      var n := |actions| - 1;
      ReachedToken(cfg, start, actions[..n], Run(cfg, start, actions[..n]).value);
      NextToken(cfg, Run(cfg, start, actions[..n]).value, actions[n]);
    }
  }

  /** The first step that does not succeed sets the token, and so stops every other
      step at its next look; one that could not start does so when the round goes on. */
  lemma ReportSetsToken(cfg: Config, start: State, actions: seq<Action>, s: State)
    requires Reached(cfg, start, actions, s) && FirstReport(cfg, start, actions).Some? && s.phase != Settling
    ensures s.token
  {
    ReachedToken(cfg, start, actions, s);
    ReachedNoted(cfg, start, actions, s);
  }

  /** About to look at the intent and to find it, or stopped. */
  ghost predicate StopsStarting(s: State, started: seq<Key>)
  {
    && s.work.started == started
    && if Halted(s) then !s.phase.Chosen? else s.phase == Refreshing && s.intent
  }

  lemma LookStep(cfg: Config, s: State, a: Action, started: seq<Key>)
    requires Next(cfg, s, a).Some? && StopsStarting(s, started)
    ensures StopsStarting(Next(cfg, s, a).value, started)
  {
    if Halted(s) { HaltedStep(cfg, s, a); }
  }

  /** A round that begins with the intent persisted starts nothing, and neither does
      any later one; the look sets the token. */
  lemma {:induction false} LookStopsStarting(cfg: Config, s: State, more: seq<Action>)
    requires s.phase == Refreshing && s.intent && !Halted(s) && Run(cfg, s, more).Some?
    ensures StopsStarting(Run(cfg, s, more).value, s.work.started)
    ensures Next(cfg, s, Refresh).Some? && Next(cfg, s, Refresh).value.token
    decreases |more|
  {
    if more != [] {
      var n := |more| - 1;
      LookStopsStarting(cfg, s, more[..n]);
      LookStep(cfg, Run(cfg, s, more[..n]).value, more[n], s.work.started);
    }
  }

  // ---------------------------------------------------------- before the start

  /** Where an execution stands that has not started. */
  predicate NotStarted(s: State)
  {
    || s.phase.Idle? || s.phase.Rejected? || s.phase.Booting? || s.phase.Starting?
    || s.phase == Cancelling(CancelledBeforeExecution) || s.phase == Ended(WorkflowCancelled)
  }

  ghost predicate StartText(s: State, begun: bool, closed: bool)
  {
    !begun ==>
      && NotStarted(s)
      && (s.phase.Ended? && !closed ==> s.message == Some(CancelledBeforeExecution))
  }

  lemma NextStartText(cfg: Config, s: State, a: Action, begun: bool, closed: bool)
    requires Next(cfg, s, a).Some? && StartText(s, begun, closed) && (!begun ==> s.work.workers == map[])
    ensures StartText(Next(cfg, s, a).value, begun || a == Start, closed || a == FinishCancel)
  {
  }

  lemma {:induction false} ReachedStartText(cfg: Config, start: State, actions: seq<Action>, s: State)
    requires Reached(cfg, start, actions, s)
    ensures StartText(s, Start in actions, FinishCancel in actions)
    ensures Start !in actions ==> s.work.workers == map[] && s.work.started == []
    decreases |actions|
  {
    if actions != [] {
      var n := |actions| - 1;
      var before := Run(cfg, start, actions[..n]).value;
      ReachedStartText(cfg, start, actions[..n], before);
      NextStartText(cfg, before, actions[n], Start in actions[..n], FinishCancel in actions[..n]);
      assert actions == actions[..n] + [actions[n]];
      if Start !in actions { QuietBeforeStart(cfg, before, actions[n]); }
    }
  }

  lemma QuietBeforeStart(cfg: Config, s: State, a: Action)
    requires Next(cfg, s, a).Some? && NotStarted(s) && s.work.workers == map[] && s.work.started == []
    ensures Next(cfg, s, a).value.work.workers == map[] && Next(cfg, s, a).value.work.started == []
  {
    if IsSystem(a) { EdgeBeforeStart(cfg, s, a); } else { OthersKeepWork(cfg, s, a); }
  }

  lemma EdgeBeforeStart(cfg: Config, s: State, a: Action)
    requires Next(cfg, s, a).Some? && IsSystem(a) && NotStarted(s) && s.work.workers == map[]
    ensures Next(cfg, s, a).value.work == s.work
  {
  }

  lemma OthersKeepWork(cfg: Config, s: State, a: Action)
    requires !IsSystem(a) && OthersNext(cfg, s, a).Some?
    ensures OthersNext(cfg, s, a).value.work.workers == s.work.workers
    ensures OthersNext(cfg, s, a).value.work.started == s.work.started
  {
  }

  /** A workflow that ends without having started was cancelled before execution,
      starts no step, and says so unless a canceller has closed the record too. */
  lemma CancelledBeforeStart(cfg: Config, start: State, actions: seq<Action>, s: State)
    requires Reached(cfg, start, actions, s) && s.phase.Ended? && Start !in actions
    ensures s.phase.outcome.WorkflowCancelled? && s.work.started == []
    ensures FinishCancel !in actions ==> s.message == Some(CancelledBeforeExecution)
  {
    ReachedStartText(cfg, start, actions, s);
  }

  /** Closed by a canceller before any execution took the record up. */
  ghost predicate ClosedEarly(s: State)
  {
    && (s.phase.Idle? || s.phase.Rejected?) && s.stored == StoredEnded(WorkflowCancelled)
    && s.work.workers == map[] && s.work.started == []
  }

  lemma ClosedStep(cfg: Config, s: State, a: Action)
    requires Next(cfg, s, a).Some? && ClosedEarly(s)
    ensures ClosedEarly(Next(cfg, s, a).value)
    ensures Next(cfg, s, a).value.message == s.message || Next(cfg, s, a).value.message == Some(CancelRequested)
  {
  }

  /** A record that a canceller closed before execution is not executable: an execution
      is turned away, starts nothing and leaves the record as it is. */
  lemma {:induction false} ClosedStaysClosed(cfg: Config, s: State, more: seq<Action>)
    requires ClosedEarly(s) && s.message == Some(CancelRequested) && Run(cfg, s, more).Some?
    ensures ClosedEarly(Run(cfg, s, more).value) && Run(cfg, s, more).value.message == Some(CancelRequested)
    decreases |more|
  {
    if more != [] {
      var n := |more| - 1;
      ClosedStaysClosed(cfg, s, more[..n]);
      ClosedStep(cfg, Run(cfg, s, more[..n]).value, more[n]);
    }
  }
}
