/** How a workflow ends, in terms of what happened and when: which requests to
    cancel count, which come too late, and what becomes of the recorded text. */
module SchedulerOutcome {
  import opened Keys
  import opened Workflows
  import opened Runs
  import opened Scheduler
  import opened SchedulerSafety
  import opened SchedulerTheorems

  // ---------------------------------------------------------- when one asked

  /** The last look at the persisted intent is behind. */
  predicate Decided(phase: Phase)
  {
    || phase.Completing? || phase.FailCommitting?
    || (phase.Ended? && !phase.outcome.WorkflowCancelled?)
  }

  /** Before the last look, or after it while an ending is being recorded. */
  datatype Window = Early | DuringSuccess | DuringFailure

  predicate InWindow(phase: Phase, window: Window)
  {
    match window
    case Early => !Decided(phase) && !phase.Ended?
    case DuringSuccess => phase.Completing?
    case DuringFailure => phase.FailCommitting?
  }

  ghost predicate RequestedAt(cfg: Config, start: State, actions: seq<Action>, k: nat, window: Window)
  {
    && k < |actions| && actions[k] == RequestCancel
    && Run(cfg, start, actions[..k]).Some?
    && InWindow(Run(cfg, start, actions[..k]).value.phase, window)
  }

  /** Somebody asked to cancel while the execution was in that window. */
  ghost predicate Requested(cfg: Config, start: State, actions: seq<Action>, window: Window)
  {
    exists k :: RequestedAt(cfg, start, actions, k, window)
  }

  lemma RequestedSnoc(cfg: Config, start: State, actions: seq<Action>, window: Window)
    requires actions != [] && Run(cfg, start, actions[..|actions| - 1]).Some?
    ensures var n := |actions| - 1;
      Requested(cfg, start, actions, window)
      <==> Requested(cfg, start, actions[..n], window)
           || (actions[n] == RequestCancel && InWindow(Run(cfg, start, actions[..n]).value.phase, window))
  {
    var n := |actions| - 1;
    var before := actions[..n];
    if Requested(cfg, start, actions, window) {
      var k: nat :| RequestedAt(cfg, start, actions, k, window);
      if k < n {
        assert before[..k] == actions[..k];
        assert RequestedAt(cfg, start, before, k, window);
      }
    }
    if Requested(cfg, start, before, window) {
      var k: nat :| RequestedAt(cfg, start, before, k, window);
      assert before[..k] == actions[..k];
      assert RequestedAt(cfg, start, actions, k, window);
    }
    if actions[n] == RequestCancel && InWindow(Run(cfg, start, before).value.phase, window) {
      assert RequestedAt(cfg, start, actions, n, window);
    }
  }

  predicate Succeeding(phase: Phase)
  {
    phase.Completing? || phase == Ended(WorkflowSucceeded)
  }

  predicate Failing(phase: Phase)
  {
    phase.FailCommitting? || phase == Ended(WorkflowFailed)
  }

  /** How the persisted intent follows from the requests made so far. */
  ghost predicate Tracked(s: State, early: bool, success: bool, failure: bool)
  {
    && (if Succeeding(s.phase) then s.intent == success else !success)
    && (if Failing(s.phase) then s.intent == failure else !failure)
    && (early ==> s.intent && !Decided(s.phase))
    && (s.intent && s.phase != Ended(WorkflowCancelled) ==> s.signalling && (early || Decided(s.phase)))
    && (s.phase.Cancelling? || s.phase == Ended(WorkflowCancelled) ==> s.reason.Some? || early)
  }

  ghost predicate TrackedNext(s: State, t: State, asked: bool, early: bool, success: bool, failure: bool)
  {
    Tracked(t, early || (asked && InWindow(s.phase, Early)), success || (asked && InWindow(s.phase, DuringSuccess)),
            failure || (asked && InWindow(s.phase, DuringFailure)))
  }

  /** The loop goes round: nothing is asked, told or decided. */
  ghost predicate GoesRound(s: State, t: State)
  {
    && SameRecord(s, t) && (s.reason.Some? ==> t.reason.Some?)
    && !Decided(t.phase) && !t.phase.Ended? && !t.phase.Cancelling?
  }

  lemma RoundTracked(s: State, t: State, early: bool, success: bool, failure: bool)
    requires Tracked(s, early, success, failure) && GoesRound(s, t)
    requires !Decided(s.phase) && !s.phase.Ended?
    ensures TrackedNext(s, t, false, early, success, failure)
  {
  }

  lemma LoopGoesRound(cfg: Config, s: State, a: Action)
    requires IsLoop(a) && !a.Conclude? && LoopNext(cfg, s, a).Some?
    ensures GoesRound(s, LoopNext(cfg, s, a).value) && !Decided(s.phase) && !s.phase.Ended?
  {
    match a
    case Refresh => RefreshKeeps(cfg, s);
    case Launch => LaunchKeeps(cfg, s);
    case Spawn => SpawnKeeps(cfg, s, s.phase.key);
    case Settle => SettleKeeps(s);
    case Receive(k) => ReceiveKeeps(s, k, s.work.workers[k].pc.terminal);
  }

  lemma RefreshKeeps(cfg: Config, s: State)
    requires LoopNext(cfg, s, Refresh).Some?
    ensures GoesRound(s, LoopNext(cfg, s, Refresh).value)
  {
  }

  lemma SettleKeeps(s: State)
    ensures GoesRound(s, SettleStep(s))
  {
  }

  lemma LaunchKeeps(cfg: Config, s: State)
    ensures LaunchStep(cfg, s) == s.(phase := LaunchStep(cfg, s).phase)
    ensures LaunchStep(cfg, s).phase.Settling? || LaunchStep(cfg, s).phase.Chosen?
  {
  }

  lemma ConcludeTracked(cfg: Config, s: State, early: bool, success: bool, failure: bool)
    requires s.phase == Concluding && (s.seen ==> s.intent) && Tracked(s, early, success, failure)
    ensures TrackedNext(s, ConcludeStep(cfg, s), false, early, success, failure)
  {
  }

  lemma LoopTracked(cfg: Config, s: State, a: Action, early: bool, success: bool, failure: bool)
    requires IsLoop(a) && LoopNext(cfg, s, a).Some? && (s.seen ==> s.intent) && Tracked(s, early, success, failure)
    ensures TrackedNext(s, LoopNext(cfg, s, a).value, false, early, success, failure)
  {
    if a.Conclude? {
      ConcludeTracked(cfg, s, early, success, failure);
    } else {
      LoopGoesRound(cfg, s, a);
      RoundTracked(s, LoopNext(cfg, s, a).value, early, success, failure);
    }
  }

  /** The fields that tell what was asked and told. */
  ghost predicate SameRecord(s: State, t: State)
  {
    t.intent == s.intent && t.signalling == s.signalling && t.closing == s.closing && t.message == s.message
      && t.stored == s.stored
  }

  lemma SpawnKeeps(cfg: Config, s: State, k: Key)
    ensures var t := SpawnStep(cfg, s, k);
      SameRecord(s, t) && t.reason == s.reason && (t.phase == Settling || t.phase == Launching)
  {
    var found := FindStep(cfg.spec.steps, k);
    if found.Some? {
      var inputs := ResolveInputs(cfg.workflow, s.work.fences, s.artifacts, found.value.inputs);
      if inputs.Err? { var (n, fault) := inputs.error; }
    }
  }

  lemma ReceiveKeeps(s: State, k: Key, terminal: Terminal)
    ensures var t := ReceiveStep(s, k, terminal);
      SameRecord(s, t) && (s.reason.Some? ==> t.reason == s.reason) && t.phase == Refreshing
  {
  }

  lemma EdgeTracked(cfg: Config, s: State, a: Action, early: bool, success: bool, failure: bool)
    requires IsEdge(a) && EdgeNext(s, a).Some? && ControlOk(cfg, s) && Tracked(s, early, success, failure)
    ensures TrackedNext(s, EdgeNext(s, a).value, false, early, success, failure)
  {
  }

  lemma OthersTracked(cfg: Config, s: State, a: Action, early: bool, success: bool, failure: bool)
    requires !IsSystem(a) && OthersNext(cfg, s, a).Some? && ControlOk(cfg, s) && Tracked(s, early, success, failure)
    ensures TrackedNext(s, OthersNext(cfg, s, a).value, a == RequestCancel, early, success, failure)
  {
  }

  lemma NextTracked(cfg: Config, s: State, a: Action, early: bool, success: bool, failure: bool)
    requires Next(cfg, s, a).Some? && ControlOk(cfg, s) && Tracked(s, early, success, failure)
    ensures TrackedNext(s, Next(cfg, s, a).value, a == RequestCancel, early, success, failure)
  {
    if a.Work? {
    } else if IsLoop(a) {
      LoopTracked(cfg, s, a, early, success, failure);
    } else if IsSystem(a) {
      EdgeTracked(cfg, s, a, early, success, failure);
    } else {
      OthersTracked(cfg, s, a, early, success, failure);
    }
  }

  ghost predicate RunTracked(cfg: Config, start: State, actions: seq<Action>, s: State)
  {
    Tracked(s, Requested(cfg, start, actions, Early), Requested(cfg, start, actions, DuringSuccess),
            Requested(cfg, start, actions, DuringFailure))
  }

  lemma {:induction false} ReachedTracked(cfg: Config, start: State, actions: seq<Action>, s: State)
    requires Reached(cfg, start, actions, s)
    ensures RunTracked(cfg, start, actions, s)
    decreases |actions|
  {
    if actions != [] {
      var n := |actions| - 1;
      var before := Run(cfg, start, actions[..n]).value;
      ReachedTracked(cfg, start, actions[..n], before);
      ReachedControl(cfg, start, actions[..n], before);
      NextTracked(cfg, before, actions[n], Requested(cfg, start, actions[..n], Early),
                  Requested(cfg, start, actions[..n], DuringSuccess),
                  Requested(cfg, start, actions[..n], DuringFailure));
      RequestedSnoc(cfg, start, actions, Early);
      RequestedSnoc(cfg, start, actions, DuringSuccess);
      RequestedSnoc(cfg, start, actions, DuringFailure);
    }
  }

  // ----------------------------------------------------------------- outcomes

  /** How the outcome on record follows from what happened. */
  ghost predicate OutcomeExact(s: State, early: bool)
    requires s.phase.Ended?
  {
    && s.stored == StoredEnded(s.phase.outcome) && s.work.inFlight == {}
    && (s.phase.outcome.WorkflowCancelled? <==> s.reason.Some? || early)
    && (s.phase.outcome.WorkflowFailed? <==> s.failure.Some? && s.reason.None? && !early)
  }

  lemma ControlOutcome(cfg: Config, s: State, early: bool, success: bool, failure: bool)
    requires ControlOk(cfg, s) && s.phase.Ended? && Tracked(s, early, success, failure)
    ensures OutcomeExact(s, early)
  {
  }

  /** The recorded outcome is exact.  A workflow ends cancelled exactly when a step
      reported a cancellation or somebody asked before the last look; it ends failed
      exactly when a failure is recorded and neither is the case; and it succeeds
      only with every step completed and published. */
  lemma OutcomeIsExact(cfg: Config, start: State, actions: seq<Action>, s: State)
    requires Reached(cfg, start, actions, s) && s.phase.Ended?
    ensures OutcomeExact(s, Requested(cfg, start, actions, Early))
    ensures s.phase.outcome.WorkflowSucceeded? ==> AllPublished(cfg, s.work)
  {
    ReachedControl(cfg, start, actions, s);
    ReachedTracked(cfg, start, actions, s);
    ControlOutcome(cfg, s, Requested(cfg, start, actions, Early), Requested(cfg, start, actions, DuringSuccess),
                   Requested(cfg, start, actions, DuringFailure));
    if s.phase.outcome.WorkflowSucceeded? { SuccessIsComplete(cfg, start, actions, s); }
  }

  ghost predicate Bound(s: State)
  {
    s.intent && !Decided(s.phase)
  }

  lemma BoundByLoop(cfg: Config, s: State, a: Action)
    requires IsLoop(a) && LoopNext(cfg, s, a).Some? && Bound(s)
    ensures Bound(LoopNext(cfg, s, a).value)
  {
    if !a.Conclude? { LoopGoesRound(cfg, s, a); }
  }

  lemma BoundByEdge(s: State, a: Action)
    requires IsEdge(a) && EdgeNext(s, a).Some? && Bound(s)
    ensures Bound(EdgeNext(s, a).value)
  {
  }

  lemma IntentStep(cfg: Config, s: State, a: Action)
    requires Next(cfg, s, a).Some? && Bound(s)
    ensures Bound(Next(cfg, s, a).value)
  {
    if IsLoop(a) { BoundByLoop(cfg, s, a); } else if IsEdge(a) { BoundByEdge(s, a); }
  }

  /** Cancellation intent persisted before the last look always wins: the
      workflow ends cancelled. */
  lemma {:induction false} IntentIsHonoured(cfg: Config, s: State, actions: seq<Action>)
    requires Run(cfg, s, actions).Some? && s.intent && !Decided(s.phase)
    ensures var t := Run(cfg, s, actions).value;
      Bound(t) && (t.phase.Ended? ==> t.phase.outcome.WorkflowCancelled?)
    decreases |actions|
  {
    if actions != [] {
      var n := |actions| - 1;
      IntentIsHonoured(cfg, s, actions[..n]);
      IntentStep(cfg, Run(cfg, s, actions[..n]).value, actions[n]);
    }
  }

  // -------------------------------------------------------- the recorded text

  /** The text an ending that was not cancelled should carry. */
  function DueText(s: State): Option<Cause>
  {
    if s.phase == Ended(WorkflowFailed) then s.failure else None
  }

  /** What the stored text is, given whether a canceller has closed the record. */
  ghost predicate TextTracked(s: State, closed: bool)
  {
    && (closed ==> s.closing)
    && (s.phase.Ended? && !s.phase.outcome.WorkflowCancelled? ==>
          s.message == if closed then Some(CancelRequested) else DueText(s))
  }

  lemma LoopText(cfg: Config, s: State, a: Action, closed: bool)
    requires IsLoop(a) && LoopNext(cfg, s, a).Some? && TextTracked(s, closed)
    ensures TextTracked(LoopNext(cfg, s, a).value, closed)
  {
    if !a.Conclude? { LoopGoesRound(cfg, s, a); }
  }

  lemma EdgeText(cfg: Config, s: State, a: Action, closed: bool)
    requires IsEdge(a) && EdgeNext(s, a).Some? && ControlOk(cfg, s) && TextTracked(s, closed)
    ensures TextTracked(EdgeNext(s, a).value, closed)
  {
  }

  lemma OthersText(cfg: Config, s: State, a: Action, closed: bool)
    requires !IsSystem(a) && OthersNext(cfg, s, a).Some? && TextTracked(s, closed)
    ensures TextTracked(OthersNext(cfg, s, a).value, closed || a == FinishCancel)
  {
  }

  lemma NextText(cfg: Config, s: State, a: Action, closed: bool)
    requires Next(cfg, s, a).Some? && ControlOk(cfg, s) && TextTracked(s, closed)
    ensures TextTracked(Next(cfg, s, a).value, closed || a == FinishCancel)
  {
    if a.Work? {
    } else if IsLoop(a) {
      LoopText(cfg, s, a, closed);
    } else if IsSystem(a) {
      EdgeText(cfg, s, a, closed);
    } else {
      OthersText(cfg, s, a, closed);
    }
  }

  lemma {:induction false} ReachedText(cfg: Config, start: State, actions: seq<Action>, s: State)
    requires Reached(cfg, start, actions, s)
    ensures TextTracked(s, FinishCancel in actions)
    decreases |actions|
  {
    if actions != [] {
      var n := |actions| - 1;
      var before := Run(cfg, start, actions[..n]).value;
      ReachedText(cfg, start, actions[..n], before);
      ReachedControl(cfg, start, actions[..n], before);
      NextText(cfg, before, actions[n], FinishCancel in actions[..n]);
      assert actions == actions[..n] + [actions[n]];
    }
  }

  /** Some continuation leaves a text that is not due. */
  ghost predicate CanLoseText(cfg: Config, s: State)
  {
    exists more :: Run(cfg, s, more).Some? && Run(cfg, s, more).value.message != DueText(s)
  }

  /** Nobody asked, so nobody can still write. */
  ghost predicate Silent(s: State)
  {
    s.phase.Ended? && s.stored.StoredEnded? && !s.intent && !s.signalling && !s.closing
  }

  lemma SilentStep(cfg: Config, s: State, a: Action)
    requires Next(cfg, s, a).Some? && Silent(s)
    ensures Silent(Next(cfg, s, a).value) && Next(cfg, s, a).value.message == s.message
  {
  }

  lemma {:induction false} SilentRun(cfg: Config, s: State, more: seq<Action>)
    requires Run(cfg, s, more).Some? && Silent(s)
    ensures Silent(Run(cfg, s, more).value) && Run(cfg, s, more).value.message == s.message
    decreases |more|
  {
    if more != [] {
      var n := |more| - 1;
      SilentRun(cfg, s, more[..n]);
      SilentStep(cfg, Run(cfg, s, more[..n]).value, more[n]);
    }
  }

  /** The canceller that signalled finds nothing to stop, then closes the record. */
  lemma CancellerCloses(cfg: Config, s: State)
    requires s.phase.Ended? && s.signalling
    ensures var s1 := s.(closing := true);
            && Next(cfg, s, FindNoExecution) == Some(s1)
            && Next(cfg, s1, FinishCancel).Some?
            && Next(cfg, s1, FinishCancel).value.message == Some(CancelRequested)
  {
  }

  lemma SignalledCanClose(cfg: Config, s: State)
    requires s.phase.Ended? && s.signalling && DueText(s) != Some(CancelRequested)
    ensures CanLoseText(cfg, s)
  {
    CancellerCloses(cfg, s);
    var s1 := s.(closing := true);
    var s2 := Next(cfg, s1, FinishCancel).value;
    RunOne(cfg, s, [], s, FindNoExecution, s1);
    RunOne(cfg, s, [] + [FindNoExecution], s1, FinishCancel, s2);
  }

  lemma SilentKeepsText(cfg: Config, s: State)
    requires Silent(s) && s.message == DueText(s)
    ensures !CanLoseText(cfg, s)
  {
    forall more | Run(cfg, s, more).Some?
      ensures Run(cfg, s, more).value.message == DueText(s)
    {
      SilentRun(cfg, s, more);
    }
  }

  /** The state of an ending that was not cancelled, as far as the text goes. */
  ghost predicate UncancelledEnd(s: State, closed: bool)
  {
    && s.phase.Ended? && !s.phase.outcome.WorkflowCancelled? && s.stored.StoredEnded?
    && (s.intent ==> s.signalling) && (!s.intent ==> !s.signalling && !s.closing)
    && DueText(s) != Some(CancelRequested) && TextTracked(s, closed)
  }

  lemma ControlUncancelled(cfg: Config, s: State, early: bool, success: bool, failure: bool, closed: bool)
    requires ControlOk(cfg, s) && Tracked(s, early, success, failure) && TextTracked(s, closed)
    requires s.phase.Ended? && !s.phase.outcome.WorkflowCancelled?
    ensures UncancelledEnd(s, closed)
    ensures s.intent == if s.phase.outcome.WorkflowSucceeded? then success else failure
  {
  }

  lemma TextIff(cfg: Config, s: State, closed: bool)
    requires UncancelledEnd(s, closed)
    ensures s.message == DueText(s) <==> !closed
    ensures CanLoseText(cfg, s) <==> s.intent
  {
    if s.intent { SignalledCanClose(cfg, s); } else { SilentKeepsText(cfg, s); }
  }

  lemma ReachedEnd(cfg: Config, start: State, actions: seq<Action>, s: State)
    requires Reached(cfg, start, actions, s) && s.phase.Ended? && !s.phase.outcome.WorkflowCancelled?
    ensures UncancelledEnd(s, FinishCancel in actions)
    ensures s.intent
      == Requested(cfg, start, actions, if s.phase.outcome.WorkflowSucceeded? then DuringSuccess else DuringFailure)
  {
    ReachedControl(cfg, start, actions, s);
    ReachedTracked(cfg, start, actions, s);
    ReachedText(cfg, start, actions, s);
    ControlUncancelled(cfg, s, Requested(cfg, start, actions, Early), Requested(cfg, start, actions, DuringSuccess),
                       Requested(cfg, start, actions, DuringFailure), FinishCancel in actions);
  }

  /** A succeeded workflow can come to carry a failure text exactly when somebody
      asked to cancel it after the last look, while success was being recorded; it
      carries one exactly when that canceller has then closed the record. */
  lemma SuccessIsCleanIff(cfg: Config, start: State, actions: seq<Action>, s: State)
    requires Reached(cfg, start, actions, s) && s.phase == Ended(WorkflowSucceeded)
    ensures s.intent <==> Requested(cfg, start, actions, DuringSuccess)
    ensures CanLoseText(cfg, s) <==> Requested(cfg, start, actions, DuringSuccess)
    ensures s.message.None? <==> FinishCancel !in actions
  {
    ReachedEnd(cfg, start, actions, s);
    TextIff(cfg, s, FinishCancel in actions);
  }

  /** A failed workflow can come to lose its first failure exactly when somebody
      asked to cancel it after the last look, while the failure was being recorded;
      it has lost it exactly when that canceller has then closed the record. */
  lemma FailureIsKeptIff(cfg: Config, start: State, actions: seq<Action>, s: State)
    requires Reached(cfg, start, actions, s) && s.phase == Ended(WorkflowFailed)
    ensures s.intent <==> Requested(cfg, start, actions, DuringFailure)
    ensures CanLoseText(cfg, s) <==> Requested(cfg, start, actions, DuringFailure)
    ensures s.message == s.failure <==> FinishCancel !in actions
  {
    ReachedEnd(cfg, start, actions, s);
    TextIff(cfg, s, FinishCancel in actions);
  }
}
