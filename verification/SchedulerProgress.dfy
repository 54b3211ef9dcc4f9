/** Every run is finite: each step of the scheduling thread or of a worker uses
    up a measure, and until the workflow has ended one of them can move. */
module SchedulerProgress {
  import opened Keys
  import opened Workflows
  import opened Scheduler
  import opened SchedulerInvariants
  import opened SchedulerSafety
  import opened SchedulerTheorems

  // ------------------------------------------------------------------- sums

  ghost function Sum(m: map<Key, nat>): nat
    decreases |m.Keys|
  {
    if m == map[] then 0 else
      assert m.Keys != {};
      var k := Least(m.Keys);
      assert (m - {k}).Keys == m.Keys - {k};
      m[k] + Sum(m - {k})
  }

  lemma {:induction false} SumRemove(m: map<Key, nat>, k: Key)
    requires k in m
    ensures Sum(m) == m[k] + Sum(m - {k})
    decreases |m.Keys|
  {
    var j := Least(m.Keys);
    assert (m - {j}).Keys == m.Keys - {j};
    if j != k {
      SumRemove(m - {j}, k);
      assert (m - {k}).Keys == m.Keys - {k};
      LeastUnique((m - {k}).Keys, j, Least((m - {k}).Keys));
      assert m - {j} - {k} == m - {k} - {j};
    }
  }

  lemma SumUpdate(m: map<Key, nat>, k: Key, v: nat)
    ensures Sum(m[k := v]) + (if k in m then m[k] else 0) == Sum(m) + v
  {
    SumRemove(m[k := v], k);
    assert m[k := v] - {k} == m - {k};
    if k in m {
      SumRemove(m, k);
    } else {
      assert m - {k} == m;
    }
  }

  // ---------------------------------------------------------------- measures

  function PcRank(pc: Pc): nat
  {
    match pc
    case Checking => 8
    case Submitting => 7
    case Fencing(_, _) => 6
    case Executing(_, _) => 5
    case Finishing(_, _, _) => 4
    case Deciding(_, _) => 3
    case Publishing(_, _) => 2
    case Waiting => 1
    case Done(_) => 0
  }

  /** Steps a worker may still take. */
  function WorkerRank(limit: nat, w: Worker): nat
  {
    8 * (if w.number <= limit then limit - w.number else 0) + PcRank(w.pc)
  }

  function PhaseRank(phase: Phase): nat
  {
    match phase
    case Idle => 12
    case Booting => 11
    case Starting => 10
    case Refreshing => 9
    case Launching => 8
    case Chosen(_) => 7
    case Settling => 6
    case Receiving => 5
    case Concluding => 4
    case Failing(_) => 3
    case FailCommitting(_) => 2
    case Completing => 2
    case Cancelling(_) => 1
    case Stalled => 0
    case Rejected => 0
    case Ended(_) => 0
  }

  ghost function LimitOf(cfg: Config, k: Key): nat
  {
    match FindStep(cfg.spec.steps, k)
    case None => 1
    case Some(step) => step.AttemptLimit()
  }

  ghost function Ranks(cfg: Config, workers: map<Key, Worker>): map<Key, nat>
  {
    map k | k in workers :: WorkerRank(LimitOf(cfg, k), workers[k])
  }

  const STEP_WEIGHT: nat := 300

  ghost function WorkRank(cfg: Config, w: Work): nat
  {
    STEP_WEIGHT * (2 * |w.pending| + |w.inFlight|) + Sum(Ranks(cfg, w.workers))
  }

  ghost function Rank(cfg: Config, s: State): nat
  {
    WorkRank(cfg, s.work) + PhaseRank(s.phase)
  }

  // ------------------------------------------------------ the measure falls

  lemma WorkerRankFalls(cfg: Config, step: Step, token: bool, intent: bool, l: Local, input: WorkerInput)
    requires WorkerStep(cfg, step, token, intent, l, input).Some?
    requires 1 <= l.worker.number <= step.AttemptLimit()
    requires l.worker.pc.Waiting? ==> l.worker.number < step.AttemptLimit()
    ensures var l' := WorkerStep(cfg, step, token, intent, l, input).value;
      WorkerRank(step.AttemptLimit(), l'.worker) < WorkerRank(step.AttemptLimit(), l.worker)
  {
  }

  lemma InstallFalls(cfg: Config, w: Work, k: Key, l: Local)
    requires k in w.workers && WorkerRank(LimitOf(cfg, k), l.worker) < WorkerRank(LimitOf(cfg, k), w.workers[k])
    ensures WorkRank(cfg, Install(w, k, l)) < WorkRank(cfg, w)
  {
    var before, after := Ranks(cfg, w.workers), Ranks(cfg, Install(w, k, l).workers);
    assert after == before[k := WorkerRank(LimitOf(cfg, k), l.worker)];
    SumUpdate(before, k, after[k]);
  }

  lemma WorkerBounds(cfg: Config, w: Work, k: Key)
    requires k in Nodes(cfg) && k in w.workers && KeyOk(cfg, w, k)
    ensures var limit := StepOf(cfg, k).AttemptLimit();
      && LimitOf(cfg, k) == limit
      && 1 <= w.workers[k].number <= limit
      && (w.workers[k].pc.Waiting? ==> w.workers[k].number < limit)
  {
  }

  lemma WorkFalls(cfg: Config, s: State, k: Key, input: WorkerInput)
    requires k in Nodes(cfg) && KeyOk(cfg, s.work, k) && WorkStep(cfg, s, k, input).Some?
    ensures WorkRank(cfg, WorkStep(cfg, s, k, input).value.work) < WorkRank(cfg, s.work)
  {
    var w, step := s.work, StepOf(cfg, k);
    WorkerBounds(cfg, w, k);
    WorkerRankFalls(cfg, step, s.token, s.intent, LocalOf(w, k), input);
    InstallFalls(cfg, w, k, WorkerStep(cfg, step, s.token, s.intent, LocalOf(w, k), input).value);
  }

  lemma StartFalls(cfg: Config, w: Work, k: Key, resolved: map<string, ArtifactId>)
    requires k in w.pending && k !in w.inFlight && k !in w.workers && LimitOf(cfg, k) <= MAX_ATTEMPTS
    ensures WorkRank(cfg, StartStep(w, k, resolved)) + 2 <= WorkRank(cfg, w)
  {
    var before, after := Ranks(cfg, w.workers), Ranks(cfg, StartStep(w, k, resolved).workers);
    assert after == before[k := WorkerRank(LimitOf(cfg, k), Worker(Checking, 1))];
    SumUpdate(before, k, after[k]);
    assert |w.pending - {k}| == |w.pending| - 1;
    assert |w.inFlight + {k}| == |w.inFlight| + 1;
  }

  lemma CollectFalls(cfg: Config, w: Work, k: Key, success: bool)
    requires k in w.inFlight && k in w.workers
    ensures WorkRank(cfg, CollectStep(w, k, success)) + STEP_WEIGHT <= WorkRank(cfg, w)
  {
    var before, after := Ranks(cfg, w.workers), Ranks(cfg, CollectStep(w, k, success).workers);
    assert after == before - {k};
    SumRemove(before, k);
    assert |w.inFlight - {k}| == |w.inFlight| - 1;
  }

  lemma EffectFalls(cfg: Config, s: State, k: Key, t: State)
    requires WellFormed(cfg.spec) && Partitioned(cfg, s.work) && s.phase == Chosen(k) && k in s.work.pending
    requires SpawnEffect(s, k, t)
    ensures Rank(cfg, t) < Rank(cfg, s)
  {
    if t.phase == Launching {
      LimitBounded(cfg, k);
      StartFalls(cfg, s.work, k, t.work.resolved[k]);
    }
  }

  lemma SpawnFalls(cfg: Config, s: State, k: Key)
    requires WellFormed(cfg.spec) && Partitioned(cfg, s.work) && s.phase == Chosen(k) && PhaseOk(cfg, s)
    ensures Rank(cfg, SpawnStep(cfg, s, k)) < Rank(cfg, s)
  {
    SpawnHasEffect(cfg, s, k);
    EffectFalls(cfg, s, k, SpawnStep(cfg, s, k));
  }

  lemma LaunchFalls(cfg: Config, s: State)
    requires s.phase == Launching
    ensures Rank(cfg, LaunchStep(cfg, s)) < Rank(cfg, s)
  {
  }

  lemma LimitBounded(cfg: Config, k: Key)
    requires WellFormed(cfg.spec) && k in Nodes(cfg)
    ensures LimitOf(cfg, k) <= MAX_ATTEMPTS
  {
    StepOfUsable(cfg, k);
  }

  lemma ReceiveFalls(cfg: Config, s: State, k: Key, terminal: Terminal)
    requires k in s.work.inFlight && k in s.work.workers && s.phase == Receiving
    ensures Rank(cfg, ReceiveStep(s, k, terminal)) < Rank(cfg, s)
  {
    CollectFalls(cfg, s.work, k, terminal.StepSucceeded?);
    assert ReceiveStep(s, k, terminal).work == CollectStep(s.work, k, terminal.StepSucceeded?);
  }

  lemma QuietFalls(cfg: Config, s: State, a: Action)
    requires (a.Refresh? || a.Settle? || a.Conclude?) && LoopNext(cfg, s, a).Some?
    ensures Rank(cfg, LoopNext(cfg, s, a).value) < Rank(cfg, s)
  {
    QuietKeepsWork(cfg, s, a);
  }

  lemma QuietKeepsWork(cfg: Config, s: State, a: Action)
    requires (a.Refresh? || a.Settle? || a.Conclude?) && LoopNext(cfg, s, a).Some?
    ensures LoopNext(cfg, s, a).value.work == s.work && PhaseRank(LoopNext(cfg, s, a).value.phase) < PhaseRank(s.phase)
  {
    match a
    case Refresh =>
    case Settle =>
    case Conclude =>
  }

  lemma LoopFalls(cfg: Config, s: State, a: Action)
    requires WellFormed(cfg.spec) && Partitioned(cfg, s.work) && IsLoop(a) && LoopNext(cfg, s, a).Some?
    requires PhaseOk(cfg, s)
    ensures Rank(cfg, LoopNext(cfg, s, a).value) < Rank(cfg, s)
  {
    match a
    case Launch => LaunchFalls(cfg, s);
    case Spawn => SpawnFalls(cfg, s, s.phase.key);
    case Receive(k) => ReceiveFalls(cfg, s, k, s.work.workers[k].pc.terminal);
    case _ => QuietFalls(cfg, s, a);
  }

  lemma EdgeFalls(cfg: Config, s: State, a: Action)
    requires IsEdge(a) && EdgeNext(s, a).Some?
    ensures Rank(cfg, EdgeNext(s, a).value) < Rank(cfg, s)
  {
    EdgeKeepsWork(s, a);
  }

  lemma EdgeKeepsWork(s: State, a: Action)
    requires IsEdge(a) && EdgeNext(s, a).Some?
    ensures EdgeNext(s, a).value.work == s.work && PhaseRank(EdgeNext(s, a).value.phase) < PhaseRank(s.phase)
  {
    match a
    case ExecuteWorkflow =>
    case Boot =>
    case Start =>
    case Complete =>
    case RefreshFailure =>
    case CommitFailure =>
    case CommitCancel =>
  }

  lemma OthersKeep(cfg: Config, s: State, a: Action)
    requires !IsSystem(a) && OthersNext(cfg, s, a).Some?
    ensures Rank(cfg, OthersNext(cfg, s, a).value) == Rank(cfg, s)
  {
  }

  /** Every step of the system uses up the measure; other threads leave it alone. */
  lemma StepFalls(cfg: Config, s: State, a: Action)
    requires WellFormed(cfg.spec) && Inv(cfg, s) && Next(cfg, s, a).Some?
    ensures Rank(cfg, Next(cfg, s, a).value) + (if IsSystem(a) then 1 else 0) <= Rank(cfg, s)
  {
    if a.Work? {
      assert KeyOk(cfg, s.work, a.key);
      WorkFalls(cfg, s, a.key, a.input);
    } else if IsLoop(a) {
      LoopFalls(cfg, s, a);
    } else if IsSystem(a) {
      EdgeFalls(cfg, s, a);
    } else {
      OthersKeep(cfg, s, a);
    }
  }

  function SystemSteps(actions: seq<Action>): nat
  {
    if actions == [] then 0 else
      SystemSteps(actions[..|actions| - 1]) + if IsSystem(actions[|actions| - 1]) then 1 else 0
  }

  lemma {:induction false} RunFalls(cfg: Config, start: State, actions: seq<Action>, s: State)
    requires Reached(cfg, start, actions, s)
    ensures Rank(cfg, s) + SystemSteps(actions) <= Rank(cfg, start)
    decreases |actions|
  {
    if actions != [] {
      var n := |actions| - 1;
      var t := Run(cfg, start, actions[..n]).value;
      RunFalls(cfg, start, actions[..n], t);
      ReachedOk(cfg, start, actions[..n], t);
      StepFalls(cfg, t, actions[n]);
    }
  }

  /** However steps, failures and cancellations interleave, a workflow of `n`
      steps takes at most 600 n + 12 steps of its own. */
  lemma RunsAreBounded(cfg: Config, start: State, actions: seq<Action>, s: State)
    requires Reached(cfg, start, actions, s)
    ensures SystemSteps(actions) <= 2 * STEP_WEIGHT * |cfg.spec.steps| + 12
  {
    RunFalls(cfg, start, actions, s);
    DistinctStepCount(cfg.spec.steps);
    assert Ranks(cfg, start.work.workers) == map[];
    assert |start.work.pending| == |cfg.spec.steps|;
    assert Rank(cfg, start) == STEP_WEIGHT * (2 * |cfg.spec.steps|) + 12;
  }

  // ---------------------------------------------------------------- progress

  /** What a worker that is not done can do next. */
  function SomeInput(pc: Pc): WorkerInput
  {
    match pc
    case Checking => Check
    case Submitting => SubmitError
    case Fencing(_, _) => TakeFence
    case Executing(_, _) => Execute(EndCancelled)
    case Finishing(_, _, _) => RecordEnd
    case Deciding(_, _) => Decide
    case Publishing(_, _) => PublishOutputs
    case _ => Backoff
  }

  function SomeThreadAction(phase: Phase): Action
  {
    match phase
    case Booting => Boot
    case Starting => Start
    case Refreshing => Refresh
    case Launching => Launch
    case Chosen(_) => Spawn
    case Settling => Settle
    case Concluding => Conclude
    case Completing => Complete
    case Failing(_) => RefreshFailure
    case FailCommitting(_) => CommitFailure
    case _ => CommitCancel
  }

  predicate Active(phase: Phase)
  {
    !phase.Idle? && !phase.Rejected? && !phase.Ended?
  }

  lemma WorkerCanMove(cfg: Config, s: State, k: Key)
    requires k in s.work.workers && k in Nodes(cfg) && !s.work.workers[k].pc.Done?
    ensures Next(cfg, s, Action.Work(k, SomeInput(s.work.workers[k].pc))).Some?
  {
  }

  ghost predicate CanMove(cfg: Config, s: State)
  {
    exists a :: IsSystem(a) && Next(cfg, s, a).Some?
  }

  lemma ReceivingCanMove(cfg: Config, s: State)
    requires Partitioned(cfg, s.work) && s.phase == Receiving && s.work.inFlight != {}
    ensures CanMove(cfg, s)
  {
    var k :| k in s.work.inFlight;
    if s.work.workers[k].pc.Done? {
      assert IsSystem(Receive(k)) && Next(cfg, s, Receive(k)).Some?;
    } else {
      WorkerCanMove(cfg, s, k);
      assert IsSystem(Action.Work(k, SomeInput(s.work.workers[k].pc)));
    }
  }

  lemma ThreadCanMove(cfg: Config, s: State)
    requires Active(s.phase) && s.phase != Receiving && s.phase != Stalled
    ensures CanMove(cfg, s)
  {
    assert IsSystem(SomeThreadAction(s.phase)) && Next(cfg, s, SomeThreadAction(s.phase)).Some?;
  }

  lemma InvCanMove(cfg: Config, s: State)
    requires Partitioned(cfg, s.work) && ControlOk(cfg, s) && Active(s.phase)
    ensures CanMove(cfg, s)
  {
    if s.phase == Receiving { ReceivingCanMove(cfg, s); } else { ThreadCanMove(cfg, s); }
  }

  /** No deadlock: an execution that has begun and not ended can always take a
      step, by its own thread or by a worker. */
  lemma AlwaysProgress(cfg: Config, start: State, actions: seq<Action>, s: State)
    requires Reached(cfg, start, actions, s) && Active(s.phase)
    ensures CanMove(cfg, s)
  {
    ReachedControl(cfg, start, actions, s);
    ReachedKeys(cfg, start, actions, s);
    InvCanMove(cfg, s);
  }
}
