/** The online scheduler against the offline execution order. */
module SchedulerOrder {
  import opened Keys
  import opened Graph
  import opened Workflows
  import opened Runs
  import opened Scheduler
  import opened SchedulerInvariants
  import opened SchedulerSafety
  import opened SchedulerTheorems

  /** One at a time, every start was the least ready step. */
  ghost predicate Sequential(cfg: Config, started: seq<Key>)
  {
    cfg.spec.maxConcurrency == 1 ==> LeastFirst(Nodes(cfg), SpecEdges(cfg.spec), started)
  }

  lemma StartSequential(cfg: Config, w: Work, k: Key)
    requires WellFormed(cfg.spec) && NothingDropped(cfg, w) && w.inFlight == {} && w.pending !! w.completed
    requires Elements(w.started) == Nodes(cfg) - w.pending
    requires LeastFirst(Nodes(cfg), SpecEdges(cfg.spec), w.started)
    requires IsLeast(Startable(cfg, w.pending, w.completed), k)
    ensures LeastFirst(Nodes(cfg), SpecEdges(cfg.spec), w.started + [k])
  {
    assert w.completed == Nodes(cfg) - w.pending;
    StartableIsReady(cfg, w.pending, w.completed);
    LeastFirstExtend(Nodes(cfg), SpecEdges(cfg.spec), w.started, k);
  }

  lemma EffectSequential(cfg: Config, s: State, k: Key, t: State)
    requires WellFormed(cfg.spec) && Partitioned(cfg, s.work) && SignalsOk(cfg, s) && ChosenOk(cfg, s, k)
    requires Elements(s.work.started) == Nodes(cfg) - s.work.pending
    requires SpawnEffect(s, k, t) && Sequential(cfg, s.work.started)
    ensures Sequential(cfg, t.work.started)
  {
    if t.phase == Launching && cfg.spec.maxConcurrency == 1 {
      assert s.work.inFlight == {};
      StartSequential(cfg, s.work, k);
    }
  }

  lemma SpawnSequential(cfg: Config, s: State, k: Key)
    requires WellFormed(cfg.spec) && Inv(cfg, s) && s.phase == Chosen(k) && Sequential(cfg, s.work.started)
    ensures Sequential(cfg, SpawnStep(cfg, s, k).work.started)
  {
    SpawnHasEffect(cfg, s, k);
    EffectSequential(cfg, s, k, SpawnStep(cfg, s, k));
  }

  lemma StartedOnlyBySpawn(cfg: Config, s: State, a: Action)
    requires Next(cfg, s, a).Some? && !a.Spawn?
    ensures Next(cfg, s, a).value.work.started == s.work.started
  {
    if IsLoop(a) { LoopKeepsStarted(cfg, s, a); }
  }

  lemma LoopKeepsStarted(cfg: Config, s: State, a: Action)
    requires IsLoop(a) && !a.Spawn? && LoopNext(cfg, s, a).Some?
    ensures LoopNext(cfg, s, a).value.work.started == s.work.started
  {
    match a
    case Refresh =>
    case Launch =>
    case Settle =>
    case Conclude =>
    case Receive(k) =>
  }

  lemma StepSequential(cfg: Config, s: State, a: Action)
    requires WellFormed(cfg.spec) && Inv(cfg, s) && Sequential(cfg, s.work.started) && Next(cfg, s, a).Some?
    ensures Sequential(cfg, Next(cfg, s, a).value.work.started)
  {
    if a.Spawn? { SpawnSequential(cfg, s, s.phase.key); } else { StartedOnlyBySpawn(cfg, s, a); }
  }

  lemma {:induction false} RunSequential(cfg: Config, start: State, actions: seq<Action>, s: State)
    requires Reached(cfg, start, actions, s)
    ensures Sequential(cfg, s.work.started)
    decreases |actions|
  {
    if actions != [] {
      var n := |actions| - 1;
      var t := Run(cfg, start, actions[..n]).value;
      RunSequential(cfg, start, actions[..n], t);
      ReachedOk(cfg, start, actions[..n], t);
      StepSequential(cfg, t, actions[n]);
    }
  }

  /** With concurrency one, whatever happens, the steps started so far are a
      prefix of the execution order, and all of it when the workflow succeeds. */
  lemma SequentialFollowsExecutionOrder(cfg: Config, start: State, actions: seq<Action>, s: State)
    requires Reached(cfg, start, actions, s) && cfg.spec.maxConcurrency == 1
    ensures Buildable(cfg.spec.steps)
    ensures s.work.started <= ExecutionOrder(cfg.spec)
    ensures s.phase == Ended(WorkflowSucceeded) ==> s.work.started == ExecutionOrder(cfg.spec)
  {
    WellFormedGraph(cfg.spec);
    RunSequential(cfg, start, actions, s);
    SchedulingIsSafe(cfg, start, actions, s);
    PrefixOfOrder(cfg.spec, s.work.started);
    if s.phase == Ended(WorkflowSucceeded) {
      SuccessIsComplete(cfg, start, actions, s);
      WholeOrder(cfg.spec, s.work.started);
    }
  }

  lemma PrefixOfOrder(spec: WorkflowSpec, started: seq<Key>)
    requires Buildable(spec.steps)
    requires LeastFirst(SpecNodes(spec), SpecEdges(spec), started) && Elements(started) <= SpecNodes(spec)
      && NoDuplicates(started)
    ensures started <= ExecutionOrder(spec)
  {
    var order := ExecutionOrder(spec);
    DistinctLength(started);
    DistinctLength(order);
    SubsetCardinality(Elements(started), SpecNodes(spec));
    LeastFirstAgree(SpecNodes(spec), SpecEdges(spec), started, order);
  }

  lemma WholeOrder(spec: WorkflowSpec, started: seq<Key>)
    requires Buildable(spec.steps) && started <= ExecutionOrder(spec)
    requires Elements(started) == SpecNodes(spec) && NoDuplicates(started)
    ensures started == ExecutionOrder(spec)
  {
    DistinctLength(started);
    DistinctLength(ExecutionOrder(spec));
  }

  /** With any concurrency, the steps of a succeeded workflow were started in a
      topological order of the step graph. */
  lemma SuccessIsTopological(cfg: Config, start: State, actions: seq<Action>, s: State)
    requires Reached(cfg, start, actions, s) && s.phase == Ended(WorkflowSucceeded)
    ensures IsTopological(Nodes(cfg), SpecEdges(cfg.spec), s.work.started)
  {
    SchedulingIsSafe(cfg, start, actions, s);
    SuccessIsComplete(cfg, start, actions, s);
    OrderIsTopological(cfg, s.work.started);
  }

  lemma EdgeGoesForward(cfg: Config, started: seq<Key>, i: nat, j: nat)
    requires WellFormed(cfg.spec) && InOrder(cfg, started) && NoDuplicates(started)
    requires i < |started| && j < |started| && HasEdge(SpecEdges(cfg.spec), started[i], started[j])
    ensures i < j
  {
    EdgeIsDependency(cfg, started[i], started[j]);
    DependencyStartsEarlier(cfg, started, i, j);
  }

  lemma EdgeIsDependency(cfg: Config, u: Key, v: Key)
    requires WellFormed(cfg.spec) && v in Nodes(cfg) && HasEdge(SpecEdges(cfg.spec), u, v)
    ensures u in Deps(cfg, v)
  {
    DependenciesArePredecessors(cfg.spec, v);
    PredecessorsAreEdges(SpecEdges(cfg.spec), v);
  }

  lemma DependencyStartsEarlier(cfg: Config, started: seq<Key>, i: nat, j: nat)
    requires InOrder(cfg, started) && NoDuplicates(started)
    requires i < |started| && j < |started| && started[i] in Deps(cfg, started[j])
    ensures i < j
  {
    assert started[i] in Elements(started[..j]);
    var m :| 0 <= m < j && started[..j][m] == started[i];
    assert started[m] == started[i];
  }

  lemma OrderIsTopological(cfg: Config, started: seq<Key>)
    requires WellFormed(cfg.spec) && InOrder(cfg, started) && NoDuplicates(started) && Elements(started) == Nodes(cfg)
    ensures IsTopological(Nodes(cfg), SpecEdges(cfg.spec), started)
  {
    forall i, j | 0 <= i < |started| && 0 <= j < |started| && HasEdge(SpecEdges(cfg.spec), started[i], started[j])
      ensures i < j
    {
      EdgeGoesForward(cfg, started, i, j);
    }
  }
}
