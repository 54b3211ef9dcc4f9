/** When a step can still start although the cancel token is set. */
module SchedulerToken {
  import opened Keys
  import opened Workflows
  import opened Publications
  import opened Scheduler
  import opened SchedulerWorkers
  import opened SchedulerInvariants
  import opened SchedulerSafety
  import opened SchedulerTheorems

  /** Some continuation starts a step. */
  ghost predicate CanStart(cfg: Config, s: State)
  {
    exists more :: Run(cfg, s, more).Some? && Run(cfg, s, more).value.work.started != s.work.started
  }

  /** The output an input names is among those its step has published. */
  predicate OutputThere(cfg: Config, fences: Entries, source: InputSource)
    requires source.FromStep?
  {
    var p := Authoritative(fences, cfg.workflow, source.key);
    p.Some? && source.output in p.value.outputs
  }

  ghost predicate OutputsThere(cfg: Config, fences: Entries, k: Key)
    requires k in Nodes(cfg)
  {
    var inputs := StepOf(cfg, k).inputs;
    forall n :: n in inputs && inputs[n].FromStep? ==> OutputThere(cfg, fences, inputs[n])
  }

  // ---------------------------------------------------- with all outputs there

  lemma IngestOne(cfg: Config, s: State, before: seq<Action>, missing: set<ArtifactId>, a: ArtifactId)
    requires a in missing && Run(cfg, s, before) == Some(s.(artifacts := s.artifacts + (missing - {a})))
    ensures Run(cfg, s, before + [IngestArtifact(a)]) == Some(s.(artifacts := s.artifacts + missing))
  {
    var t := s.(artifacts := s.artifacts + (missing - {a}));
    assert t.artifacts + {a} == s.artifacts + missing;
    RunOne(cfg, s, before, t, IngestArtifact(a), s.(artifacts := s.artifacts + missing));
  }

  /** Other threads ingest whatever artifacts are asked for. */
  lemma {:induction false} IngestAll(cfg: Config, s: State, missing: set<ArtifactId>) returns (more: seq<Action>)
    ensures Run(cfg, s, more) == Some(s.(artifacts := s.artifacts + missing))
    decreases |missing|
  {
    if missing == {} {
      assert s.artifacts + missing == s.artifacts;
      more := [];
    } else {
      var a :| a in missing;
      var before := IngestAll(cfg, s, missing - {a});
      IngestOne(cfg, s, before, missing, a);
      more := before + [IngestArtifact(a)];
    }
  }

  ghost function Named(inputs: map<string, InputSource>): set<ArtifactId>
  {
    set n | n in inputs && inputs[n].Artifact? :: inputs[n].artifact
  }

  lemma AllResolve(cfg: Config, fences: Entries, artifacts: set<ArtifactId>, k: Key)
    requires k in Nodes(cfg) && OutputsThere(cfg, fences, k) && Named(StepOf(cfg, k).inputs) <= artifacts
    ensures ResolveInputs(cfg.workflow, fences, artifacts, StepOf(cfg, k).inputs).Ok?
  {
    var inputs := StepOf(cfg, k).inputs;
    forall n | n in inputs
      ensures ResolveSource(cfg.workflow, fences, artifacts, inputs[n]).Ok?
    {
      if inputs[n].Artifact? {
        assert inputs[n].artifact in Named(inputs);
      } else {
        assert OutputThere(cfg, fences, inputs[n]);
      }
    }
  }

  lemma ResolvedStarts(cfg: Config, s: State, k: Key)
    requires k in Nodes(cfg) && ResolveInputs(cfg.workflow, s.work.fences, s.artifacts, StepOf(cfg, k).inputs).Ok?
    ensures SpawnStep(cfg, s, k).work.started == s.work.started + [k]
  {
  }

  lemma OutputsSuffice(cfg: Config, s: State, k: Key)
    requires k in Nodes(cfg) && s.phase == Chosen(k) && OutputsThere(cfg, s.work.fences, k)
    ensures CanStart(cfg, s)
  {
    var named := Named(StepOf(cfg, k).inputs);
    var more := IngestAll(cfg, s, named);
    var t := s.(artifacts := s.artifacts + named);
    AllResolve(cfg, t.work.fences, t.artifacts, k);
    ResolvedStarts(cfg, t, k);
    RunOne(cfg, s, more, t, Spawn, SpawnStep(cfg, t, k));
  }

  // ------------------------------------------------- with one output missing

  /** Either the chosen step still waits for an output that its completed dependency
      did not publish, or nothing is chosen any more; nothing has started since. */
  ghost predicate Blocked(cfg: Config, s: State, k: Key, source: InputSource, started: seq<Key>)
  {
    && s.token && s.work.started == started && source.FromStep?
    && (s.phase.Chosen? ==>
          s.phase == Chosen(k) && source.key !in s.work.workers && !OutputThere(cfg, s.work.fences, source))
  }

  lemma SameSlotSameOutputs(cfg: Config, before: Entries, after: Entries, source: InputSource)
    requires source.FromStep?
    requires EntryAt(before, (cfg.workflow, source.key)) == EntryAt(after, (cfg.workflow, source.key))
    ensures OutputThere(cfg, before, source) == OutputThere(cfg, after, source)
  {
  }

  lemma BlockedByWork(cfg: Config, s: State, j: Key, input: WorkerInput, k: Key, source: InputSource, started: seq<Key>)
    requires WellFormed(cfg.spec) && KeysOk(cfg, s.work) && s.work.workers.Keys <= Nodes(cfg)
    requires WorkStep(cfg, s, j, input).Some? && Blocked(cfg, s, k, source, started)
    ensures Blocked(cfg, WorkStep(cfg, s, j, input).value, k, source, started)
  {
    WorkerAdvances(cfg, s.work, s.token, s.intent, j, input);
    var l := WorkerStep(cfg, StepOf(cfg, j), s.token, s.intent, LocalOf(s.work, j), input).value;
    if source.key != j { SameSlotSameOutputs(cfg, s.work.fences, l.fences, source); }
  }

  lemma BlockedByOthers(cfg: Config, s: State, a: Action, k: Key, source: InputSource, started: seq<Key>)
    requires !IsSystem(a) && OthersNext(cfg, s, a).Some? && Blocked(cfg, s, k, source, started)
    ensures Blocked(cfg, OthersNext(cfg, s, a).value, k, source, started)
  {
    SameSlotSameOutputs(cfg, s.work.fences, OthersNext(cfg, s, a).value.work.fences, source);
  }

  lemma BlockedSpawn(cfg: Config, s: State, k: Key, n: string)
    requires k in Nodes(cfg) && n in StepOf(cfg, k).inputs && StepOf(cfg, k).inputs[n].FromStep?
    requires !OutputThere(cfg, s.work.fences, StepOf(cfg, k).inputs[n])
    ensures SpawnStep(cfg, s, k).work == s.work
  {
    assert n in Unresolved(cfg.workflow, s.work.fences, s.artifacts, StepOf(cfg, k).inputs);
    SpawnHasEffect(cfg, s, k);
  }

  lemma BlockedByLoop(cfg: Config, s: State, a: Action, k: Key, n: string, started: seq<Key>)
    requires IsLoop(a) && LoopNext(cfg, s, a).Some?
    requires k in Nodes(cfg) && n in StepOf(cfg, k).inputs && Blocked(cfg, s, k, StepOf(cfg, k).inputs[n], started)
    ensures Blocked(cfg, LoopNext(cfg, s, a).value, k, StepOf(cfg, k).inputs[n], started)
  {
    TokenLoop(cfg, s, a);
    if a.Spawn? { BlockedSpawn(cfg, s, k, n); }
  }

  lemma BlockedByEdge(cfg: Config, s: State, a: Action, k: Key, source: InputSource, started: seq<Key>)
    requires IsEdge(a) && EdgeNext(s, a).Some? && Blocked(cfg, s, k, source, started)
    ensures Blocked(cfg, EdgeNext(s, a).value, k, source, started)
  {
  }

  lemma BlockedStep(cfg: Config, s: State, a: Action, k: Key, n: string, started: seq<Key>)
    requires WellFormed(cfg.spec) && KeysOk(cfg, s.work) && s.work.workers.Keys <= Nodes(cfg) && Next(cfg, s, a).Some?
    requires k in Nodes(cfg) && n in StepOf(cfg, k).inputs && Blocked(cfg, s, k, StepOf(cfg, k).inputs[n], started)
    ensures Blocked(cfg, Next(cfg, s, a).value, k, StepOf(cfg, k).inputs[n], started)
  {
    var source := StepOf(cfg, k).inputs[n];
    if a.Work? {
      BlockedByWork(cfg, s, a.key, a.input, k, source, started);
    } else if IsLoop(a) {
      BlockedByLoop(cfg, s, a, k, n, started);
    } else if IsSystem(a) {
      BlockedByEdge(cfg, s, a, k, source, started);
    } else {
      BlockedByOthers(cfg, s, a, k, source, started);
    }
  }

  lemma {:induction false} BlockedRun(cfg: Config, s: State, more: seq<Action>, k: Key, n: string)
    requires WellFormed(cfg.spec) && Inv(cfg, s) && Run(cfg, s, more).Some? && k in Nodes(cfg)
    requires n in StepOf(cfg, k).inputs && Blocked(cfg, s, k, StepOf(cfg, k).inputs[n], s.work.started)
    ensures Blocked(cfg, Run(cfg, s, more).value, k, StepOf(cfg, k).inputs[n], s.work.started)
    decreases |more|
  {
    if more != [] {
      var m := |more| - 1;
      BlockedRun(cfg, s, more[..m], k, n);
      RunOk(cfg, s, more[..m]);
      BlockedStep(cfg, Run(cfg, s, more[..m]).value, more[m], k, n, s.work.started);
    }
  }

  lemma OutputsNeeded(cfg: Config, s: State, k: Key, more: seq<Action>)
    requires WellFormed(cfg.spec) && Inv(cfg, s) && s.token && s.phase == Chosen(k) && k in Nodes(cfg)
    requires Deps(cfg, k) <= s.work.completed && !OutputsThere(cfg, s.work.fences, k)
    requires Run(cfg, s, more).Some?
    ensures Run(cfg, s, more).value.work.started == s.work.started
  {
    var inputs := StepOf(cfg, k).inputs;
    var n :| n in inputs && inputs[n].FromStep? && !OutputThere(cfg, s.work.fences, inputs[n]);
    SourcesPublished(cfg, s.work, k, n);
    BlockedRun(cfg, s, more, k, n);
  }

  /** With the token set, a step can still start exactly when the guard has chosen it
      already and every output it takes from another step has been published.  Missing
      artifacts may still be ingested; a missing output stays missing. */
  lemma StartsAfterTokenIff(cfg: Config, start: State, actions: seq<Action>, s: State)
    requires Reached(cfg, start, actions, s) && s.token
    ensures s.phase.Chosen? ==> s.phase.key in Nodes(cfg)
    ensures CanStart(cfg, s) <==> s.phase.Chosen? && OutputsThere(cfg, s.work.fences, s.phase.key)
  {
    ReachedOk(cfg, start, actions, s);
    if s.phase.Chosen? {
      var k := s.phase.key;
      ChosenIsStartable(cfg, s, k);
      if OutputsThere(cfg, s.work.fences, k) {
        OutputsSuffice(cfg, s, k);
      } else {
        forall more | Run(cfg, s, more).Some?
          ensures Run(cfg, s, more).value.work.started == s.work.started
        {
          OutputsNeeded(cfg, s, k, more);
        }
      }
    } else {
      forall more | Run(cfg, s, more).Some?
        ensures Run(cfg, s, more).value.work.started == s.work.started
      {
        TokenRun(cfg, s, more);
      }
    }
  }
}
