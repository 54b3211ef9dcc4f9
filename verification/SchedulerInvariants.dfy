/** The invariant of the scheduler and its preservation by every action. */
module SchedulerInvariants {
  import opened Keys
  import opened Graph
  import opened Workflows
  import opened Publications
  import opened Runs
  import opened Scheduler
  import opened SchedulerWorkers

  // ------------------------------------------------- facts about the steps

  ghost function Nodes(cfg: Config): set<Key>
  {
    StepKeys(cfg.spec.steps)
  }

  ghost function StepOf(cfg: Config, k: Key): Step
    requires k in Nodes(cfg)
  {
    FindStep(cfg.spec.steps, k).value
  }

  ghost function Deps(cfg: Config, k: Key): set<Key>
    requires k in Nodes(cfg)
  {
    StepOf(cfg, k).Dependencies()
  }

  lemma StepOfUsable(cfg: Config, k: Key)
    requires WellFormed(cfg.spec) && k in Nodes(cfg)
    ensures StepUsable(StepOf(cfg, k)) && StepOf(cfg, k).key == k
  {
    var i :| 0 <= i < |cfg.spec.steps| && cfg.spec.steps[i] == StepOf(cfg, k);
    assert StepWellFormed(cfg.spec.steps[i]);
  }

  lemma StartableIff(cfg: Config, pending: set<Key>, completed: set<Key>, k: Key)
    requires WellFormed(cfg.spec) && pending <= Nodes(cfg)
    ensures k in Startable(cfg, pending, completed) <==> k in pending && Deps(cfg, k) <= completed
  {
    if k in pending { DependenciesArePredecessors(cfg.spec, k); }
  }

  /** With nothing in flight and nothing dropped, what is startable is exactly
      what is ready in the step graph. */
  lemma StartableIsReady(cfg: Config, pending: set<Key>, completed: set<Key>)
    requires WellFormed(cfg.spec) && pending <= Nodes(cfg) && completed == Nodes(cfg) - pending
    ensures Startable(cfg, pending, completed) == Ready(Nodes(cfg), SpecEdges(cfg.spec), completed)
  {
    forall k
      ensures k in Startable(cfg, pending, completed) <==> k in Ready(Nodes(cfg), SpecEdges(cfg.spec), completed)
    {
      StartableIff(cfg, pending, completed, k);
      if k in Nodes(cfg) { DependenciesArePredecessors(cfg.spec, k); }
    }
  }

  // ------------------------------------------------------ the work invariant

  ghost predicate Partition(nodes: set<Key>, limit: nat, pending: set<Key>, inFlight: set<Key>, completed: set<Key>,
                            busy: set<Key>)
  {
    && pending <= nodes && inFlight <= nodes && completed <= nodes
    && pending !! inFlight && pending !! completed && inFlight !! completed
    && busy == inFlight
    && |inFlight| <= limit
  }

  ghost predicate Partitioned(cfg: Config, w: Work)
  {
    Partition(Nodes(cfg), cfg.spec.maxConcurrency, w.pending, w.inFlight, w.completed, w.workers.Keys)
  }

  ghost predicate NothingDropped(cfg: Config, w: Work)
  {
    w.pending + w.inFlight + w.completed == Nodes(cfg)
  }

  /** Every step that is no longer pending was started, once. */
  ghost predicate StartedOnce(nodes: set<Key>, pending: set<Key>, started: seq<Key>, known: set<Key>)
  {
    && NoDuplicates(started)
    && Elements(started) == nodes - pending
    && known == nodes - pending
  }

  /** A step starts when all it depends on has completed. */
  ghost predicate DepsDone(cfg: Config, pending: set<Key>, completed: set<Key>)
  {
    forall k :: k in Nodes(cfg) && k !in pending ==> Deps(cfg, k) <= completed
  }

  /** Dependencies are started before their dependents. */
  ghost predicate InOrder(cfg: Config, started: seq<Key>)
  {
    forall i :: 0 <= i < |started| ==> started[i] in Nodes(cfg) && Deps(cfg, started[i]) <= Elements(started[..i])
  }

  ghost function ResultAt(w: Work, k: Key): Option<StepResult>
  {
    if k in w.steps then Some(w.steps[k]) else None
  }

  ghost predicate KeyOk(cfg: Config, w: Work, k: Key)
    requires k in Nodes(cfg)
  {
    && (k in w.pending ==> k !in w.steps && (cfg.workflow, k) !in w.fences)
    && (k in w.workers ==> LocalOk(cfg.workflow, StepOf(cfg, k), LocalOf(w, k)))
    && (k in w.completed ==> PublishedOk(cfg.workflow, k, ResultAt(w, k), EntryAt(w.fences, (cfg.workflow, k))))
    && ResultOk(StepOf(cfg, k), ResultAt(w, k), w.runs)
  }

  ghost predicate KeysOk(cfg: Config, w: Work)
  {
    forall k :: k in Nodes(cfg) ==> KeyOk(cfg, w, k)
  }

  /** A step reads a data-flow input from the authoritative publication of a
      completed step. */
  ghost predicate InputOk(workflow: WorkflowId, fences: Entries, completed: set<Key>, source: InputSource, n: string,
                          resolved: map<string, ArtifactId>)
  {
    source.FromStep? ==>
      var published := Authoritative(fences, workflow, source.key);
      && source.key in completed
      && published.Some? && source.output in published.value.outputs
      && n in resolved && resolved[n] == published.value.outputs[source.output]
  }

  ghost predicate InputsOfOk(workflow: WorkflowId, fences: Entries, completed: set<Key>,
                             inputs: map<string, InputSource>, resolved: map<string, ArtifactId>)
  {
    forall n :: n in inputs ==> InputOk(workflow, fences, completed, inputs[n], n, resolved)
  }

  ghost predicate InputsOk(cfg: Config, fences: Entries, completed: set<Key>,
                           resolved: map<Key, map<string, ArtifactId>>)
  {
    forall k :: k in resolved ==>
      k in Nodes(cfg) && InputsOfOk(cfg.workflow, fences, completed, StepOf(cfg, k).inputs, resolved[k])
  }

  ghost predicate WorkOk(cfg: Config, w: Work)
  {
    && Partitioned(cfg, w)
    && StartedOnce(Nodes(cfg), w.pending, w.started, w.resolved.Keys)
    && DepsDone(cfg, w.pending, w.completed)
    && InOrder(cfg, w.started)
    && KeysOk(cfg, w)
    && InputsOk(cfg, w.fences, w.completed, w.resolved)
  }

  lemma UntouchedOk(cfg: Config, w: Work)
    requires Untouched(cfg, w)
    ensures WorkOk(cfg, w) && NothingDropped(cfg, w)
  {
    assert Elements(w.started) == {};
    assert Nodes(cfg) - w.pending == {};
    forall k | k in Nodes(cfg)
      ensures KeyOk(cfg, w, k)
    {
      assert (cfg.workflow, k) !in w.fences;
    }
  }

  // ------------------------------------------------------------ worker steps

  lemma InstallKeyOk(cfg: Config, w: Work, j: Key, l: Local, k: Key)
    requires j in w.workers && j !in w.pending && j !in w.completed && k in Nodes(cfg) && KeyOk(cfg, w, k)
    requires j == k ==> LocalOk(cfg.workflow, StepOf(cfg, k), l)
    requires OnlySlot(w.fences, l.fences, (cfg.workflow, j)) && w.runs <= l.runs
    requires j in w.steps ==> l.result.Some?
    ensures KeyOk(cfg, Install(w, j, l), k)
  {
    var w' := Install(w, j, l);
    if k == j {
      assert LocalOf(w', j) == l;
      assert ResultAt(w', j) == l.result;
    } else {
      assert EntryAt(w.fences, (cfg.workflow, k)) == EntryAt(w'.fences, (cfg.workflow, k));
      assert ResultAt(w', k) == ResultAt(w, k);
      if k in w.workers { LocalFrame(cfg, StepOf(cfg, k), LocalOf(w, k), LocalOf(w', k)); }
    }
  }

  lemma LocalFrame(cfg: Config, step: Step, a: Local, b: Local)
    requires LocalOk(cfg.workflow, step, a)
    requires a.worker == b.worker && a.result == b.result && a.runs <= b.runs
    requires EntryAt(a.fences, (cfg.workflow, step.key)) == EntryAt(b.fences, (cfg.workflow, step.key))
    ensures LocalOk(cfg.workflow, step, b)
  {
  }

  /** Publications of completed steps do not change any more. */
  lemma InputsFrame(cfg: Config, before: Entries, after: Entries, completed: set<Key>,
                    resolved: map<Key, map<string, ArtifactId>>)
    requires InputsOk(cfg, before, completed, resolved)
    requires forall d :: d in completed ==>
      Authoritative(before, cfg.workflow, d) == Authoritative(after, cfg.workflow, d)
    ensures InputsOk(cfg, after, completed, resolved)
  {
    forall k | k in resolved
      ensures InputsOfOk(cfg.workflow, after, completed, StepOf(cfg, k).inputs, resolved[k])
    {
      var inputs := StepOf(cfg, k).inputs;
      assert InputsOfOk(cfg.workflow, before, completed, inputs, resolved[k]);
      forall n | n in inputs
        ensures InputOk(cfg.workflow, after, completed, inputs[n], n, resolved[k])
      {
        assert InputOk(cfg.workflow, before, completed, inputs[n], n, resolved[k]);
      }
    }
  }

  lemma SlotFrame(cfg: Config, before: Entries, after: Entries, completed: set<Key>, j: Key)
    requires OnlySlot(before, after, (cfg.workflow, j)) && j !in completed
    ensures forall d :: d in completed ==>
      Authoritative(before, cfg.workflow, d) == Authoritative(after, cfg.workflow, d)
  {
    forall d | d in completed
      ensures Authoritative(before, cfg.workflow, d) == Authoritative(after, cfg.workflow, d)
    {
      assert EntryAt(before, (cfg.workflow, d)) == EntryAt(after, (cfg.workflow, d));
    }
  }

  lemma InstallKeysOk(cfg: Config, w: Work, j: Key, l: Local)
    requires KeysOk(cfg, w) && j in w.workers && j in Nodes(cfg) && j !in w.pending && j !in w.completed
    requires LocalOk(cfg.workflow, StepOf(cfg, j), l)
    requires OnlySlot(w.fences, l.fences, (cfg.workflow, j)) && w.runs <= l.runs
    requires j in w.steps ==> l.result.Some?
    ensures KeysOk(cfg, Install(w, j, l))
  {
    forall k | k in Nodes(cfg)
      ensures KeyOk(cfg, Install(w, j, l), k)
    {
      InstallKeyOk(cfg, w, j, l, k);
    }
  }

  lemma InstallInputsOk(cfg: Config, w: Work, j: Key, l: Local)
    requires InputsOk(cfg, w.fences, w.completed, w.resolved) && j !in w.completed
    requires OnlySlot(w.fences, l.fences, (cfg.workflow, j))
    ensures InputsOk(cfg, l.fences, w.completed, w.resolved)
  {
    SlotFrame(cfg, w.fences, l.fences, w.completed, j);
    InputsFrame(cfg, w.fences, l.fences, w.completed, w.resolved);
  }

  lemma InstallPartitioned(cfg: Config, w: Work, j: Key, l: Local)
    requires Partitioned(cfg, w) && j in w.workers
    ensures Partitioned(cfg, Install(w, j, l)) && j in Nodes(cfg) && j !in w.pending && j !in w.completed
  {
    assert Install(w, j, l).workers.Keys == w.workers.Keys;
  }

  lemma WorkerAdvances(cfg: Config, w: Work, token: bool, intent: bool, j: Key, input: WorkerInput)
    requires WellFormed(cfg.spec) && j in w.workers && j in Nodes(cfg) && KeyOk(cfg, w, j)
    requires WorkerStep(cfg, StepOf(cfg, j), token, intent, LocalOf(w, j), input).Some?
    ensures
      var l := WorkerStep(cfg, StepOf(cfg, j), token, intent, LocalOf(w, j), input).value;
      && LocalOk(cfg.workflow, StepOf(cfg, j), l)
      && OnlySlot(w.fences, l.fences, (cfg.workflow, j)) && w.runs <= l.runs
      && (j in w.steps ==> l.result.Some?)
  {
    StepOfUsable(cfg, j);
    WorkerStepOk(cfg, StepOf(cfg, j), token, intent, LocalOf(w, j), input);
    WorkerStepFrame(cfg, StepOf(cfg, j), token, intent, LocalOf(w, j), input);
  }

  lemma WorkPreserved(cfg: Config, s: State, j: Key, input: WorkerInput)
    requires WellFormed(cfg.spec) && WorkOk(cfg, s.work)
    requires WorkStep(cfg, s, j, input).Some?
    ensures WorkOk(cfg, WorkStep(cfg, s, j, input).value.work)
  {
    var w := s.work;
    var l := WorkerStep(cfg, StepOf(cfg, j), s.token, s.intent, LocalOf(w, j), input).value;
    InstallPartitioned(cfg, w, j, l);
    WorkerAdvances(cfg, w, s.token, s.intent, j, input);
    InstallKeysOk(cfg, w, j, l);
    InstallInputsOk(cfg, w, j, l);
  }

  // -------------------------------------------------------- other workflows

  lemma OtherWorkflowOk(cfg: Config, w: Work, slot: Slot, entry: Entry)
    requires WorkOk(cfg, w) && slot.0 != cfg.workflow
    ensures WorkOk(cfg, w.(fences := w.fences[slot := entry]))
  {
    var w' := w.(fences := w.fences[slot := entry]);
    forall k | k in Nodes(cfg)
      ensures KeyOk(cfg, w', k)
    {
      assert KeyOk(cfg, w, k);
      if k in w.workers { OtherLocalOk(cfg, StepOf(cfg, k), LocalOf(w, k), slot, entry); }
    }
    InputsFrame(cfg, w.fences, w'.fences, w.completed, w.resolved);
  }

  lemma OtherLocalOk(cfg: Config, step: Step, l: Local, slot: Slot, entry: Entry)
    requires LocalOk(cfg.workflow, step, l) && slot.0 != cfg.workflow
    ensures LocalOk(cfg.workflow, step, l.(fences := l.fences[slot := entry]))
  {
  }

  // --------------------------------------------------------- starting a step

  /** What a startable step reads is published: its dependencies completed. */
  lemma SourcesPublished(cfg: Config, w: Work, k: Key, n: string)
    requires KeysOk(cfg, w) && w.completed <= Nodes(cfg)
    requires k in Nodes(cfg) && Deps(cfg, k) <= w.completed
    requires n in StepOf(cfg, k).inputs && StepOf(cfg, k).inputs[n].FromStep?
    ensures StepOf(cfg, k).inputs[n].key in w.completed
    ensures Authoritative(w.fences, cfg.workflow, StepOf(cfg, k).inputs[n].key).Some?
  {
    var d := StepOf(cfg, k).inputs[n].key;
    assert d in Deps(cfg, k);
    assert KeyOk(cfg, w, d);
  }

  lemma ResolvedFromPublications(cfg: Config, w: Work, artifacts: set<ArtifactId>, k: Key)
    requires KeysOk(cfg, w) && w.completed <= Nodes(cfg)
    requires k in Nodes(cfg) && Deps(cfg, k) <= w.completed
    ensures
      var r := ResolveInputs(cfg.workflow, w.fences, artifacts, StepOf(cfg, k).inputs);
      && (r.Err? ==> r.error.1 != NoPublication)
      && (r.Ok? ==> forall n :: n in StepOf(cfg, k).inputs ==>
            n in r.value
              && ResolveSource(cfg.workflow, w.fences, artifacts, StepOf(cfg, k).inputs[n]) == Ok(r.value[n]))
  {
    var inputs := StepOf(cfg, k).inputs;
    var bad := Unresolved(cfg.workflow, w.fences, artifacts, inputs);
    if bad != {} {
      var n := Least(bad);
      if inputs[n].FromStep? { SourcesPublished(cfg, w, k, n); }
    } else {
      assert forall n :: n in inputs ==> n !in bad;
    }
  }

  lemma StartKeyOk(cfg: Config, w: Work, k: Key, resolved: map<string, ArtifactId>, x: Key)
    requires k in w.pending && k !in w.workers && k !in w.completed
    requires x in Nodes(cfg) && k in Nodes(cfg) && KeyOk(cfg, w, x)
    requires StepUsable(StepOf(cfg, k)) && StepOf(cfg, k).key == k
    ensures KeyOk(cfg, StartStep(w, k, resolved), x)
  {
    var w' := StartStep(w, k, resolved);
    if x == k {
      assert LocalOf(w', k) == Local(Worker(Checking, 1), None, w.fences, w.runs);
      FreshLocalOk(cfg, StepOf(cfg, k), LocalOf(w', k));
    } else if x in w.workers {
      assert LocalOf(w', x) == LocalOf(w, x);
    }
  }

  lemma FreshLocalOk(cfg: Config, step: Step, l: Local)
    requires StepUsable(step) && (cfg.workflow, step.key) !in l.fences
    requires l.worker == Worker(Checking, 1) && l.result == None
    ensures LocalOk(cfg.workflow, step, l)
  {
  }

  lemma StartInputsOk(cfg: Config, w: Work, artifacts: set<ArtifactId>, k: Key, resolved: map<string, ArtifactId>)
    requires KeysOk(cfg, w) && w.completed <= Nodes(cfg)
    requires k in Nodes(cfg) && Deps(cfg, k) <= w.completed
    requires ResolveInputs(cfg.workflow, w.fences, artifacts, StepOf(cfg, k).inputs) == Ok(resolved)
    ensures InputsOfOk(cfg.workflow, w.fences, w.completed, StepOf(cfg, k).inputs, resolved)
  {
    var inputs := StepOf(cfg, k).inputs;
    ResolvedFromPublications(cfg, w, artifacts, k);
    forall n | n in inputs
      ensures InputOk(cfg.workflow, w.fences, w.completed, inputs[n], n, resolved)
    {
      if inputs[n].FromStep? { SourcesPublished(cfg, w, k, n); }
    }
  }

  lemma StartedOnceGrows(nodes: set<Key>, pending: set<Key>, started: seq<Key>, known: set<Key>, k: Key)
    requires StartedOnce(nodes, pending, started, known) && k in pending && pending <= nodes
    ensures StartedOnce(nodes, pending - {k}, started + [k], known + {k})
  {
    ElementsAppend(started, [k]);
    assert Elements([k]) == {k};
    assert k !in Elements(started);
    AppendFresh(started, k);
  }

  lemma AppendFresh(xs: seq<Key>, x: Key)
    requires NoDuplicates(xs) && x !in Elements(xs)
    ensures NoDuplicates(xs + [x])
  {
    var ys := xs + [x];
    forall i, j | 0 <= i < j < |ys|
      ensures ys[i] != ys[j]
    {
      assert xs[i] in Elements(xs);
    }
  }

  lemma StartDepsDone(cfg: Config, pending: set<Key>, completed: set<Key>, k: Key)
    requires DepsDone(cfg, pending, completed) && k in Nodes(cfg) && Deps(cfg, k) <= completed
    ensures DepsDone(cfg, pending - {k}, completed)
  {
  }

  lemma StartInOrder(cfg: Config, started: seq<Key>, k: Key)
    requires InOrder(cfg, started) && k in Nodes(cfg) && Deps(cfg, k) <= Elements(started)
    ensures InOrder(cfg, started + [k])
  {
    var more := started + [k];
    forall i | 0 <= i < |more|
      ensures more[i] in Nodes(cfg) && Deps(cfg, more[i]) <= Elements(more[..i])
    {
      assert more[..i] == if i < |started| then started[..i] else started;
    }
  }

  lemma StartPartition(nodes: set<Key>, limit: nat, pending: set<Key>, inFlight: set<Key>, completed: set<Key>,
                       busy: set<Key>, k: Key)
    requires Partition(nodes, limit, pending, inFlight, completed, busy) && k in pending && |inFlight| < limit
    ensures Partition(nodes, limit, pending - {k}, inFlight + {k}, completed, busy + {k})
  {
  }

  lemma InputsGrow(cfg: Config, fences: Entries, completed: set<Key>, resolved: map<Key, map<string, ArtifactId>>,
                   k: Key, m: map<string, ArtifactId>)
    requires InputsOk(cfg, fences, completed, resolved)
    requires k in Nodes(cfg) && InputsOfOk(cfg.workflow, fences, completed, StepOf(cfg, k).inputs, m)
    ensures InputsOk(cfg, fences, completed, resolved[k := m])
  {
  }

  lemma StartKeysOk(cfg: Config, w: Work, k: Key, resolved: map<string, ArtifactId>)
    requires KeysOk(cfg, w) && k in w.pending && k !in w.workers && k !in w.completed && k in Nodes(cfg)
    requires StepUsable(StepOf(cfg, k)) && StepOf(cfg, k).key == k
    ensures KeysOk(cfg, StartStep(w, k, resolved))
  {
    forall x | x in Nodes(cfg)
      ensures KeyOk(cfg, StartStep(w, k, resolved), x)
    {
      StartKeyOk(cfg, w, k, resolved, x);
    }
  }

  lemma KeysAfterUpdate<V>(m: map<Key, V>, k: Key, v: V)
    ensures m[k := v].Keys == m.Keys + {k}
  {
  }

  lemma StartPartitioned(cfg: Config, w: Work, k: Key, resolved: map<string, ArtifactId>)
    requires Partitioned(cfg, w) && k in w.pending && |w.inFlight| < cfg.spec.maxConcurrency
    ensures Partitioned(cfg, StartStep(w, k, resolved))
  {
    StartPartition(Nodes(cfg), cfg.spec.maxConcurrency, w.pending, w.inFlight, w.completed, w.workers.Keys, k);
    KeysAfterUpdate(w.workers, k, Worker(Checking, 1));
  }

  lemma StartStarted(nodes: set<Key>, w: Work, k: Key, resolved: map<string, ArtifactId>)
    requires StartedOnce(nodes, w.pending, w.started, w.resolved.Keys) && k in w.pending && w.pending <= nodes
    ensures var w' := StartStep(w, k, resolved); StartedOnce(nodes, w'.pending, w'.started, w'.resolved.Keys)
  {
    StartedOnceGrows(nodes, w.pending, w.started, w.resolved.Keys, k);
    KeysAfterUpdate(w.resolved, k, resolved);
  }

  lemma StartOk(cfg: Config, w: Work, artifacts: set<ArtifactId>, k: Key, resolved: map<string, ArtifactId>)
    requires WorkOk(cfg, w) && k in w.pending && Deps(cfg, k) <= w.completed
    requires StepUsable(StepOf(cfg, k)) && StepOf(cfg, k).key == k
    requires |w.inFlight| < cfg.spec.maxConcurrency
    requires ResolveInputs(cfg.workflow, w.fences, artifacts, StepOf(cfg, k).inputs) == Ok(resolved)
    ensures WorkOk(cfg, StartStep(w, k, resolved))
  {
    StartPartitioned(cfg, w, k, resolved);
    StartStarted(Nodes(cfg), w, k, resolved);
    StartDepsDone(cfg, w.pending, w.completed, k);
    StartInOrder(cfg, w.started, k);
    StartInputsOk(cfg, w, artifacts, k, resolved);
    InputsGrow(cfg, w.fences, w.completed, w.resolved, k, resolved);
    StartKeysOk(cfg, w, k, resolved);
  }

  // -------------------------------------------------------- collecting a step

  lemma CollectKeyOk(cfg: Config, w: Work, j: Key, x: Key)
    requires j in w.workers && w.workers[j].pc.Done? && j in Nodes(cfg) && StepOf(cfg, j).key == j
    requires x in Nodes(cfg) && KeyOk(cfg, w, x) && KeyOk(cfg, w, j)
    ensures KeyOk(cfg, CollectStep(w, j, w.workers[j].pc.terminal.StepSucceeded?), x)
  {
    var w' := CollectStep(w, j, w.workers[j].pc.terminal.StepSucceeded?);
    if x != j && x in w.workers {
      assert LocalOf(w', x) == LocalOf(w, x);
    }
  }

  lemma CollectPartition(nodes: set<Key>, limit: nat, pending: set<Key>, inFlight: set<Key>, completed: set<Key>,
                         busy: set<Key>, j: Key, success: bool)
    requires Partition(nodes, limit, pending, inFlight, completed, busy) && j in inFlight
    ensures Partition(nodes, limit, pending, inFlight - {j}, if success then completed + {j} else completed, busy - {j})
  {
  }

  lemma InputsMoreCompleted(cfg: Config, fences: Entries, completed: set<Key>,
                            resolved: map<Key, map<string, ArtifactId>>, j: Key)
    requires InputsOk(cfg, fences, completed, resolved)
    ensures InputsOk(cfg, fences, completed + {j}, resolved)
  {
    forall k | k in resolved
      ensures InputsOfOk(cfg.workflow, fences, completed + {j}, StepOf(cfg, k).inputs, resolved[k])
    {
      var inputs := StepOf(cfg, k).inputs;
      assert InputsOfOk(cfg.workflow, fences, completed, inputs, resolved[k]);
      forall n | n in inputs
        ensures InputOk(cfg.workflow, fences, completed + {j}, inputs[n], n, resolved[k])
      {
        assert InputOk(cfg.workflow, fences, completed, inputs[n], n, resolved[k]);
      }
    }
  }

  lemma DepsMoreDone(cfg: Config, pending: set<Key>, completed: set<Key>, j: Key)
    requires DepsDone(cfg, pending, completed)
    ensures DepsDone(cfg, pending, completed + {j})
  {
  }

  lemma CollectOk(cfg: Config, w: Work, j: Key)
    requires WorkOk(cfg, w) && j in w.workers && w.workers[j].pc.Done? && StepOf(cfg, j).key == j
    ensures WorkOk(cfg, CollectStep(w, j, w.workers[j].pc.terminal.StepSucceeded?))
  {
    var success := w.workers[j].pc.terminal.StepSucceeded?;
    var w' := CollectStep(w, j, success);
    CollectPartition(Nodes(cfg), cfg.spec.maxConcurrency, w.pending, w.inFlight, w.completed, w.workers.Keys, j,
                     success);
    assert w'.workers.Keys == w.workers.Keys - {j};
    assert KeyOk(cfg, w, j);
    forall x | x in Nodes(cfg)
      ensures KeyOk(cfg, w', x)
    {
      CollectKeyOk(cfg, w, j, x);
    }
    InputsMoreCompleted(cfg, w.fences, w.completed, w.resolved, j);
    DepsMoreDone(cfg, w.pending, w.completed, j);
  }
}
