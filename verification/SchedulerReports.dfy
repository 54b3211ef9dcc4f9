/** What a worker reports and publishes, in terms of how its attempts ended. */
module SchedulerReports {
  import opened Keys
  import opened Workflows
  import opened Publications
  import opened Scheduler
  import opened SchedulerWorkers
  import opened SchedulerInvariants
  import opened SchedulerSafety
  import opened SchedulerTheorems

  type Produced = seq<(string, ArtifactId)>

  // ------------------------------------------------------- published outputs

  ghost predicate Duplicated(outs: Produced)
  {
    exists i, j :: 0 <= i < j < |outs| && outs[i].0 == outs[j].0
  }

  /** The map holds exactly the produced pairs. */
  ghost predicate Carries(outs: Produced, m: Outputs)
  {
    forall name, x :: name in m && m[name] == x <==> (name, x) in outs
  }

  /** Few enough outputs, all with proper labels. */
  ghost predicate Fitting(outs: Produced)
  {
    |outs| <= MAX_PUBLICATION_OUTPUTS && forall i :: 0 <= i < |outs| ==> OutputName(outs[i].0)
  }

  lemma DuplicatedSnoc(outs: Produced)
    requires outs != []
    ensures var n := |outs| - 1;
      Duplicated(outs) <==> Duplicated(outs[..n]) || exists i :: 0 <= i < n && outs[i].0 == outs[n].0
  {
    var n := |outs| - 1;
    if Duplicated(outs[..n]) {
      var i, j :| 0 <= i < j < n && outs[..n][i].0 == outs[..n][j].0;
      assert outs[i].0 == outs[j].0;
    }
    if Duplicated(outs) {
      var i, j :| 0 <= i < j < |outs| && outs[i].0 == outs[j].0;
      if j < n { assert outs[..n][i].0 == outs[..n][j].0; }
    }
  }

  lemma CarriesName(outs: Produced, m: Outputs, name: string)
    requires Carries(outs, m)
    ensures name in m <==> exists i :: 0 <= i < |outs| && outs[i].0 == name
  {
    if name in m {
      assert (name, m[name]) in outs;
    }
    if i :| 0 <= i < |outs| && outs[i].0 == name {
      assert outs[i] == (name, outs[i].1);
    }
  }

  lemma CarriesSnoc(outs: Produced, m: Outputs, name: string, x: ArtifactId)
    requires Carries(outs, m) && name !in m
    ensures Carries(outs + [(name, x)], m[name := x])
  {
    forall y, a
      ensures y in m[name := x] && m[name := x][y] == a <==> (y, a) in outs + [(name, x)]
    {
      assert y in m && m[y] == a <==> (y, a) in outs;
      assert (y, a) in outs + [(name, x)] <==> (y, a) in outs || (y, a) == (name, x);
    }
  }

  /** The output map exists exactly when no label occurs twice, and then holds
      exactly the produced pairs. */
  lemma {:induction false} OutputMapExact(outs: Produced)
    ensures OutputMap(outs).None? <==> Duplicated(outs)
    ensures OutputMap(outs).Some? ==> Carries(outs, OutputMap(outs).value) && |OutputMap(outs).value| == |outs|
    decreases |outs|
  {
    if outs != [] {
      var n := |outs| - 1;
      var before := outs[..n];
      var (name, x) := outs[n];
      OutputMapExact(before);
      DuplicatedSnoc(outs);
      if OutputMap(before).Some? {
        CarriesName(before, OutputMap(before).value, name);
        if name !in OutputMap(before).value { CarriesSnoc(before, OutputMap(before).value, name, x); }
        assert outs == before + [(name, x)];
        assert name in OutputMap(before).value <==> exists i :: 0 <= i < n && outs[i].0 == name;
      }
    }
  }

  lemma FittingIff(outs: Produced, fence: Fence)
    requires fence.Valid() && OutputMap(outs).Some?
    ensures Publication(fence, OutputMap(outs).value).Valid() <==> Fitting(outs)
  {
    OutputMapExact(outs);
    var m := OutputMap(outs).value;
    forall i | 0 <= i < |outs|
      ensures outs[i].0 in m
    {
      CarriesName(outs, m, outs[i].0);
    }
    forall name | name in m
      ensures exists i :: 0 <= i < |outs| && outs[i].0 == name
    {
      CarriesName(outs, m, name);
    }
  }

  // --------------------------------------------------------- what is reported

  /** How the latest execution of the step ended. */
  ghost function LastEnd(actions: seq<Action>, k: Key): Option<RunEnd>
  {
    if actions == [] then None else
      var n := |actions| - 1;
      if actions[n].Work? && actions[n].key == k && actions[n].input.Execute? then Some(actions[n].input.end)
      else LastEnd(actions[..n], k)
  }

  /** The policy, if there is one, asks for another attempt after this failure. */
  predicate MustRetry(step: Step, number: nat, category: FailureCategory)
  {
    step.retry.Some? && number < step.retry.value.maxAttempts && category in step.retry.value.retryOn
  }

  ghost predicate PublishedAs(outs: Produced, entry: Option<Entry>)
  {
    && !Duplicated(outs) && Fitting(outs)
    && entry.Some? && entry.value.publication.Some? && Carries(outs, entry.value.publication.value.outputs)
  }

  /** What a report says about the attempt that led to it. */
  ghost predicate ReportOk(step: Step, number: nat, asked: bool, t: Terminal, last: Option<RunEnd>,
                           entry: Option<Entry>)
  {
    match t
    case StepSucceeded => last.Some? && last.value.EndSucceeded? && PublishedAs(last.value.outputs, entry)
    case StepFailed(c) =>
      && c == AttemptFailed(step.key, number)
      && last.Some? && last.value.EndFailed? && !MustRetry(step, number, last.value.category)
    case StepCancelled(_) => asked || last == Some(EndCancelled)
    case StepError(c) =>
      && c.StepErrored? && c.step == step.key
      && match c.error
         case SubmitRefused => number > 1 ==> last.Some? && last.value.EndFailed?
         case FenceRefused(_) => false
         case RunErrored => last.Some? && last.value.EndErrored?
         case DuplicateOutput => last.Some? && last.value.EndSucceeded? && Duplicated(last.value.outputs)
         case PublishRefused(_) =>
           && last.Some? && last.value.EndSucceeded?
           && !Duplicated(last.value.outputs) && !Fitting(last.value.outputs)
  }

  ghost predicate PcTraced(step: Step, w: Worker, asked: bool, last: Option<RunEnd>, entry: Option<Entry>)
  {
    match w.pc
    case Finishing(_, _, end) => last == Some(end)
    case Deciding(_, end) => last == Some(end)
    case Publishing(_, outs) => last == Some(EndSucceeded(outs))
    case Done(t) => ReportOk(step, w.number, asked, t, last, entry)
    case Waiting => last.Some? && last.value.EndFailed?
    case Checking => w.number > 1 ==> last.Some? && last.value.EndFailed?
    case Submitting => w.number > 1 ==> last.Some? && last.value.EndFailed?
    case _ => true
  }

  lemma PublishTraced(cfg: Config, step: Step, token: bool, intent: bool, l: Local, last: Option<RunEnd>)
    requires LocalOk(cfg.workflow, step, l) && StepUsable(step) && l.worker.pc.Publishing?
    requires last == Some(EndSucceeded(l.worker.pc.outputs))
    ensures var l' := WorkerStep(cfg, step, token, intent, l, PublishOutputs).value;
      && l'.worker.pc.Done?
      && ReportOk(step, l'.worker.number, false, l'.worker.pc.terminal, last,
                  EntryAt(l'.fences, (cfg.workflow, step.key)))
  {
    var fence, outs := l.worker.pc.fence, l.worker.pc.outputs;
    OutputMapExact(outs);
    if OutputMap(outs).Some? {
      FittingIff(outs, fence);
      PublishExact(l.fences, Publication(fence, OutputMap(outs).value));
    }
  }

  lemma DecideTraced(cfg: Config, step: Step, token: bool, intent: bool, l: Local, last: Option<RunEnd>)
    requires LocalOk(cfg.workflow, step, l) && StepUsable(step) && l.worker.pc.Deciding?
    requires last == Some(l.worker.pc.end)
    ensures var l' := WorkerStep(cfg, step, token, intent, l, Decide).value;
      PcTraced(step, l'.worker, token || intent, last, EntryAt(l'.fences, (cfg.workflow, step.key)))
  {
  }

  lemma FenceTraced(cfg: Config, step: Step, token: bool, intent: bool, l: Local, last: Option<RunEnd>)
    requires LocalOk(cfg.workflow, step, l) && StepUsable(step) && l.worker.pc.Fencing?
    ensures WorkerStep(cfg, step, token, intent, l, TakeFence).value.worker.pc.Executing?
  {
    AdvanceExact(l.fences, cfg.workflow, step.key, l.worker.pc.attempt);
  }

  lemma WorkerTraced(cfg: Config, step: Step, token: bool, intent: bool, l: Local, input: WorkerInput,
                     last: Option<RunEnd>)
    requires LocalOk(cfg.workflow, step, l) && StepUsable(step)
    requires WorkerStep(cfg, step, token, intent, l, input).Some?
    requires PcTraced(step, l.worker, token || intent, last, EntryAt(l.fences, (cfg.workflow, step.key)))
    ensures var l' := WorkerStep(cfg, step, token, intent, l, input).value;
      PcTraced(step, l'.worker, token || intent, if input.Execute? then Some(input.end) else last,
               EntryAt(l'.fences, (cfg.workflow, step.key)))
  {
    match input
    case Decide => DecideTraced(cfg, step, token, intent, l, last);
    case PublishOutputs => PublishTraced(cfg, step, token, intent, l, last);
    case TakeFence => FenceTraced(cfg, step, token, intent, l, last);
    case _ =>
  }

  ghost predicate KeyTraced(cfg: Config, s: State, k: Key, last: Option<RunEnd>)
    requires k in Nodes(cfg)
  {
    var entry := EntryAt(s.work.fences, (cfg.workflow, k));
    && (k in s.work.workers ==> PcTraced(StepOf(cfg, k), s.work.workers[k], s.token || s.intent, last, entry))
    && (k in s.work.completed ==> last.Some? && last.value.EndSucceeded? && PublishedAs(last.value.outputs, entry))
  }

  /** Nothing of the step changes, and nobody takes a request back. */
  ghost predicate SameKey(cfg: Config, s: State, t: State, k: Key)
  {
    && (k in t.work.workers ==> k in s.work.workers && t.work.workers[k] == s.work.workers[k])
    && (k in t.work.completed ==> k in s.work.completed)
    && EntryAt(t.work.fences, (cfg.workflow, k)) == EntryAt(s.work.fences, (cfg.workflow, k))
    && (s.token || s.intent ==> t.token || t.intent)
  }

  lemma SameKeyTraced(cfg: Config, s: State, t: State, k: Key, last: Option<RunEnd>)
    requires k in Nodes(cfg) && KeyTraced(cfg, s, k, last) && SameKey(cfg, s, t, k)
    ensures KeyTraced(cfg, t, k, last)
  {
  }

  lemma OwnWorkTraced(cfg: Config, s: State, input: WorkerInput, k: Key, last: Option<RunEnd>)
    requires k in Nodes(cfg) && k in s.work.workers && StepUsable(StepOf(cfg, k)) && StepOf(cfg, k).key == k
    requires LocalOk(cfg.workflow, StepOf(cfg, k), LocalOf(s.work, k)) && k !in s.work.completed
    requires KeyTraced(cfg, s, k, last) && WorkStep(cfg, s, k, input).Some?
    ensures KeyTraced(cfg, WorkStep(cfg, s, k, input).value, k, if input.Execute? then Some(input.end) else last)
  {
    WorkerTraced(cfg, StepOf(cfg, k), s.token, s.intent, LocalOf(s.work, k), input, last);
  }

  lemma OtherWorkSame(cfg: Config, s: State, j: Key, input: WorkerInput, k: Key)
    requires WellFormed(cfg.spec) && j in Nodes(cfg) && j in s.work.workers && KeyOk(cfg, s.work, j) && j != k
    requires WorkStep(cfg, s, j, input).Some?
    ensures SameKey(cfg, s, WorkStep(cfg, s, j, input).value, k)
  {
    WorkerAdvances(cfg, s.work, s.token, s.intent, j, input);
  }

  lemma WorkTraced(cfg: Config, s: State, j: Key, input: WorkerInput, k: Key, last: Option<RunEnd>)
    requires WellFormed(cfg.spec) && Partitioned(cfg, s.work) && KeysOk(cfg, s.work)
    requires k in Nodes(cfg) && KeyTraced(cfg, s, k, last) && WorkStep(cfg, s, j, input).Some?
    ensures KeyTraced(cfg, WorkStep(cfg, s, j, input).value, k,
                      if j == k && input.Execute? then Some(input.end) else last)
  {
    assert KeyOk(cfg, s.work, j);
    if j == k {
      StepOfUsable(cfg, k);
      OwnWorkTraced(cfg, s, input, k, last);
    } else {
      OtherWorkSame(cfg, s, j, input, k);
      SameKeyTraced(cfg, s, WorkStep(cfg, s, j, input).value, k, last);
    }
  }

  lemma SpawnTraced(cfg: Config, s: State, j: Key, k: Key, last: Option<RunEnd>)
    requires k in Nodes(cfg) && KeyTraced(cfg, s, k, last)
    ensures KeyTraced(cfg, SpawnStep(cfg, s, j), k, last)
  {
    SpawnHasEffect(cfg, s, j);
    TokenSpawn(cfg, s, j);
    SpawnAsks(cfg, s, j);
  }

  lemma SpawnAsks(cfg: Config, s: State, j: Key)
    ensures SpawnStep(cfg, s, j).intent == s.intent
  {
    var found := FindStep(cfg.spec.steps, j);
    if found.Some? {
      var inputs := ResolveInputs(cfg.workflow, s.work.fences, s.artifacts, found.value.inputs);
      if inputs.Err? { var (n, fault) := inputs.error; }
    }
  }

  lemma ReceiveSame(cfg: Config, s: State, j: Key, t: Terminal, k: Key)
    requires j != k || !t.StepSucceeded?
    ensures SameKey(cfg, s, ReceiveStep(s, j, t), k)
  {
  }

  lemma ReceiveSuccess(cfg: Config, s: State, k: Key, last: Option<RunEnd>)
    requires k in Nodes(cfg) && k in s.work.workers && s.work.workers[k].pc == Done(StepSucceeded)
    requires KeyTraced(cfg, s, k, last)
    ensures KeyTraced(cfg, ReceiveStep(s, k, StepSucceeded), k, last)
  {
  }

  lemma ReceiveTraced(cfg: Config, s: State, j: Key, k: Key, last: Option<RunEnd>)
    requires j in s.work.workers && s.work.workers[j].pc.Done? && k in Nodes(cfg) && KeyTraced(cfg, s, k, last)
    ensures KeyTraced(cfg, ReceiveStep(s, j, s.work.workers[j].pc.terminal), k, last)
  {
    var t := s.work.workers[j].pc.terminal;
    if j == k && t.StepSucceeded? {
      ReceiveSuccess(cfg, s, k, last);
    } else {
      ReceiveSame(cfg, s, j, t, k);
      SameKeyTraced(cfg, s, ReceiveStep(s, j, t), k, last);
    }
  }

  lemma LoopTraced(cfg: Config, s: State, a: Action, k: Key, last: Option<RunEnd>)
    requires IsLoop(a) && LoopNext(cfg, s, a).Some? && k in Nodes(cfg) && KeyTraced(cfg, s, k, last)
    ensures KeyTraced(cfg, LoopNext(cfg, s, a).value, k, last)
  {
    match a
    case Refresh => SameKeyTraced(cfg, s, LoopNext(cfg, s, a).value, k, last);
    case Launch => SameKeyTraced(cfg, s, LoopNext(cfg, s, a).value, k, last);
    case Spawn => SpawnTraced(cfg, s, s.phase.key, k, last);
    case Settle => SameKeyTraced(cfg, s, LoopNext(cfg, s, a).value, k, last);
    case Receive(j) => ReceiveTraced(cfg, s, j, k, last);
    case Conclude => SameKeyTraced(cfg, s, LoopNext(cfg, s, a).value, k, last);
  }

  lemma EdgeSameKey(cfg: Config, s: State, a: Action, k: Key)
    requires IsEdge(a) && EdgeNext(s, a).Some?
    ensures SameKey(cfg, s, EdgeNext(s, a).value, k)
  {
  }

  lemma OthersSameKey(cfg: Config, s: State, a: Action, k: Key)
    requires !IsSystem(a) && OthersNext(cfg, s, a).Some?
    ensures SameKey(cfg, s, OthersNext(cfg, s, a).value, k)
  {
  }

  lemma NextTraced(cfg: Config, s: State, a: Action, k: Key, last: Option<RunEnd>)
    requires WellFormed(cfg.spec) && Partitioned(cfg, s.work) && KeysOk(cfg, s.work) && Next(cfg, s, a).Some?
    requires k in Nodes(cfg) && KeyTraced(cfg, s, k, last)
    ensures KeyTraced(cfg, Next(cfg, s, a).value, k,
                      if a.Work? && a.key == k && a.input.Execute? then Some(a.input.end) else last)
  {
    if a.Work? {
      WorkTraced(cfg, s, a.key, a.input, k, last);
    } else if IsLoop(a) {
      LoopTraced(cfg, s, a, k, last);
    } else if IsSystem(a) {
      EdgeSameKey(cfg, s, a, k);
      SameKeyTraced(cfg, s, EdgeNext(s, a).value, k, last);
    } else {
      OthersSameKey(cfg, s, a, k);
      SameKeyTraced(cfg, s, OthersNext(cfg, s, a).value, k, last);
    }
  }

  lemma {:induction false} ReachedTrace(cfg: Config, start: State, actions: seq<Action>, s: State, k: Key)
    requires Reached(cfg, start, actions, s) && k in Nodes(cfg)
    ensures KeyTraced(cfg, s, k, LastEnd(actions, k))
    decreases |actions|
  {
    if actions != [] {
      var n := |actions| - 1;
      var before := Run(cfg, start, actions[..n]).value;
      ReachedTrace(cfg, start, actions[..n], before, k);
      ReachedKeys(cfg, start, actions[..n], before);
      NextTraced(cfg, before, actions[n], k, LastEnd(actions[..n], k));
    }
  }

  /** A completed step's latest execution succeeded, without a label twice, and its
      authoritative publication holds exactly what that execution produced. */
  lemma PublicationIsExact(cfg: Config, start: State, actions: seq<Action>, s: State, k: Key)
    requires Reached(cfg, start, actions, s) && k in s.work.completed
    ensures var end, p := LastEnd(actions, k), Authoritative(s.work.fences, cfg.workflow, k);
      && end.Some? && end.value.EndSucceeded? && p.Some?
      && (forall name, x :: name in p.value.outputs && p.value.outputs[name] == x <==> (name, x) in end.value.outputs)
      && (forall i, j :: 0 <= i < j < |end.value.outputs| ==> end.value.outputs[i].0 != end.value.outputs[j].0)
  {
    ReachedKeys(cfg, start, actions, s);
    ReachedTrace(cfg, start, actions, s, k);
  }

  lemma TracedReport(cfg: Config, s: State, k: Key, last: Option<RunEnd>)
    requires k in Nodes(cfg) && KeyTraced(cfg, s, k, last) && k in s.work.workers && s.work.workers[k].pc.Done?
    ensures ReportOk(StepOf(cfg, k), s.work.workers[k].number, s.token || s.intent, s.work.workers[k].pc.terminal,
                     last, EntryAt(s.work.fences, (cfg.workflow, k)))
  {
  }

  lemma WorkerIsStep(cfg: Config, start: State, actions: seq<Action>, s: State, k: Key)
    requires Reached(cfg, start, actions, s) && k in s.work.workers
    ensures k in Nodes(cfg)
  {
    ReachedKeys(cfg, start, actions, s);
  }

  /** Every report of a worker follows from how its latest execution ended.  It is a
      success exactly when what the execution produced is published; a failure only
      of an attempt that the policy does not retry; a cancellation only when somebody
      asked or the execution was cancelled; duplicate labels exactly when there are. */
  lemma ReportIsExact(cfg: Config, start: State, actions: seq<Action>, s: State, k: Key)
    requires Reached(cfg, start, actions, s) && k in s.work.workers && s.work.workers[k].pc.Done?
    ensures k in Nodes(cfg)
    ensures ReportOk(StepOf(cfg, k), s.work.workers[k].number, s.token || s.intent, s.work.workers[k].pc.terminal,
                     LastEnd(actions, k), EntryAt(s.work.fences, (cfg.workflow, k)))
  {
    WorkerIsStep(cfg, start, actions, s, k);
    ReachedTrace(cfg, start, actions, s, k);
    TracedReport(cfg, s, k, LastEnd(actions, k));
  }

  // ------------------------------------------------------------- given inputs

  /** Every input is there, and an artifact that is named is that artifact, stored. */
  ghost predicate GivenTo(inputs: map<string, InputSource>, given: map<string, ArtifactId>, artifacts: set<ArtifactId>)
  {
    && given.Keys == inputs.Keys
    && forall n :: n in inputs && inputs[n].Artifact? ==>
         given[n] == inputs[n].artifact && inputs[n].artifact in artifacts
  }

  ghost predicate AllGiven(cfg: Config, resolved: map<Key, map<string, ArtifactId>>, artifacts: set<ArtifactId>)
  {
    forall k :: k in resolved ==> k in Nodes(cfg) && GivenTo(StepOf(cfg, k).inputs, resolved[k], artifacts)
  }

  lemma ResolvedAreGiven(cfg: Config, fences: Entries, artifacts: set<ArtifactId>, inputs: map<string, InputSource>)
    requires ResolveInputs(cfg.workflow, fences, artifacts, inputs).Ok?
    ensures GivenTo(inputs, ResolveInputs(cfg.workflow, fences, artifacts, inputs).value, artifacts)
  {
    var bad := Unresolved(cfg.workflow, fences, artifacts, inputs);
    forall n | n in inputs
      ensures ResolveSource(cfg.workflow, fences, artifacts, inputs[n]).Ok?
    {
      assert n !in bad;
    }
  }

  lemma SpawnGiven(cfg: Config, s: State, k: Key)
    requires k in Nodes(cfg) && AllGiven(cfg, s.work.resolved, s.artifacts)
    ensures AllGiven(cfg, SpawnStep(cfg, s, k).work.resolved, SpawnStep(cfg, s, k).artifacts)
  {
    if SpawnStep(cfg, s, k).phase == Launching {
      var given := SpawnStarts(cfg, s, k);
      ResolvedAreGiven(cfg, s.work.fences, s.artifacts, StepOf(cfg, k).inputs);
    } else {
      var n, fault := SpawnFails(cfg, s, k);
    }
  }

  lemma LoopKeepsGiven(cfg: Config, s: State, a: Action)
    requires IsLoop(a) && !a.Spawn? && LoopNext(cfg, s, a).Some?
    ensures LoopNext(cfg, s, a).value.work.resolved == s.work.resolved
    ensures LoopNext(cfg, s, a).value.artifacts == s.artifacts
  {
    match a
    case Refresh =>
    case Launch => LaunchKeepsGiven(cfg, s);
    case Settle =>
    case Conclude =>
    case Receive(k) => ReceiveKeepsGiven(s, k, s.work.workers[k].pc.terminal);
  }

  lemma ReceiveKeepsGiven(s: State, k: Key, t: Terminal)
    ensures ReceiveStep(s, k, t).work.resolved == s.work.resolved && ReceiveStep(s, k, t).artifacts == s.artifacts
  {
  }

  lemma LaunchKeepsGiven(cfg: Config, s: State)
    ensures LaunchStep(cfg, s) == s.(phase := LaunchStep(cfg, s).phase)
  {
  }

  lemma NextKeepsGiven(cfg: Config, s: State, a: Action)
    requires Next(cfg, s, a).Some? && !a.Spawn?
    ensures Next(cfg, s, a).value.work.resolved == s.work.resolved && s.artifacts <= Next(cfg, s, a).value.artifacts
  {
    if IsLoop(a) { LoopKeepsGiven(cfg, s, a); }
  }

  lemma NextGiven(cfg: Config, s: State, a: Action)
    requires Next(cfg, s, a).Some? && (s.phase.Chosen? ==> s.phase.key in Nodes(cfg))
    requires AllGiven(cfg, s.work.resolved, s.artifacts)
    ensures AllGiven(cfg, Next(cfg, s, a).value.work.resolved, Next(cfg, s, a).value.artifacts)
  {
    if a.Spawn? {
      SpawnGiven(cfg, s, s.phase.key);
    } else {
      NextKeepsGiven(cfg, s, a);
    }
  }

  lemma ChosenIsStep(cfg: Config, start: State, actions: seq<Action>, s: State)
    requires Reached(cfg, start, actions, s) && s.phase.Chosen?
    ensures s.phase.key in Nodes(cfg)
  {
    ReachedOk(cfg, start, actions, s);
    ChosenIsStartable(cfg, s, s.phase.key);
  }

  lemma {:induction false} ReachedGiven(cfg: Config, start: State, actions: seq<Action>, s: State)
    requires Reached(cfg, start, actions, s)
    ensures AllGiven(cfg, s.work.resolved, s.artifacts)
    decreases |actions|
  {
    if actions != [] {
      var n := |actions| - 1;
      var before := Run(cfg, start, actions[..n]).value;
      ReachedGiven(cfg, start, actions[..n], before);
      if before.phase.Chosen? { ChosenIsStep(cfg, start, actions[..n], before); }
      NextGiven(cfg, before, actions[n]);
    }
  }

  /** A started step was given every input it declares and nothing else, and each
      artifact it names as it is, which is stored. */
  lemma StartedWithItsInputs(cfg: Config, start: State, actions: seq<Action>, s: State, k: Key)
    requires Reached(cfg, start, actions, s) && k in Elements(s.work.started)
    ensures k in Nodes(cfg) && k in s.work.resolved
    ensures GivenTo(StepOf(cfg, k).inputs, s.work.resolved[k], s.artifacts)
  {
    StartedIsResolved(cfg, start, actions, s, k);
    ReachedGiven(cfg, start, actions, s);
  }

  lemma StartedIsResolved(cfg: Config, start: State, actions: seq<Action>, s: State, k: Key)
    requires Reached(cfg, start, actions, s) && k in Elements(s.work.started)
    ensures k in s.work.resolved
  {
    ReachedOk(cfg, start, actions, s);
    assert k in s.work.resolved.Keys;
  }

  /** A fault is reported for an input that really cannot be had: the artifact is not
      stored, or the publication of the step it names lacks the output; and every
      input with a smaller name can. */
  lemma FaultIsReal(cfg: Config, fences: Entries, artifacts: set<ArtifactId>, inputs: map<string, InputSource>)
    requires ResolveInputs(cfg.workflow, fences, artifacts, inputs).Err?
    ensures var (n, fault) := ResolveInputs(cfg.workflow, fences, artifacts, inputs).error;
      && n in inputs
      && (match fault
          case ArtifactMissing => inputs[n].Artifact? && inputs[n].artifact !in artifacts
          case NoPublication => inputs[n].FromStep? && Authoritative(fences, cfg.workflow, inputs[n].key).None?
          case NoSuchOutput =>
            && inputs[n].FromStep? && Authoritative(fences, cfg.workflow, inputs[n].key).Some?
            && inputs[n].output !in Authoritative(fences, cfg.workflow, inputs[n].key).value.outputs)
      && (forall m :: m in inputs && Less(m, n) ==>
            match inputs[m]
            case Artifact(a) => a in artifacts
            case FromStep(key, output) =>
              && Authoritative(fences, cfg.workflow, key).Some?
              && output in Authoritative(fences, cfg.workflow, key).value.outputs)
  {
    var bad := Unresolved(cfg.workflow, fences, artifacts, inputs);
    var n := Least(bad);
    forall m | m in inputs && Less(m, n)
      ensures ResolveSource(cfg.workflow, fences, artifacts, inputs[m]).Ok?
    {
      if m in bad { LeastIsFirst(bad, m); }
    }
  }

  lemma LeastIsFirst(bad: set<string>, m: string)
    requires m in bad
    ensures !Less(m, Least(bad))
  {
    if Less(m, Least(bad)) { LessAsymmetric(m, Least(bad)); }
  }
}
