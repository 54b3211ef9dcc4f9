/** Which submissions are admitted: those whose manifest was the one asked for, whose
    inputs are exactly the ports of the capability, and whose artifacts are stored. */
module AdmissionBindings {
  import opened Keys
  import opened Runs
  import opened Admission

  /** Some input of the spec is for that port. */
  ghost predicate Binds(spec: RunSpec, port: string)
  {
    exists j :: 0 <= j < |spec.inputs| && spec.inputs[j].name == port
  }

  /** The inputs name exactly the ports, and each artifact is stored. */
  ghost predicate Satisfied(spec: RunSpec, ports: seq<string>, artifacts: set<ArtifactId>)
  {
    && (forall i :: 0 <= i < |ports| ==> Binds(spec, ports[i]))
    && (forall j :: 0 <= j < |spec.inputs| ==> spec.inputs[j].name in ports)
    && (forall j :: 0 <= j < |spec.inputs| ==> spec.inputs[j].artifact in artifacts)
  }

  /** The manifest's first capability of that name. */
  ghost predicate Declares(m: Manifest, name: CapabilityName, c: Capability)
  {
    exists i :: 0 <= i < |m.capabilities| && m.capabilities[i] == c && c.name == name
                && forall j :: 0 <= j < i ==> m.capabilities[j].name != name
  }

  lemma {:induction false} FirstNamedExact(cs: seq<Capability>, name: CapabilityName)
    ensures FirstNamed(cs, name).None? ==> forall i :: 0 <= i < |cs| ==> cs[i].name != name
    ensures FirstNamed(cs, name).Some? ==>
      exists i :: 0 <= i < |cs| && cs[i] == FirstNamed(cs, name).value && cs[i].name == name
                  && forall j :: 0 <= j < i ==> cs[j].name != name
    decreases |cs|
  {
    if cs == [] {
    } else if cs[0].name == name {
    } else {
      FirstNamedExact(cs[1..], name);
      if FirstNamed(cs, name).Some? {
        var i :| 0 <= i < |cs[1..]| && cs[1..][i] == FirstNamed(cs[1..], name).value && cs[1..][i].name == name
                 && forall j :: 0 <= j < i ==> cs[1..][j].name != name;
        assert cs[i + 1] == FirstNamed(cs, name).value;
        forall j | 0 <= j < i + 1
          ensures cs[j].name != name
        {
          if j > 0 { assert cs[j] == cs[1..][j - 1]; }
        }
      }
    }
  }

  lemma CapabilityExact(m: Manifest, name: CapabilityName, c: Capability)
    ensures CapabilityOf(m, name) == Some(c) <==> Declares(m, name, c)
  {
    FirstNamedExact(m.capabilities, name);
  }

  lemma BindsIff(spec: RunSpec, port: string)
    ensures Binds(spec, port) <==> HasInput(spec, port)
  {
  }

  lemma SatisfiedIff(spec: RunSpec, c: Capability, artifacts: set<ArtifactId>)
    ensures Satisfied(spec, c.ports, artifacts) <==> Bound(spec, c) && Available(artifacts, spec)
  {
    forall i | 0 <= i < |c.ports|
      ensures Binds(spec, c.ports[i]) <==> HasInput(spec, c.ports[i])
    {
      BindsIff(spec, c.ports[i]);
    }
  }

  // ------------------------------------------------------------- recorded runs

  /** The run's spec fits a capability of the manifest it was admitted with. */
  ghost predicate FitsManifest(spec: RunSpec, m: Manifest, artifacts: set<ArtifactId>)
  {
    exists c :: Declares(m, spec.capability, c) && Satisfied(spec, c.ports, artifacts)
  }

  ghost predicate AllFit(s: State)
    requires s.admitted.Keys == s.runs.Keys
  {
    forall r :: r in s.runs ==> FitsManifest(s.runs[r].spec, s.admitted[r], s.artifacts)
  }

  lemma MoreArtifactsFit(spec: RunSpec, m: Manifest, few: set<ArtifactId>, more: set<ArtifactId>)
    requires FitsManifest(spec, m, few) && few <= more
    ensures FitsManifest(spec, m, more)
  {
    var c :| Declares(m, spec.capability, c) && Satisfied(spec, c.ports, few);
    assert Satisfied(spec, c.ports, more);
  }

  lemma AdmitFits(digest: Digester, s: State, sid: nat, run: RunId)
    requires Inv(digest, s) && SubmitStep(digest, s, Admit(sid, run)).Some?
    requires run in SubmitStep(digest, s, Admit(sid, run)).value.runs
    ensures FitsManifest(s.submissions[sid].spec, s.submissions[sid].manifest, s.artifacts)
  {
    var h := s.submissions[sid];
    assert SubmissionOk(digest, s.registry, s.runs, s.admitted, h);
    SatisfiedIff(h.spec, h.capability, s.artifacts);
    CapabilityExact(h.manifest, h.spec.capability, h.capability);
  }

  /** What a step does to the recorded runs. */
  ghost predicate RunsKept(s: State, t: State)
  {
    && s.artifacts <= t.artifacts
    && (forall r :: r in s.runs ==> r in t.runs && t.runs[r].spec == s.runs[r].spec)
    && (forall r :: r in s.runs && r in s.admitted ==> r in t.admitted && t.admitted[r] == s.admitted[r])
  }

  lemma AllFitKept(s: State, t: State)
    requires s.admitted.Keys == s.runs.Keys && t.admitted.Keys == t.runs.Keys && AllFit(s) && RunsKept(s, t)
    requires t.runs.Keys == s.runs.Keys
    ensures AllFit(t)
  {
    forall r | r in t.runs
      ensures FitsManifest(t.runs[r].spec, t.admitted[r], t.artifacts)
    {
      MoreArtifactsFit(s.runs[r].spec, s.admitted[r], s.artifacts, t.artifacts);
    }
  }

  lemma ExecuteRunsKept(digest: Digester, s: State, a: Action)
    requires a.Claim? || a.Resolve? || a.Finish? || a.Fault?
    requires ExecutingOk(s.runs, s.executing, s.executed) && ExecuteStep(digest, s, a).Some?
    ensures RunsKept(s, ExecuteStep(digest, s, a).value) && ExecuteStep(digest, s, a).value.runs.Keys == s.runs.Keys
  {
  }

  lemma CancelRunsKept(s: State, a: Action)
    requires a.CancelCheck? || a.CancelRead? || a.CancelWrite?
    requires CancellationsOk(s.runs, s.cancellations) && CancelStep(s, a).Some?
    ensures RunsKept(s, CancelStep(s, a).value) && CancelStep(s, a).value.runs.Keys == s.runs.Keys
  {
  }

  lemma SubmitRunsKept(digest: Digester, s: State, a: Action)
    requires a.Submit? || a.Reproduce? || a.LookUp? || a.Abandon?
    requires SubmitStep(digest, s, a).Some?
    ensures RunsKept(s, SubmitStep(digest, s, a).value) && SubmitStep(digest, s, a).value.runs == s.runs
  {
  }

  lemma AdmitAdds(digest: Digester, s: State, sid: nat, run: RunId)
    requires SubmitStep(digest, s, Admit(sid, run)).Some?
    ensures var t := SubmitStep(digest, s, Admit(sid, run)).value;
      && t.artifacts == s.artifacts && RunsKept(s, t)
      && (forall r :: r in t.runs ==> r in s.runs || r == run)
      && (run in t.runs ==>
            && t.runs[run].spec == s.submissions[sid].spec
            && run in t.admitted && t.admitted[run] == s.submissions[sid].manifest)
  {
  }

  lemma AdmitAllFit(digest: Digester, s: State, sid: nat, run: RunId)
    requires Inv(digest, s) && SubmitStep(digest, s, Admit(sid, run)).Some? && AllFit(s)
    requires SubmitStep(digest, s, Admit(sid, run)).value.admitted.Keys
          == SubmitStep(digest, s, Admit(sid, run)).value.runs.Keys
    ensures AllFit(SubmitStep(digest, s, Admit(sid, run)).value)
  {
    var t := SubmitStep(digest, s, Admit(sid, run)).value;
    AdmitAdds(digest, s, sid, run);
    if run in t.runs { AdmitFits(digest, s, sid, run); }
    forall r | r in t.runs
      ensures FitsManifest(t.runs[r].spec, t.admitted[r], t.artifacts)
    {
    }
  }

  /** Every step but an admission keeps the recorded runs and what they ask for. */
  lemma NextRunsKept(digest: Digester, s: State, a: Action)
    requires ExecutingOk(s.runs, s.executing, s.executed) && CancellationsOk(s.runs, s.cancellations)
    requires Next(digest, s, a).Some? && !a.Admit?
    ensures RunsKept(s, Next(digest, s, a).value) && Next(digest, s, a).value.runs.Keys == s.runs.Keys
  {
    match a
    case Register(_) =>
    case AddArtifact(_) =>
    case Submit(_, _, _) => SubmitRunsKept(digest, s, a);
    case Reproduce(_, _) => SubmitRunsKept(digest, s, a);
    case LookUp(_, _) => SubmitRunsKept(digest, s, a);
    case Abandon(_) => SubmitRunsKept(digest, s, a);
    case Claim(_) => ExecuteRunsKept(digest, s, a);
    case Resolve(_) => ExecuteRunsKept(digest, s, a);
    case Finish(_, _) => ExecuteRunsKept(digest, s, a);
    case Fault(_) => ExecuteRunsKept(digest, s, a);
    case CancelCheck(_, _) => CancelRunsKept(s, a);
    case CancelRead(_) => CancelRunsKept(s, a);
    case CancelWrite(_) => CancelRunsKept(s, a);
  }

  lemma NextFits(digest: Digester, s: State, a: Action)
    requires Inv(digest, s) && Next(digest, s, a).Some? && AllFit(s)
    ensures Inv(digest, Next(digest, s, a).value) && AllFit(Next(digest, s, a).value)
  {
    NextKeeps(digest, s, a);
    if a.Admit? {
      AdmitAllFit(digest, s, a.sid, a.run);
    } else {
      NextRunsKept(digest, s, a);
      AllFitKept(s, Next(digest, s, a).value);
    }
  }

  lemma {:induction false} RunFits(digest: Digester, actions: seq<Action>, s: State)
    requires Run(digest, actions) == Some(s)
    ensures Inv(digest, s) && AllFit(s)
    decreases |actions|
  {
    RunKeeps(digest, actions);
    if actions != [] {
      var n := |actions| - 1;
      var before := Run(digest, actions[..n]).value;
      RunFits(digest, actions[..n], before);
      NextFits(digest, before, actions[n]);
    }
  }

  /** In every reachable state each recorded run names, with its inputs, exactly the
      ports of its capability in the manifest it was admitted with, and all its input
      artifacts are stored. */
  lemma RecordedRunsFit(digest: Digester, actions: seq<Action>, s: State, run: RunId)
    requires Run(digest, actions) == Some(s) && run in s.runs
    ensures run in s.admitted && FitsManifest(s.runs[run].spec, s.admitted[run], s.artifacts)
  {
    RunFits(digest, actions, s);
  }

  /** A submission that holds what it looked up is admitted exactly when its inputs
      are the ports of the capability and its artifacts are stored.  It is then queued
      and pins what it holds; otherwise nothing is recorded. */
  lemma AdmittedIff(digest: Digester, s: State, sid: nat, run: RunId)
    requires sid in s.submissions && s.submissions[sid].Holding? && run !in s.runs
    ensures Next(digest, s, Admit(sid, run)).Some?
    ensures var h, t := s.submissions[sid], Next(digest, s, Admit(sid, run)).value;
      && sid !in t.submissions
      && (run in t.runs <==> Satisfied(h.spec, h.capability.ports, s.artifacts))
      && (run in t.runs ==>
            && t.runs[run].spec == h.spec && t.runs[run].state == RunQueued && t.runs[run].origin == h.origin
            && t.runs[run].version == h.manifest.version && t.runs[run].digest == Some(digest(h.manifest))
            && t.runs[run].contract == h.capability.contract
            && run in t.admitted && t.admitted[run] == h.manifest)
      && (run !in t.runs ==> t.runs == s.runs && t.admitted == s.admitted)
  {
    SatisfiedIff(s.submissions[sid].spec, s.submissions[sid].capability, s.artifacts);
  }

  /** The manifest a submission asks for: with pins the registered entry that agrees
      with all of them, without pins the latest. */
  ghost predicate AskedFor(digest: Digester, s: State, sub: Submission, m: Manifest)
    requires sub.Looking?
  {
    if sub.pin.None? then IsLatest(s.registry, sub.spec.component, m)
    else
      var key := (sub.spec.component, sub.pin.value.version);
      key in s.registry && s.registry[key] == m && digest(m) == sub.pin.value.digest
  }

  /** A submission comes to hold a manifest exactly when it is the one it asks for and
      declares the capability, with the pinned contract if there is one. */
  lemma HeldIff(digest: Digester, s: State, sid: nat, latest: Manifest, m: Manifest, c: Capability)
    requires sid in s.submissions && s.submissions[sid].Looking?
    requires Next(digest, s, LookUp(sid, latest)).Some?
    ensures var sub, t := s.submissions[sid], Next(digest, s, LookUp(sid, latest)).value;
      (sid in t.submissions && t.submissions[sid] == Holding(sub.spec, m, c, sub.origin))
      <==> AskedFor(digest, s, sub, m) && (sub.pin.None? ==> m == latest) && Declares(m, sub.spec.capability, c)
           && (sub.pin.Some? ==> c.contract == sub.pin.value.contract)
  {
    CapabilityExact(m, s.submissions[sid].spec.capability, c);
  }

  // ------------------------------------------------------------ recorded states

  /** The state an action writes into the record of a run. */
  ghost function WrittenBy(s: State, a: Action, run: RunId): Option<RunState>
  {
    match a
    case Admit(_, r) => if r == run then Some(RunQueued) else None
    case Resolve(r) => if r == run then Some(RunRunning) else None
    case Finish(r, to) => if r == run then Some(to) else None
    case CancelWrite(pid) =>
      if pid in s.cancellations && s.cancellations[pid].run == run then Some(RunCancelled) else None
    case _ => None
  }

  /** The last state a run of the system wrote for that record. */
  ghost function LastWritten(digest: Digester, actions: seq<Action>, run: RunId): Option<RunState>
  {
    if actions == [] then None else
      var n := |actions| - 1;
      var before := Run(digest, actions[..n]);
      var now := if before.Some? then WrittenBy(before.value, actions[n], run) else None;
      if now.Some? then now else LastWritten(digest, actions[..n], run)
  }

  lemma SubmitWrites(digest: Digester, s: State, a: Action, run: RunId)
    requires a.Submit? || a.Reproduce? || a.LookUp? || a.Admit? || a.Abandon?
    requires SubmitStep(digest, s, a).Some? && run in SubmitStep(digest, s, a).value.runs
    ensures var t := SubmitStep(digest, s, a).value;
      if WrittenBy(s, a, run).Some? then t.runs[run].state == WrittenBy(s, a, run).value
      else run in s.runs && t.runs[run].state == s.runs[run].state
  {
  }

  /** An execution that is about to start finds its manifest. */
  ghost predicate Finds(digest: Digester, s: State, run: RunId)
    requires run in s.executing
  {
    var r := s.executing[run].record;
    Resolution(digest, s.registry, r.spec, r.version, r.digest, r.contract).Resolved?
  }

  lemma ExecutionFinds(digest: Digester, s: State, run: RunId)
    requires Inv(digest, s) && run in s.executing
    ensures Finds(digest, s, run)
  {
    assert SameRun(s.runs[run], s.executing[run].record);
    assert Pins(digest, s.registry, s.runs[run], s.admitted[run]);
    PinnedResolves(digest, s.registry, s.executing[run].record, s.admitted[run]);
  }

  lemma ExecuteWrites(digest: Digester, s: State, a: Action, run: RunId)
    requires a.Claim? || a.Resolve? || a.Finish? || a.Fault?
    requires ExecuteStep(digest, s, a).Some? && run in s.runs
    requires a.Resolve? && a.run in s.executing ==> Finds(digest, s, a.run)
    ensures var t := ExecuteStep(digest, s, a).value;
      run in t.runs && t.runs[run].state == if WrittenBy(s, a, run).Some? then WrittenBy(s, a, run).value
                                            else s.runs[run].state
  {
  }

  lemma CancelWrites(s: State, a: Action, run: RunId)
    requires a.CancelCheck? || a.CancelRead? || a.CancelWrite?
    requires CancelStep(s, a).Some? && run in s.runs
    ensures var t := CancelStep(s, a).value;
      run in t.runs && t.runs[run].state == if WrittenBy(s, a, run).Some? then WrittenBy(s, a, run).value
                                            else s.runs[run].state
  {
  }

  /** The action leaves in the record of the run what it writes, or what was there. */
  ghost predicate LeavesState(s: State, a: Action, run: RunId, t: State)
    requires run in t.runs
  {
    if WrittenBy(s, a, run).Some? then t.runs[run].state == WrittenBy(s, a, run).value
    else run in s.runs && t.runs[run].state == s.runs[run].state
  }

  lemma OldRunWrites(digest: Digester, s: State, a: Action, run: RunId)
    requires Next(digest, s, a).Some? && run in s.runs && !a.Admit? && run in Next(digest, s, a).value.runs
    requires a.Resolve? && a.run in s.executing ==> Finds(digest, s, a.run)
    ensures LeavesState(s, a, run, Next(digest, s, a).value)
  {
    match a
    case Register(_) =>
    case AddArtifact(_) =>
    case Submit(_, _, _) => SubmitWrites(digest, s, a, run);
    case Reproduce(_, _) => SubmitWrites(digest, s, a, run);
    case LookUp(_, _) => SubmitWrites(digest, s, a, run);
    case Abandon(_) => SubmitWrites(digest, s, a, run);
    case Claim(_) => ExecuteWrites(digest, s, a, run);
    case Resolve(_) => ExecuteWrites(digest, s, a, run);
    case Finish(_, _) => ExecuteWrites(digest, s, a, run);
    case Fault(_) => ExecuteWrites(digest, s, a, run);
    case CancelCheck(_, _) => CancelWrites(s, a, run);
    case CancelRead(_) => CancelWrites(s, a, run);
    case CancelWrite(_) => CancelWrites(s, a, run);
  }

  lemma NextWrites(digest: Digester, s: State, a: Action, run: RunId)
    requires Inv(digest, s) && Next(digest, s, a).Some? && run in Next(digest, s, a).value.runs
    ensures LeavesState(s, a, run, Next(digest, s, a).value)
  {
    if a.Admit? {
      SubmitWrites(digest, s, a, run);
    } else {
      NextRunsKept(digest, s, a);
      if a.Resolve? && a.run in s.executing { ExecutionFinds(digest, s, a.run); }
      OldRunWrites(digest, s, a, run);
    }
  }

  /** A recorded run's state is the one written last: queued by its admission, running
      by its execution, its end by that execution, or cancelled by a canceller. */
  lemma {:induction false} StateIsLastWritten(digest: Digester, actions: seq<Action>, s: State, run: RunId)
    requires Run(digest, actions) == Some(s) && run in s.runs
    ensures LastWritten(digest, actions, run) == Some(s.runs[run].state)
    decreases |actions|
  {
    var n := |actions| - 1;
    var before := Run(digest, actions[..n]).value;
    RunKeeps(digest, actions[..n]);
    NextWrites(digest, before, actions[n], run);
    if WrittenBy(before, actions[n], run).None? { StateIsLastWritten(digest, actions[..n], before, run); }
  }

  // ------------------------------------------------------------- reproductions

  lemma FitIsAvailable(spec: RunSpec, m: Manifest, artifacts: set<ArtifactId>)
    requires FitsManifest(spec, m, artifacts)
    ensures Available(artifacts, spec)
  {
  }

  /** The submission a reproduction makes. */
  ghost function Again(digest: Digester, s: State, run: RunId): Submission
    requires run in s.runs && run in s.admitted
  {
    var r := s.runs[run];
    Looking(r.spec, Some(Pin(r.version, digest(s.admitted[run]), r.contract)), Some(run))
  }

  lemma ReproduceTakes(digest: Digester, s: State, sid: nat, run: RunId)
    requires run in s.runs && run in s.admitted && Pins(digest, s.registry, s.runs[run], s.admitted[run])
    requires Available(s.artifacts, s.runs[run].spec) && sid !in s.submissions
    ensures Next(digest, s, Reproduce(sid, run))
         == Some(s.(submissions := s.submissions[sid := Again(digest, s, run)]))
  {
    PinnedResolves(digest, s.registry, s.runs[run], s.admitted[run]);
  }

  lemma AgainIsHeld(digest: Digester, s: State, sid: nat, run: RunId, any: Manifest)
    requires Inv(digest, s) && run in s.runs
    requires sid in s.submissions && s.submissions[sid] == Again(digest, s, run)
    ensures CapabilityOf(s.admitted[run], s.runs[run].spec.capability).Some?
    ensures var m := s.admitted[run];
      Next(digest, s, LookUp(sid, any))
      == Some(s.(submissions := s.submissions[sid := Holding(s.runs[run].spec, m,
                                                             CapabilityOf(m, s.runs[run].spec.capability).value,
                                                             Some(run))]))
  {
    var r, m := s.runs[run], s.admitted[run];
    assert Pins(digest, s.registry, r, m);
    PinnedResolves(digest, s.registry, r, m);
  }

  lemma FitIsSatisfied(spec: RunSpec, m: Manifest, artifacts: set<ArtifactId>, c: Capability)
    requires FitsManifest(spec, m, artifacts) && CapabilityOf(m, spec.capability) == Some(c)
    ensures Satisfied(spec, c.ports, artifacts)
  {
    var d :| Declares(m, spec.capability, d) && Satisfied(spec, d.ports, artifacts);
    CapabilityExact(m, spec.capability, d);
  }

  /** In every reachable state any recorded run can be reproduced: asking, looking up
      and admitting go through, and the new run has the original's spec and manifest. */
  lemma ReproductionGoesThrough(digest: Digester, actions: seq<Action>, s: State, run: RunId, sid: nat, again: RunId,
                                any: Manifest)
    requires Run(digest, actions) == Some(s) && run in s.runs && sid !in s.submissions && again !in s.runs
    ensures
      var s1 := Next(digest, s, Reproduce(sid, run));
      && s1.Some?
      && var s2 := Next(digest, s1.value, LookUp(sid, any));
         && s2.Some?
         && var s3 := Next(digest, s2.value, Admit(sid, again));
            && s3.Some? && again in s3.value.runs && again in s3.value.admitted && run in s.admitted
            && s3.value.runs[again].spec == s.runs[run].spec && s3.value.runs[again].origin == Some(run)
            && s3.value.runs[again].state == RunQueued && s3.value.admitted[again] == s.admitted[run]
  {
    RunFits(digest, actions, s);
    var r, m := s.runs[run], s.admitted[run];
    assert Pins(digest, s.registry, r, m);
    FitIsAvailable(r.spec, m, s.artifacts);
    ReproduceTakes(digest, s, sid, run);
    var s1 := Next(digest, s, Reproduce(sid, run)).value;
    NextKeeps(digest, s, Reproduce(sid, run));
    AgainIsHeld(digest, s1, sid, run, any);
    var c := CapabilityOf(m, r.spec.capability).value;
    FitIsSatisfied(r.spec, m, s.artifacts, c);
    AdmittedIff(digest, Next(digest, s1, LookUp(sid, any)).value, sid, again);
  }

  // ------------------------------------------------------ undisturbed executions

  /** The execution holds what is recorded, and no canceller is at the run. */
  ghost predicate Alone(s: State, run: RunId)
  {
    && run in s.executing && run in s.runs && s.runs[run] == s.executing[run].record
    && forall pid :: pid in s.cancellations ==> s.cancellations[pid].run != run
  }

  lemma ExecuteAlone(digest: Digester, s: State, a: Action, run: RunId)
    requires a.Claim? || a.Resolve? || a.Finish? || a.Fault?
    requires Alone(s, run) && ExecuteStep(digest, s, a).Some? && run in ExecuteStep(digest, s, a).value.executing
    ensures Alone(ExecuteStep(digest, s, a).value, run)
  {
  }

  lemma CancelAlone(s: State, a: Action, run: RunId)
    requires a.CancelCheck? || a.CancelRead? || a.CancelWrite?
    requires Alone(s, run) && CancelStep(s, a).Some?
    ensures Alone(CancelStep(s, a).value, run)
  {
  }

  lemma SubmitAlone(digest: Digester, s: State, a: Action, run: RunId)
    requires a.Submit? || a.Reproduce? || a.LookUp? || a.Admit? || a.Abandon?
    requires Alone(s, run) && SubmitStep(digest, s, a).Some?
    ensures Alone(SubmitStep(digest, s, a).value, run)
  {
  }

  /** An execution that claims a run while no canceller is at it keeps the record to
      itself as long as it lasts: whoever asks to cancel meanwhile writes nothing. */
  lemma ExecutionIsAlone(digest: Digester, s: State, a: Action, run: RunId)
    requires Next(digest, s, a).Some? && run in Next(digest, s, a).value.executing
    requires Alone(s, run)
             || (a == Claim(run) && run !in s.executing
                 && forall pid :: pid in s.cancellations ==> s.cancellations[pid].run != run)
    ensures Alone(Next(digest, s, a).value, run)
  {
    match a
    case Register(_) =>
    case AddArtifact(_) =>
    case Submit(_, _, _) => SubmitAlone(digest, s, a, run);
    case Reproduce(_, _) => SubmitAlone(digest, s, a, run);
    case LookUp(_, _) => SubmitAlone(digest, s, a, run);
    case Admit(_, _) => SubmitAlone(digest, s, a, run);
    case Abandon(_) => SubmitAlone(digest, s, a, run);
    case Claim(_) => if Alone(s, run) { ExecuteAlone(digest, s, a, run); }
    case Resolve(_) => ExecuteAlone(digest, s, a, run);
    case Finish(_, _) => ExecuteAlone(digest, s, a, run);
    case Fault(_) => ExecuteAlone(digest, s, a, run);
    case CancelCheck(_, _) => CancelAlone(s, a, run);
    case CancelRead(_) => CancelAlone(s, a, run);
    case CancelWrite(_) => CancelAlone(s, a, run);
  }
}
