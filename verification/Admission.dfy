/** Registering components, submitting and reproducing runs, and executing them.

    A run is admitted against one exact manifest and pins its digest.  Calls
    interleave at every point where one reads or writes a repository.  The digest
    function is a parameter and may collide. */
module Admission {
  import opened Keys
  import opened Graph
  import opened Runs

  type ComponentId = nat
  type Version = nat
  type CapabilityName = nat
  type ArtifactId = nat

  datatype Capability = Capability(name: CapabilityName, contract: Version, ports: seq<string>)

  datatype Manifest = Manifest(component: ComponentId, version: Version, capabilities: seq<Capability>, execution: nat)

  type Digester = Manifest -> nat

  type Registry = map<(ComponentId, Version), Manifest>

  // ------------------------------------------------------------ the registry

  datatype PutResult = Inserted | AlreadyThere | Conflict

  function Registered(digest: Digester, registry: Registry, m: Manifest): (Registry, PutResult)
  {
    var key := (m.component, m.version);
    if key !in registry then (registry[key := m], Inserted)
    else if digest(registry[key]) == digest(m) then (registry, AlreadyThere)
    else (registry, Conflict)
  }

  /** The manifest of a component with the greatest version. */
  ghost predicate IsLatest(registry: Registry, c: ComponentId, m: Manifest)
  {
    exists v :: (c, v) in registry && registry[(c, v)] == m && forall u :: (c, u) in registry ==> u <= v
  }

  class Components {
    var manifests: Registry

    constructor ()
      ensures manifests == map[]
    {
      manifests := map[];
    }

    method Put(digest: Digester, m: Manifest) returns (r: PutResult)
      modifies this
      ensures (manifests, r) == Registered(digest, old(manifests), m)
    {
      var key := (m.component, m.version);
      if key in manifests {
        return if digest(manifests[key]) == digest(m) then AlreadyThere else Conflict;
      }
      manifests := manifests[key := m];
      return Inserted;
    }

    method Latest(c: ComponentId) returns (r: Option<Manifest>)
      ensures r.Some? ==> IsLatest(manifests, c, r.value)
      ensures r.None? ==> forall v :: (c, v) !in manifests
    {
      var left := manifests.Keys;
      var best: Option<Version> := None;
      while left != {}
        invariant left <= manifests.Keys
        invariant best.Some? ==> (c, best.value) in manifests
        invariant forall v :: (c, v) in manifests && (c, v) !in left ==> best.Some? && v <= best.value
        decreases |left|
      {
        var key: (ComponentId, Version) :| key in left;
        if key.0 == c && (best.None? || best.value < key.1) { best := Some(key.1); }
        left := left - {key};
      }
      if best.None? { return None; }
      return Some(manifests[(c, best.value)]);
    }
  }

  function CapabilityOf(m: Manifest, name: CapabilityName): Option<Capability>
  {
    FirstNamed(m.capabilities, name)
  }

  function FirstNamed(cs: seq<Capability>, name: CapabilityName): Option<Capability>
  {
    if cs == [] then None else if cs[0].name == name then Some(cs[0]) else FirstNamed(cs[1..], name)
  }

  // ------------------------------------------------------------------- state

  datatype Input = Input(name: string, artifact: ArtifactId)

  datatype RunSpec = RunSpec(component: ComponentId, capability: CapabilityName, parameters: nat, inputs: seq<Input>)

  datatype Pin = Pin(version: Version, digest: nat, contract: Version)

  datatype RunRecord = RunRecord(spec: RunSpec, state: RunState, version: Version, digest: Option<nat>,
                                 contract: Version,
                                 origin: Option<RunId>)

  /** A submission under way: about to look its component up, or holding what it
      found. */
  datatype Submission =
    | Looking(spec: RunSpec, pin: Option<Pin>, origin: Option<RunId>)
    | Holding(spec: RunSpec, manifest: Manifest, capability: Capability, origin: Option<RunId>)

  /** An execution under way, with the record as it was read. */
  datatype Execution = Claimed(record: RunRecord) | Started(record: RunRecord)

  /** A cancellation under way: it has found no execution, or has read the record
      it is going to write back. */
  datatype Cancellation = Checked(run: RunId) | Read(run: RunId, record: RunRecord)

  /** `admitted`, `order` and `executed` are history: the manifest a run was admitted
      with, the runs in the order of their admission, and the executions in order. */
  datatype State = State(registry: Registry, artifacts: set<ArtifactId>, runs: map<RunId, RunRecord>,
                         submissions: map<nat, Submission>, executing: map<RunId, Execution>,
                         cancellations: map<nat, Cancellation>,
                         admitted: map<RunId, Manifest>, order: seq<RunId>, executed: seq<(RunId, Manifest)>)

  const EMPTY := State(map[], {}, map[], map[], map[], map[], map[], [], [])

  datatype Action =
    | Register(m: Manifest)
    | AddArtifact(a: ArtifactId)
    | Submit(sid: nat, spec: RunSpec, pin: Option<Pin>)
    | Reproduce(sid: nat, run: RunId)
    | LookUp(sid: nat, latest: Manifest)
    | Admit(sid: nat, run: RunId)
    | Abandon(sid: nat)
    | Claim(run: RunId)
    | Resolve(run: RunId)
    | Finish(run: RunId, to: RunState)
    | Fault(run: RunId)
    | CancelCheck(pid: nat, run: RunId)
    | CancelRead(pid: nat)
    | CancelWrite(pid: nat)

  // -------------------------------------------------------------- submitting

  datatype Lookup = NotFound | DigestMismatch | NoCapability | ContractMismatch
      | Resolved(manifest: Manifest, capability: Capability)

  /** Resolves an exact registry entry and checks it against what is expected. */
  function Resolution(digest: Digester, registry: Registry, spec: RunSpec, version: Version,
                      expected: Option<nat>, contract: Version): Lookup
  {
    if (spec.component, version) !in registry then NotFound else
      var m := registry[(spec.component, version)];
      if expected.Some? && digest(m) != expected.value then DigestMismatch
      else match CapabilityOf(m, spec.capability)
           case None => NoCapability
           case Some(c) => if c.contract != contract then ContractMismatch else Resolved(m, c)
  }

  /** A submission without pins takes the latest manifest, one with pins exactly
      the pinned entry. */
  function LookedUp(digest: Digester, s: State, sub: Submission, latest: Manifest): Option<Submission>
    requires sub.Looking?
  {
    match sub.pin
    case None =>
      (match CapabilityOf(latest, sub.spec.capability)
       case None => None
       case Some(c) => Some(Holding(sub.spec, latest, c, sub.origin)))
    case Some(pin) =>
      (match Resolution(digest, s.registry, sub.spec, pin.version, Some(pin.digest), pin.contract)
       case Resolved(m, c) => Some(Holding(sub.spec, m, c, sub.origin))
       case _ => None)
  }

  ghost predicate HasInput(spec: RunSpec, name: string)
  {
    exists j :: 0 <= j < |spec.inputs| && spec.inputs[j].name == name
  }

  ghost predicate Bound(spec: RunSpec, c: Capability)
  {
    && (forall i :: 0 <= i < |c.ports| ==> HasInput(spec, c.ports[i]))
    && (forall j :: 0 <= j < |spec.inputs| ==> spec.inputs[j].name in c.ports)
  }

  ghost predicate Available(artifacts: set<ArtifactId>, spec: RunSpec)
  {
    forall j :: 0 <= j < |spec.inputs| ==> spec.inputs[j].artifact in artifacts
  }

  ghost function SubmitStep(digest: Digester, s: State, a: Action): Option<State>
    requires a.Submit? || a.Reproduce? || a.LookUp? || a.Admit? || a.Abandon?
  {
    match a
    case Submit(sid, spec, pin) =>
      if sid in s.submissions then None
      else Some(s.(submissions := s.submissions[sid := Looking(spec, pin, None)]))
    case Reproduce(sid, run) =>
      if sid in s.submissions || run !in s.runs then None else
        var r := s.runs[run];
        (match Resolution(digest, s.registry, r.spec, r.version, r.digest, r.contract)
         case Resolved(m, _) =>
           if !Available(s.artifacts, r.spec) then Some(s)
           else
             var pin := Some(Pin(r.version, digest(m), r.contract));
             Some(s.(submissions := s.submissions[sid := Looking(r.spec, pin, Some(run))]))
         case _ => Some(s))
    case LookUp(sid, latest) =>
      if sid !in s.submissions || !s.submissions[sid].Looking? then None else
        var sub := s.submissions[sid];
        if sub.pin.None? && !IsLatest(s.registry, sub.spec.component, latest) then None else
          (match LookedUp(digest, s, sub, latest)
           case None => Some(s.(submissions := s.submissions - {sid}))
           case Some(held) => Some(s.(submissions := s.submissions[sid := held])))
    case Admit(sid, run) =>
      if sid !in s.submissions || !s.submissions[sid].Holding? || run in s.runs then None else
        var h := s.submissions[sid];
        var rest := s.submissions - {sid};
        if !Bound(h.spec, h.capability) || !Available(s.artifacts, h.spec) then Some(s.(submissions := rest))
        else Some(s.(submissions := rest,
                     runs := s.runs[run := RunRecord(h.spec, RunQueued, h.manifest.version, Some(digest(h.manifest)),
                                                     h.capability.contract, h.origin)],
                     admitted := s.admitted[run := h.manifest],
                     order := s.order + [run]))
    case Abandon(sid) => Some(s.(submissions := s.submissions - {sid}))
  }

  // --------------------------------------------------------------- executing

  function ExecuteStep(digest: Digester, s: State, a: Action): Option<State>
    requires a.Claim? || a.Resolve? || a.Finish? || a.Fault?
  {
    match a
    case Claim(run) =>
      if run in s.executing || run !in s.runs then None
      else if s.runs[run].state != RunQueued then Some(s)
      else Some(s.(executing := s.executing[run := Claimed(s.runs[run])]))
    case Resolve(run) =>
      if run !in s.executing || !s.executing[run].Claimed? then None else
        var r := s.executing[run].record;
        (match Resolution(digest, s.registry, r.spec, r.version, r.digest, r.contract)
         case Resolved(m, _) =>
           var running := r.(state := RunRunning, digest := Some(digest(m)));
           Some(s.(executing := s.executing[run := Started(running)], runs := s.runs[run := running],
                   executed := s.executed + [(run, m)]))
         case _ => Some(s.(executing := s.executing - {run})))
    case Finish(run, to) =>
      if run !in s.executing || !s.executing[run].Started? || !to.Terminal() then None
      else Some(s.(executing := s.executing - {run}, runs := s.runs[run := s.executing[run].record.(state := to)]))
    case Fault(run) => Some(s.(executing := s.executing - {run}))
  }

  /** Cancelling a run that is not executing.  The check, the read and the write are
      apart, and the record that was read is written back even if it is stale. */
  function CancelStep(s: State, a: Action): Option<State>
    requires a.CancelCheck? || a.CancelRead? || a.CancelWrite?
  {
    match a
    case CancelCheck(pid, run) =>
      if run in s.executing || pid in s.cancellations then None
      else Some(s.(cancellations := s.cancellations[pid := Checked(run)]))
    case CancelRead(pid) =>
      if pid !in s.cancellations || !s.cancellations[pid].Checked? then None else
        var run := s.cancellations[pid].run;
        if run !in s.runs || s.runs[run].state.Terminal() then Some(s.(cancellations := s.cancellations - {pid}))
        else Some(s.(cancellations := s.cancellations[pid := Read(run, s.runs[run])]))
    case CancelWrite(pid) =>
      if pid !in s.cancellations || !s.cancellations[pid].Read? then None else
        var c := s.cancellations[pid];
        Some(s.(cancellations := s.cancellations - {pid}, runs := s.runs[c.run := c.record.(state := RunCancelled)]))
  }

  ghost function Next(digest: Digester, s: State, a: Action): Option<State>
  {
    match a
    case Register(m) => Some(s.(registry := Registered(digest, s.registry, m).0))
    case AddArtifact(x) => Some(s.(artifacts := s.artifacts + {x}))
    case Submit(_, _, _) => SubmitStep(digest, s, a)
    case Reproduce(_, _) => SubmitStep(digest, s, a)
    case LookUp(_, _) => SubmitStep(digest, s, a)
    case Admit(_, _) => SubmitStep(digest, s, a)
    case Abandon(_) => SubmitStep(digest, s, a)
    case Claim(_) => ExecuteStep(digest, s, a)
    case Resolve(_) => ExecuteStep(digest, s, a)
    case Finish(_, _) => ExecuteStep(digest, s, a)
    case Fault(_) => ExecuteStep(digest, s, a)
    case CancelCheck(_, _) => CancelStep(s, a)
    case CancelRead(_) => CancelStep(s, a)
    case CancelWrite(_) => CancelStep(s, a)
  }

  ghost function Run(digest: Digester, actions: seq<Action>): Option<State>
  {
    if actions == [] then Some(EMPTY) else
      match Run(digest, actions[..|actions| - 1])
      case None => None
      case Some(s) => Next(digest, s, actions[|actions| - 1])
  }

  // --------------------------------------------------------------- invariants

  ghost predicate RegistryOk(registry: Registry)
  {
    forall k :: k in registry ==> registry[k].component == k.0 && registry[k].version == k.1
  }

  /** The record pins exactly the manifest `m`, which is registered. */
  ghost predicate Pins(digest: Digester, registry: Registry, r: RunRecord, m: Manifest)
  {
    && m.component == r.spec.component && m.version == r.version
    && (m.component, m.version) in registry && registry[(m.component, m.version)] == m
    && r.digest == Some(digest(m))
    && CapabilityOf(m, r.spec.capability).Some? && CapabilityOf(m, r.spec.capability).value.contract == r.contract
  }

  ghost predicate SameRun(a: RunRecord, b: RunRecord)
  {
    b == a.(state := b.state)
  }

  ghost predicate RunsOk(digest: Digester, registry: Registry, runs: map<RunId, RunRecord>,
                         admitted: map<RunId, Manifest>)
  {
    && admitted.Keys == runs.Keys
    && forall r :: r in runs ==> Pins(digest, registry, runs[r], admitted[r])
  }

  /** A reproduction has its original's spec and manifest. */
  ghost predicate OriginsOk(runs: map<RunId, RunRecord>, admitted: map<RunId, Manifest>)
    requires admitted.Keys == runs.Keys
  {
    forall r :: r in runs && runs[r].origin.Some? ==>
      var o := runs[r].origin.value;
      o in runs && runs[r].spec == runs[o].spec && admitted[r] == admitted[o]
  }

  ghost predicate SubmissionOk(digest: Digester, registry: Registry, runs: map<RunId, RunRecord>,
                               admitted: map<RunId, Manifest>, sub: Submission)
    requires admitted.Keys == runs.Keys
  {
    && (sub.origin.Some? ==>
          var o := sub.origin.value;
          && o in runs && sub.spec == runs[o].spec
          && (sub.Looking? ==> sub.pin == Some(Pin(runs[o].version, digest(admitted[o]), runs[o].contract)))
          && (sub.Holding? ==> sub.manifest == admitted[o]))
    && (sub.Holding? ==>
          && sub.manifest.component == sub.spec.component
          && (sub.spec.component, sub.manifest.version) in registry
             && registry[(sub.spec.component, sub.manifest.version)] == sub.manifest
          && CapabilityOf(sub.manifest, sub.spec.capability) == Some(sub.capability))
  }

  ghost predicate SubmissionsOk(digest: Digester, registry: Registry, runs: map<RunId, RunRecord>,
                                admitted: map<RunId, Manifest>, subs: map<nat, Submission>)
    requires admitted.Keys == runs.Keys
  {
    forall sid :: sid in subs ==> SubmissionOk(digest, registry, runs, admitted, subs[sid])
  }

  ghost predicate WasExecuted(executed: seq<(RunId, Manifest)>, run: RunId)
  {
    exists i :: 0 <= i < |executed| && executed[i].0 == run
  }

  ghost predicate ExecutingOk(runs: map<RunId, RunRecord>, executing: map<RunId, Execution>,
                              executed: seq<(RunId, Manifest)>)
  {
    forall r :: r in executing ==>
      && r in runs && SameRun(runs[r], executing[r].record)
      && (executing[r].Claimed? ==> !WasExecuted(executed, r))
  }

  ghost predicate CancellationsOk(runs: map<RunId, RunRecord>, cancellations: map<nat, Cancellation>)
  {
    forall pid :: pid in cancellations && cancellations[pid].Read? ==>
      cancellations[pid].run in runs && SameRun(runs[cancellations[pid].run], cancellations[pid].record)
  }

  ghost predicate Earlier(order: seq<RunId>, a: RunId, b: RunId)
  {
    exists i, j :: 0 <= i < j < |order| && order[i] == a && order[j] == b
  }

  /** Each run was admitted once, and after the run it reproduces. */
  ghost predicate OrderOk(runs: map<RunId, RunRecord>, order: seq<RunId>)
  {
    && NoDuplicates(order)
    && (forall r :: r in runs <==> r in order)
    && (forall r :: r in runs && runs[r].origin.Some? ==> Earlier(order, runs[r].origin.value, r))
  }

  /** Every execution was of the admitted manifest, and of a run that was never
      executed before. */
  ghost predicate ExecutedOk(runs: map<RunId, RunRecord>, admitted: map<RunId, Manifest>,
                             executed: seq<(RunId, Manifest)>)
    requires admitted.Keys == runs.Keys
  {
    && (forall i :: 0 <= i < |executed| ==>
          var (r, m) := executed[i]; r in runs && admitted[r] == m && runs[r].state != RunQueued)
    && (forall i, j :: 0 <= i < j < |executed| ==> executed[i].0 != executed[j].0)
  }

  ghost predicate Inv(digest: Digester, s: State)
  {
    && RegistryOk(s.registry)
    && RunsOk(digest, s.registry, s.runs, s.admitted)
    && OriginsOk(s.runs, s.admitted)
    && SubmissionsOk(digest, s.registry, s.runs, s.admitted, s.submissions)
    && ExecutingOk(s.runs, s.executing, s.executed)
    && ExecutedOk(s.runs, s.admitted, s.executed)
    && CancellationsOk(s.runs, s.cancellations)
    && OrderOk(s.runs, s.order)
  }

  // ------------------------------------------------------------ preservation

  /** Entries are only ever added. */
  ghost predicate Grows(before: Registry, after: Registry)
  {
    forall k :: k in before ==> k in after && after[k] == before[k]
  }

  lemma RegisterGrows(digest: Digester, registry: Registry, m: Manifest)
    requires RegistryOk(registry)
    ensures Grows(registry, Registered(digest, registry, m).0) && RegistryOk(Registered(digest, registry, m).0)
  {
  }

  lemma GrowthKeeps(digest: Digester, s: State, bigger: Registry)
    requires Inv(digest, s) && Grows(s.registry, bigger) && RegistryOk(bigger)
    ensures Inv(digest, s.(registry := bigger))
  {
    forall r | r in s.runs
      ensures Pins(digest, bigger, s.runs[r], s.admitted[r])
    {
      assert Pins(digest, s.registry, s.runs[r], s.admitted[r]);
    }
    forall sid | sid in s.submissions
      ensures SubmissionOk(digest, bigger, s.runs, s.admitted, s.submissions[sid])
    {
      assert SubmissionOk(digest, s.registry, s.runs, s.admitted, s.submissions[sid]);
    }
  }

  /** What a pinning record asks for is always there: no expectation fails. */
  lemma PinnedResolves(digest: Digester, registry: Registry, r: RunRecord, m: Manifest)
    requires Pins(digest, registry, r, m)
    ensures Resolution(digest, registry, r.spec, r.version, r.digest, r.contract)
         == Resolved(m, CapabilityOf(m, r.spec.capability).value)
  {
  }

  lemma SubmissionsPlus(digest: Digester, s: State, sid: nat, sub: Submission)
    requires Inv(digest, s) && SubmissionOk(digest, s.registry, s.runs, s.admitted, sub)
    ensures Inv(digest, s.(submissions := s.submissions[sid := sub]))
  {
  }

  lemma SubmissionsMinus(digest: Digester, s: State, sid: nat)
    requires Inv(digest, s)
    ensures Inv(digest, s.(submissions := s.submissions - {sid}))
  {
  }

  lemma ReproduceKeeps(digest: Digester, s: State, sid: nat, run: RunId)
    requires Inv(digest, s) && SubmitStep(digest, s, Reproduce(sid, run)).Some?
    ensures Inv(digest, SubmitStep(digest, s, Reproduce(sid, run)).value)
  {
    var r, m := s.runs[run], s.admitted[run];
    PinnedResolves(digest, s.registry, r, m);
    SubmissionsPlus(digest, s, sid, Looking(r.spec, Some(Pin(r.version, digest(m), r.contract)), Some(run)));
  }

  lemma LookedUpOk(digest: Digester, s: State, sub: Submission, latest: Manifest)
    requires Inv(digest, s) && sub.Looking? && SubmissionOk(digest, s.registry, s.runs, s.admitted, sub)
    requires sub.pin.None? ==> IsLatest(s.registry, sub.spec.component, latest)
    requires LookedUp(digest, s, sub, latest).Some?
    ensures SubmissionOk(digest, s.registry, s.runs, s.admitted, LookedUp(digest, s, sub, latest).value)
  {
    if sub.origin.Some? {
      var o := sub.origin.value;
      assert Pins(digest, s.registry, s.runs[o], s.admitted[o]);
    }
  }

  lemma LookUpKeeps(digest: Digester, s: State, sid: nat, latest: Manifest)
    requires Inv(digest, s) && SubmitStep(digest, s, LookUp(sid, latest)).Some?
    ensures Inv(digest, SubmitStep(digest, s, LookUp(sid, latest)).value)
  {
    var sub := s.submissions[sid];
    if LookedUp(digest, s, sub, latest).Some? {
      LookedUpOk(digest, s, sub, latest);
      SubmissionsPlus(digest, s, sid, LookedUp(digest, s, sub, latest).value);
    } else {
      SubmissionsMinus(digest, s, sid);
    }
  }

  lemma EarlierGrows(order: seq<RunId>, a: RunId, b: RunId, run: RunId)
    requires Earlier(order, a, b)
    ensures Earlier(order + [run], a, b)
  {
    var i, j :| 0 <= i < j < |order| && order[i] == a && order[j] == b;
    var more := order + [run];
    assert more[i] == a && more[j] == b;
  }

  lemma OrderGrows(runs: map<RunId, RunRecord>, order: seq<RunId>, run: RunId, r: RunRecord)
    requires OrderOk(runs, order) && run !in runs && (r.origin.Some? ==> r.origin.value in runs)
    ensures OrderOk(runs[run := r], order + [run])
  {
    var after, more := runs[run := r], order + [run];
    assert more[|order|] == run;
    forall x | x in after && after[x].origin.Some?
      ensures Earlier(more, after[x].origin.value, x)
    {
      if x == run {
        var i :| 0 <= i < |order| && order[i] == r.origin.value;
        assert more[i] == r.origin.value;
      } else {
        EarlierGrows(order, runs[x].origin.value, x, run);
      }
    }
  }

  /** A new run disturbs nothing that is under way. */
  lemma NewRunKeeps(digest: Digester, s: State, run: RunId, r: RunRecord, m: Manifest)
    requires Inv(digest, s) && run !in s.runs && Pins(digest, s.registry, r, m)
    requires r.origin.Some? ==>
      r.origin.value in s.runs && r.spec == s.runs[r.origin.value].spec && m == s.admitted[r.origin.value]
    ensures Inv(digest, s.(runs := s.runs[run := r], admitted := s.admitted[run := m], order := s.order + [run]))
  {
    OrderGrows(s.runs, s.order, run, r);
    NewRunOk(digest, s, run, r, m);
  }

  lemma NewRunOk(digest: Digester, s: State, run: RunId, r: RunRecord, m: Manifest)
    requires RunsOk(digest, s.registry, s.runs, s.admitted) && OriginsOk(s.runs, s.admitted)
    requires SubmissionsOk(digest, s.registry, s.runs, s.admitted, s.submissions)
    requires run !in s.runs && Pins(digest, s.registry, r, m)
    requires r.origin.Some? ==>
      r.origin.value in s.runs && r.spec == s.runs[r.origin.value].spec && m == s.admitted[r.origin.value]
    ensures var runs, admitted := s.runs[run := r], s.admitted[run := m];
      && RunsOk(digest, s.registry, runs, admitted) && OriginsOk(runs, admitted)
      && SubmissionsOk(digest, s.registry, runs, admitted, s.submissions)
  {
    forall sid | sid in s.submissions
      ensures SubmissionOk(digest, s.registry, s.runs[run := r], s.admitted[run := m], s.submissions[sid])
    {
      assert SubmissionOk(digest, s.registry, s.runs, s.admitted, s.submissions[sid]);
    }
  }

  lemma AdmitKeeps(digest: Digester, s: State, sid: nat, run: RunId)
    requires Inv(digest, s) && SubmitStep(digest, s, Admit(sid, run)).Some?
    ensures Inv(digest, SubmitStep(digest, s, Admit(sid, run)).value)
  {
    var h := s.submissions[sid];
    assert SubmissionOk(digest, s.registry, s.runs, s.admitted, h);
    var t := s.(submissions := s.submissions - {sid});
    SubmissionsMinus(digest, s, sid);
    if Bound(h.spec, h.capability) && Available(s.artifacts, h.spec) {
      NewRunKeeps(digest, t, run,
                  RunRecord(h.spec, RunQueued, h.manifest.version, Some(digest(h.manifest)), h.capability.contract,
                            h.origin), h.manifest);
    }
  }

  lemma RestateRuns(digest: Digester, s: State, runs: map<RunId, RunRecord>)
    requires RunsOk(digest, s.registry, s.runs, s.admitted) && OriginsOk(s.runs, s.admitted)
    requires SubmissionsOk(digest, s.registry, s.runs, s.admitted, s.submissions)
    requires runs.Keys == s.runs.Keys && forall r :: r in runs ==> SameRun(s.runs[r], runs[r])
    ensures RunsOk(digest, s.registry, runs, s.admitted) && OriginsOk(runs, s.admitted)
    ensures SubmissionsOk(digest, s.registry, runs, s.admitted, s.submissions)
  {
    forall r | r in runs
      ensures Pins(digest, s.registry, runs[r], s.admitted[r])
    {
      assert Pins(digest, s.registry, s.runs[r], s.admitted[r]);
    }
    forall sid | sid in s.submissions
      ensures SubmissionOk(digest, s.registry, runs, s.admitted, s.submissions[sid])
    {
      assert SubmissionOk(digest, s.registry, s.runs, s.admitted, s.submissions[sid]);
    }
  }

  /** A record may change its state as long as it never goes back to Queued. */
  lemma RestateKeeps(digest: Digester, s: State, run: RunId, to: RunState)
    requires Inv(digest, s) && run in s.runs && to != RunQueued
    ensures Inv(digest, s.(runs := s.runs[run := s.runs[run].(state := to)]))
  {
    RestateRuns(digest, s, s.runs[run := s.runs[run].(state := to)]);
  }

  lemma ClaimKeeps(digest: Digester, s: State, run: RunId)
    requires Inv(digest, s) && run in s.runs && s.runs[run].state == RunQueued
    ensures Inv(digest, s.(executing := s.executing[run := Claimed(s.runs[run])]))
  {
  }

  lemma ReleaseKeeps(digest: Digester, s: State, run: RunId)
    requires Inv(digest, s)
    ensures Inv(digest, s.(executing := s.executing - {run}))
  {
  }

  lemma StartKeeps(digest: Digester, s: State, run: RunId)
    requires Inv(digest, s) && run in s.executing && s.executing[run].Claimed? && s.runs[run].state == RunRunning
    ensures Inv(digest,
                s.(executing := s.executing[run := Started(s.runs[run])],
                   executed := s.executed + [(run, s.admitted[run])]))
  {
    StartExecutes(s.runs, s.admitted, s.executing, s.executed, run);
  }

  lemma StartExecutes(runs: map<RunId, RunRecord>, admitted: map<RunId, Manifest>, executing: map<RunId, Execution>,
                      executed: seq<(RunId, Manifest)>, run: RunId)
    requires admitted.Keys == runs.Keys && ExecutingOk(runs, executing, executed)
      && ExecutedOk(runs, admitted, executed)
    requires run in executing && executing[run].Claimed? && runs[run].state == RunRunning
    ensures ExecutingOk(runs, executing[run := Started(runs[run])], executed + [(run, admitted[run])])
    ensures ExecutedOk(runs, admitted, executed + [(run, admitted[run])])
  {
    var more := executed + [(run, admitted[run])];
    forall r | WasExecuted(more, r)
      ensures r == run || WasExecuted(executed, r)
    {
      var i :| 0 <= i < |more| && more[i].0 == r;
      assert i < |executed| ==> more[i] == executed[i];
    }
  }

  lemma ResolveKeeps(digest: Digester, s: State, run: RunId)
    requires Inv(digest, s) && run in s.executing && s.executing[run].Claimed?
    ensures ExecuteStep(digest, s, Resolve(run)).Some? && Inv(digest, ExecuteStep(digest, s, Resolve(run)).value)
  {
    ClaimedResolves(digest, s, run);
    RestateKeeps(digest, s, run, RunRunning);
    StartKeeps(digest, s.(runs := s.runs[run := s.runs[run].(state := RunRunning)]), run);
  }

  /** Resolving a claimed run sets it running and executes the admitted manifest. */
  lemma ClaimedResolves(digest: Digester, s: State, run: RunId)
    requires RunsOk(digest, s.registry, s.runs, s.admitted) && ExecutingOk(s.runs, s.executing, s.executed)
    requires run in s.executing && s.executing[run].Claimed?
    ensures run in s.runs
    ensures var running := s.runs[run].(state := RunRunning);
      ExecuteStep(digest, s, Resolve(run))
      == Some(s.(runs := s.runs[run := running], executing := s.executing[run := Started(running)],
                 executed := s.executed + [(run, s.admitted[run])]))
  {
    assert Pins(digest, s.registry, s.runs[run], s.admitted[run]);
    PinnedResolves(digest, s.registry, s.executing[run].record, s.admitted[run]);
  }

  lemma FinishKeeps(digest: Digester, s: State, run: RunId, to: RunState)
    requires Inv(digest, s) && run in s.executing && s.executing[run].Started? && to.Terminal()
    ensures Inv(digest, ExecuteStep(digest, s, Finish(run, to)).value)
  {
    FinishIs(digest, s, run, to);
    RestateKeeps(digest, s, run, to);
    ReleaseKeeps(digest, s.(runs := s.runs[run := s.runs[run].(state := to)]), run);
  }

  lemma FinishIs(digest: Digester, s: State, run: RunId, to: RunState)
    requires ExecutingOk(s.runs, s.executing, s.executed)
    requires run in s.executing && s.executing[run].Started? && to.Terminal()
    ensures run in s.runs
    ensures ExecuteStep(digest, s, Finish(run, to))
         == Some(s.(runs := s.runs[run := s.runs[run].(state := to)]).(executing := s.executing - {run}))
  {
    assert s.executing[run].record.(state := to) == s.runs[run].(state := to);
  }

  lemma ExecuteKeeps(digest: Digester, s: State, a: Action)
    requires Inv(digest, s) && (a.Claim? || a.Resolve? || a.Finish? || a.Fault?) && ExecuteStep(digest, s, a).Some?
    ensures Inv(digest, ExecuteStep(digest, s, a).value)
  {
    match a
    case Claim(run) => if s.runs[run].state == RunQueued { ClaimKeeps(digest, s, run); }
    case Resolve(run) => ResolveKeeps(digest, s, run);
    case Finish(run, to) => FinishKeeps(digest, s, run, to);
    case Fault(run) => ReleaseKeeps(digest, s, run);
  }

  lemma SubmitKeeps(digest: Digester, s: State, a: Action)
    requires Inv(digest, s) && (a.Submit? || a.Reproduce? || a.LookUp? || a.Admit? || a.Abandon?)
      && SubmitStep(digest, s, a).Some?
    ensures Inv(digest, SubmitStep(digest, s, a).value)
  {
    match a
    case Submit(sid, spec, pin) => SubmissionsPlus(digest, s, sid, Looking(spec, pin, None));
    case Reproduce(sid, run) => ReproduceKeeps(digest, s, sid, run);
    case LookUp(sid, latest) => LookUpKeeps(digest, s, sid, latest);
    case Admit(sid, run) => AdmitKeeps(digest, s, sid, run);
    case Abandon(sid) => SubmissionsMinus(digest, s, sid);
  }

  lemma CancelKeeps(digest: Digester, s: State, a: Action)
    requires Inv(digest, s) && (a.CancelCheck? || a.CancelRead? || a.CancelWrite?) && CancelStep(s, a).Some?
    ensures Inv(digest, CancelStep(s, a).value)
  {
    if a.CancelWrite? {
      var c := s.cancellations[a.pid];
      assert c.record.(state := RunCancelled) == s.runs[c.run].(state := RunCancelled);
      RestateKeeps(digest, s, c.run, RunCancelled);
    }
  }

  lemma NextKeeps(digest: Digester, s: State, a: Action)
    requires Inv(digest, s) && Next(digest, s, a).Some?
    ensures Inv(digest, Next(digest, s, a).value)
  {
    if a.Register? {
      RegisterGrows(digest, s.registry, a.m);
      GrowthKeeps(digest, s, Registered(digest, s.registry, a.m).0);
    } else if a.Submit? || a.Reproduce? || a.LookUp? || a.Admit? || a.Abandon? {
      SubmitKeeps(digest, s, a);
    } else if a.Claim? || a.Resolve? || a.Finish? || a.Fault? {
      ExecuteKeeps(digest, s, a);
    } else if a.CancelCheck? || a.CancelRead? || a.CancelWrite? {
      CancelKeeps(digest, s, a);
    }
  }

  lemma {:induction false} RunKeeps(digest: Digester, actions: seq<Action>)
    requires Run(digest, actions).Some?
    ensures Inv(digest, Run(digest, actions).value)
    decreases |actions|
  {
    if actions != [] {
      RunKeeps(digest, actions[..|actions| - 1]);
      NextKeeps(digest, Run(digest, actions[..|actions| - 1]).value, actions[|actions| - 1]);
    }
  }

  // ------------------------------------------------------------- guarantees

  /** However registering, submitting, executing, reproducing and cancelling
      interleave, executing a claimed run never finds its component gone, its digest
      changed, its capability missing or its contract changed. */
  lemma ExecutionAlwaysResolves(digest: Digester, actions: seq<Action>, s: State, run: RunId)
    requires Run(digest, actions) == Some(s) && run in s.executing && s.executing[run].Claimed?
    ensures run in s.admitted
    ensures var r := s.executing[run].record;
      var found := Resolution(digest, s.registry, r.spec, r.version, r.digest, r.contract);
      found.Resolved? && found.manifest == s.admitted[run]
  {
    RunKeeps(digest, actions);
    PinnedResolves(digest, s.registry, s.executing[run].record, s.admitted[run]);
  }

  /** What is executed is exactly the manifest the run was admitted with, and no run
      is executed twice. */
  lemma ExecutesWhatWasAdmitted(digest: Digester, actions: seq<Action>, s: State)
    requires Run(digest, actions) == Some(s)
    ensures forall i :: 0 <= i < |s.executed| ==>
      s.executed[i].0 in s.admitted && s.executed[i].1 == s.admitted[s.executed[i].0]
    ensures forall i, j :: 0 <= i < j < |s.executed| ==> s.executed[i].0 != s.executed[j].0
  {
    RunKeeps(digest, actions);
  }

  /** Each run of the chain reproduces the next one. */
  ghost predicate IsChain(runs: map<RunId, RunRecord>, chain: seq<RunId>)
  {
    && |chain| > 0
    && (forall i :: 0 <= i < |chain| ==> chain[i] in runs)
    && (forall i :: 0 <= i < |chain| - 1 ==> runs[chain[i]].origin == Some(chain[i + 1]))
  }

  /** Same request, same pins, same manifest. */
  ghost predicate SameAdmission(s: State, a: RunId, b: RunId)
  {
    && a in s.runs && b in s.runs && a in s.admitted && b in s.admitted
    && s.runs[a].spec == s.runs[b].spec && s.runs[a].version == s.runs[b].version
    && s.runs[a].digest == s.runs[b].digest && s.runs[a].contract == s.runs[b].contract
    && s.admitted[a] == s.admitted[b]
  }

  lemma OriginIsSame(digest: Digester, s: State, run: RunId)
    requires Inv(digest, s) && run in s.runs && s.runs[run].origin.Some?
    ensures SameAdmission(s, run, s.runs[run].origin.value)
  {
    assert Pins(digest, s.registry, s.runs[run], s.admitted[run]);
    var o := s.runs[run].origin.value;
    assert Pins(digest, s.registry, s.runs[o], s.admitted[o]);
  }

  lemma {:induction false} ChainIsSame(digest: Digester, s: State, chain: seq<RunId>, i: nat)
    requires Inv(digest, s) && IsChain(s.runs, chain) && i < |chain|
    ensures SameAdmission(s, chain[0], chain[i])
    decreases i
  {
    if i > 0 {
      ChainIsSame(digest, s, chain, i - 1);
      assert s.runs[chain[i - 1]].origin == Some(chain[i - 1 + 1]);
      OriginIsSame(digest, s, chain[i - 1]);
    }
  }

  /** Along any chain of reproductions the request, the pinned version, digest and
      contract, and the manifest stay those of the first original; and a chain is
      finite, without repetition, because each original was admitted earlier. */
  lemma ReproductionIsFaithful(digest: Digester, actions: seq<Action>, s: State, chain: seq<RunId>)
    requires Run(digest, actions) == Some(s) && IsChain(s.runs, chain)
    ensures forall i :: 0 <= i < |chain| ==> SameAdmission(s, chain[0], chain[i])
    ensures NoDuplicates(chain) && |chain| <= |s.runs|
  {
    RunKeeps(digest, actions);
    forall i | 0 <= i < |chain|
      ensures SameAdmission(s, chain[0], chain[i])
    {
      ChainIsSame(digest, s, chain, i);
    }
    ChainIsFinite(s.runs, s.order, chain);
  }

  ghost function Position(order: seq<RunId>, r: RunId): (i: nat)
    requires r in order
    ensures i < |order| && order[i] == r
  {
    var i :| 0 <= i < |order| && order[i] == r;
    i
  }

  lemma EarlierPosition(order: seq<RunId>, a: RunId, b: RunId)
    requires NoDuplicates(order) && Earlier(order, a, b)
    ensures a in order && b in order && Position(order, a) < Position(order, b)
  {
    var i, j :| 0 <= i < j < |order| && order[i] == a && order[j] == b;
    OnePosition(order, i);
    OnePosition(order, j);
  }

  lemma OnePosition(order: seq<RunId>, i: nat)
    requires NoDuplicates(order) && i < |order|
    ensures Position(order, order[i]) == i
  {
    var k := Position(order, order[i]);
  }

  lemma {:induction false} ChainDescends(runs: map<RunId, RunRecord>, order: seq<RunId>, chain: seq<RunId>, i: nat,
                                         j: nat)
    requires OrderOk(runs, order) && IsChain(runs, chain) && i < j < |chain|
    ensures Position(order, chain[j]) < Position(order, chain[i])
    decreases j
  {
    assert runs[chain[j - 1]].origin == Some(chain[j - 1 + 1]);
    EarlierPosition(order, chain[j], chain[j - 1]);
    if i < j - 1 { ChainDescends(runs, order, chain, i, j - 1); }
  }

  lemma ChainIsFinite(runs: map<RunId, RunRecord>, order: seq<RunId>, chain: seq<RunId>)
    requires OrderOk(runs, order) && IsChain(runs, chain)
    ensures NoDuplicates(chain) && |chain| <= |runs|
  {
    forall i, j | 0 <= i < j < |chain|
      ensures chain[i] != chain[j]
    {
      ChainDescends(runs, order, chain, i, j);
    }
    DistinctLength(chain);
    SubsetCardinality(Elements(chain), runs.Keys);
  }

  /** A recorded run can always be submitted again as far as its component goes. */
  lemma ReproductionAlwaysResolves(digest: Digester, actions: seq<Action>, s: State, run: RunId)
    requires Run(digest, actions) == Some(s) && run in s.runs
    ensures var r := s.runs[run]; Resolution(digest, s.registry, r.spec, r.version, r.digest, r.contract).Resolved?
  {
    RunKeeps(digest, actions);
    PinnedResolves(digest, s.registry, s.runs[run], s.admitted[run]);
  }

  /** A registered manifest is never replaced, and a run's admission never changes. */
  lemma {:induction false} AdmissionsLast(digest: Digester, actions: seq<Action>, k: nat)
    requires k <= |actions| && Run(digest, actions).Some?
    ensures Run(digest, actions[..k]).Some?
    ensures Lasts(Run(digest, actions[..k]).value, Run(digest, actions).value)
    decreases |actions|
  {
    if k == |actions| {
      assert actions[..k] == actions;
    } else {
      var n := |actions| - 1;
      AdmissionsLast(digest, actions[..n], k);
      assert actions[..n][..k] == actions[..k];
      RunKeeps(digest, actions[..n]);
      NextLasts(digest, Run(digest, actions[..n]).value, actions[n]);
    }
  }

  ghost predicate Lasts(s: State, t: State)
  {
    && Grows(s.registry, t.registry)
    && forall r :: r in s.admitted ==> r in t.admitted && t.admitted[r] == s.admitted[r]
  }

  lemma SubmitLasts(digest: Digester, s: State, a: Action)
    requires s.admitted.Keys == s.runs.Keys
    requires (a.Submit? || a.Reproduce? || a.LookUp? || a.Admit? || a.Abandon?) && SubmitStep(digest, s, a).Some?
    ensures Lasts(s, SubmitStep(digest, s, a).value)
  {
  }

  lemma ExecuteLasts(digest: Digester, s: State, a: Action)
    requires (a.Claim? || a.Resolve? || a.Finish? || a.Fault?) && ExecuteStep(digest, s, a).Some?
    ensures Lasts(s, ExecuteStep(digest, s, a).value)
  {
  }

  lemma NextLasts(digest: Digester, s: State, a: Action)
    requires s.admitted.Keys == s.runs.Keys && Next(digest, s, a).Some?
    ensures Lasts(s, Next(digest, s, a).value)
  {
    if a.Submit? || a.Reproduce? || a.LookUp? || a.Admit? || a.Abandon? {
      SubmitLasts(digest, s, a);
    } else if a.Claim? || a.Resolve? || a.Finish? || a.Fault? {
      ExecuteLasts(digest, s, a);
    }
  }
}
