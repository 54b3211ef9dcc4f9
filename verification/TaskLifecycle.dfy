/** The lifecycle record of one logical task: how it is created, admitted and
    moved, what its replay check accepts, and which snapshots may replace it. */
module TaskLifecycle {
  import opened Keys
  import opened Workspaces

  const SPEC_SCHEMA := 1
  const RECORD_SCHEMA := 2
  const MIN_RECORD_SCHEMA := 1
  const MAX_PRINCIPAL_BYTES := 256
  const MAX_CAPABILITIES := 128
  const MAX_ENDPOINTS := 64
  const MAX_ENDPOINT_BYTES := 512

  datatype Budget = Budget(cpuMillis: Option<nat>, memoryBytes: Option<nat>, wallClockMs: Option<nat>,
                           gpuDevices: Option<nat>, modelTokens: Option<nat>)

  datatype Isolation = Process | Container | Gvisor | MicroVm

  datatype TaskSpec = TaskSpec(schema: nat, id: nat, identityId: nat, principal: string, workspace: WorkspaceSpec,
                               capabilities: seq<string>, budget: Budget, isolation: Isolation,
                               defaultDeny: bool, endpoints: seq<string>, writableWorkspace: bool)

  predicate ValidBudget(b: Budget)
  {
    b.cpuMillis != Some(0) && b.memoryBytes != Some(0) && b.wallClockMs != Some(0) && b.modelTokens != Some(0)
  }

  ghost predicate ValidSpec(spec: TaskSpec)
  {
    && spec.schema == SPEC_SCHEMA
    && spec.identityId == spec.id
    && Token(spec.principal, MAX_PRINCIPAL_BYTES)
    && ValidWorkspace(spec.workspace)
    && |spec.capabilities| <= MAX_CAPABILITIES && UniqueTokens(spec.capabilities, MAX_CAPABILITY_BYTES)
    && ValidBudget(spec.budget)
    && |spec.endpoints| <= MAX_ENDPOINTS && UniqueTokens(spec.endpoints, MAX_ENDPOINT_BYTES)
  }

  method ValidateSpec(spec: TaskSpec) returns (ok: bool)
    ensures ok <==> ValidSpec(spec)
  {
    if spec.schema != SPEC_SCHEMA || spec.identityId != spec.id || !Token(spec.principal, MAX_PRINCIPAL_BYTES) {
      return false;
    }
    var workspace := ValidateWorkspace(spec.workspace);
    var capabilities := ValidateTokens(spec.capabilities, MAX_CAPABILITY_BYTES);
    var endpoints := ValidateTokens(spec.endpoints, MAX_ENDPOINT_BYTES);
    return workspace && |spec.capabilities| <= MAX_CAPABILITIES && capabilities && ValidBudget(spec.budget)
        && |spec.endpoints| <= MAX_ENDPOINTS && endpoints;
  }

  // ---------------------------------------------------------------- records

  datatype TaskState = Created | Admitted | Running | Suspended | Succeeded | Failed | Cancelled | Terminated
  {
    predicate CanBecome(next: TaskState)
    {
      match this
      case Created => next in {Admitted, Failed, Cancelled}
      case Admitted => next in {Running, Failed, Cancelled}
      case Running => next in {Suspended, Succeeded, Failed, Cancelled, Terminated}
      case Suspended => next in {Running, Failed, Cancelled, Terminated}
      case _ => false
    }

    predicate Terminal()
    {
      this in {Succeeded, Failed, Cancelled, Terminated}
    }
  }

  datatype Transition = Transition(from: TaskState, to: TaskState, at: nat)

  datatype Snapshot = Snapshot(schema: nat, spec: TaskSpec, state: TaskState, createdAt: nat,
                               evidence: Option<Evidence>,
                               admittedAt: Option<nat>, startedAt: Option<nat>, finishedAt: Option<nat>,
                               transitions: seq<Transition>)

  datatype TaskError = InvalidTransition(from: TaskState, to: TaskState) | Invalid

  ghost function Create(spec: TaskSpec, now: nat): Option<Snapshot>
  {
    if ValidSpec(spec) then Some(Fresh(spec, now)) else None
  }

  function Fresh(spec: TaskSpec, now: nat): Snapshot
  {
    Snapshot(RECORD_SCHEMA, spec, Created, now, None, None, None, None, [])
  }

  /** The time the next transition may not precede. */
  function LastAt(createdAt: nat, transitions: seq<Transition>): nat
  {
    if transitions == [] then createdAt else transitions[|transitions| - 1].at
  }

  function OrElse(first: Option<nat>, now: nat): Option<nat>
  {
    if first.Some? then first else Some(now)
  }

  function Moved(s: Snapshot, to: TaskState, now: nat): Snapshot
  {
    s.(state := to,
       admittedAt := if to == Admitted then OrElse(s.admittedAt, now) else s.admittedAt,
       startedAt := if to == Running then OrElse(s.startedAt, now) else s.startedAt,
       finishedAt := if to.Terminal() then Some(now) else s.finishedAt,
       transitions := s.transitions + [Transition(s.state, to, now)])
  }

  function Apply(s: Snapshot, to: TaskState, now: nat): (Snapshot, Result<(), TaskError>)
  {
    if !s.state.CanBecome(to) then (s, Err(InvalidTransition(s.state, to)))
    else if now < LastAt(s.createdAt, s.transitions) then (s, Err(Invalid))
    else (Moved(s, to, now), Ok(()))
  }

  /** The record after `transition`, and what the caller is told. */
  function Transit(s: Snapshot, to: TaskState, now: nat): (Snapshot, Result<(), TaskError>)
  {
    if s.state == Created && to == Admitted then (s, Err(Invalid)) else Apply(s, to, now)
  }

  /** The record after `admit`, and what the caller is told.  The evidence is
      stored before the clock is looked at. */
  ghost function Admit(digest: Digester, s: Snapshot, e: Evidence, now: nat): (Snapshot, Result<(), TaskError>)
  {
    if s.state != Created then (s, Err(InvalidTransition(s.state, Admitted)))
    else if !ValidAgainst(digest, e, s.spec.workspace) || s.evidence.Some? then (s, Err(Invalid))
    else Apply(s.(evidence := Some(e)), Admitted, now)
  }

  /** The record as an object whose methods update it in place. */
  class TaskRecord {
    var schema: nat
    var spec: TaskSpec
    var state: TaskState
    var createdAt: nat
    var evidence: Option<Evidence>
    var admittedAt: Option<nat>
    var startedAt: Option<nat>
    var finishedAt: Option<nat>
    var transitions: seq<Transition>

    constructor (s: Snapshot)
      ensures Contents() == s
    {
      schema, spec, state, createdAt := s.schema, s.spec, s.state, s.createdAt;
      evidence, admittedAt, startedAt, finishedAt := s.evidence, s.admittedAt, s.startedAt, s.finishedAt;
      transitions := s.transitions;
    }

    function Contents(): Snapshot
      reads this
    {
      Snapshot(schema, spec, state, createdAt, evidence, admittedAt, startedAt, finishedAt, transitions)
    }

    method ApplyTransition(to: TaskState, now: nat) returns (r: Result<(), TaskError>)
      modifies this
      ensures (Contents(), r) == Apply(old(Contents()), to, now)
    {
      var from := state;
      if !from.CanBecome(to) { return Err(InvalidTransition(from, to)); }
      var previousAt := if transitions == [] then createdAt else transitions[|transitions| - 1].at;
      if now < previousAt { return Err(Invalid); }
      state := to;
      if to == Admitted && admittedAt.None? { admittedAt := Some(now); }
      if to == Running && startedAt.None? { startedAt := Some(now); }
      if to.Terminal() { finishedAt := Some(now); }
      transitions := transitions + [Transition(from, to, now)];
      return Ok(());
    }

    method Move(to: TaskState, now: nat) returns (r: Result<(), TaskError>)
      modifies this
      ensures (Contents(), r) == Transit(old(Contents()), to, now)
    {
      if state == Created && to == Admitted { return Err(Invalid); }
      r := ApplyTransition(to, now);
    }

    method AdmitTask(digest: Digester, e: Evidence, now: nat) returns (r: Result<(), TaskError>)
      modifies this
      ensures (Contents(), r) == Admit(digest, old(Contents()), e, now)
    {
      if state != Created { return Err(InvalidTransition(state, Admitted)); }
      var ok := ValidateAgainst(digest, e, spec.workspace);
      if !ok || evidence.Some? { return Err(Invalid); }
      evidence := Some(e);
      r := ApplyTransition(Admitted, now);
    }
  }

  // ----------------------------------------------------------------- replay

  /** What a retained history amounts to. */
  datatype Replayed = Replayed(state: TaskState, last: nat, admitted: Option<nat>, started: Option<nat>,
                               finished: Option<nat>)

  function Advance(r: Replayed, t: Transition): Option<Replayed>
  {
    if t.from != r.state || !r.state.CanBecome(t.to) || t.at < r.last then None else
      Some(Replayed(t.to, t.at,
                    if t.to == Admitted then OrElse(r.admitted, t.at) else r.admitted,
                    if t.to == Running then OrElse(r.started, t.at) else r.started,
                    if t.to.Terminal() then Some(t.at) else r.finished))
  }

  function Replay(createdAt: nat, transitions: seq<Transition>): Option<Replayed>
  {
    if transitions == [] then Some(Replayed(Created, createdAt, None, None, None)) else
      var n := |transitions| - 1;
      var before := Replay(createdAt, transitions[..n]);
      if before.None? then None else Advance(before.value, transitions[n])
  }

  ghost predicate Replays(s: Snapshot)
  {
    var r := Replay(s.createdAt, s.transitions);
    r.Some? && r.value.state == s.state
    && r.value.admitted == s.admittedAt && r.value.started == s.startedAt && r.value.finished == s.finishedAt
  }

  ghost predicate EvidenceOk(digest: Digester, s: Snapshot)
  {
    if s.schema >= 2 then
      s.admittedAt.Some? == s.evidence.Some?
      && (s.evidence.Some? ==> ValidAgainst(digest, s.evidence.value, s.spec.workspace))
    else s.evidence.None?
  }

  ghost predicate Valid(digest: Digester, s: Snapshot)
  {
    MIN_RECORD_SCHEMA <= s.schema <= RECORD_SCHEMA && ValidSpec(s.spec) && Replays(s) && EvidenceOk(digest, s)
  }

  lemma {:induction false} ReplayFails(createdAt: nat, transitions: seq<Transition>, k: nat)
    requires k <= |transitions| && Replay(createdAt, transitions[..k]).None?
    ensures Replay(createdAt, transitions).None?
    decreases |transitions| - k
  {
    if k == |transitions| {
      assert transitions[..k] == transitions;
    } else {
      assert transitions[..k + 1][..k] == transitions[..k];
      ReplayFails(createdAt, transitions, k + 1);
    }
  }

  method ReplayLoop(createdAt: nat, transitions: seq<Transition>) returns (r: Option<Replayed>)
    ensures r == Replay(createdAt, transitions)
  {
    var state, last := Created, createdAt;
    var admitted: Option<nat>, started: Option<nat>, finished: Option<nat> := None, None, None;
    for k := 0 to |transitions|
      invariant Replay(createdAt, transitions[..k]) == Some(Replayed(state, last, admitted, started, finished))
    {
      var t := transitions[k];
      assert transitions[..k + 1][..k] == transitions[..k];
      if t.from != state || !state.CanBecome(t.to) || t.at < last {
        ReplayFails(createdAt, transitions, k + 1);
        return None;
      }
      state, last := t.to, t.at;
      if state == Admitted && admitted.None? { admitted := Some(t.at); }
      if state == Running && started.None? { started := Some(t.at); }
      if state.Terminal() { finished := Some(t.at); }
    }
    assert transitions[..|transitions|] == transitions;
    return Some(Replayed(state, last, admitted, started, finished));
  }

  method Validate(digest: Digester, s: Snapshot) returns (ok: bool)
    ensures ok <==> Valid(digest, s)
  {
    if !(MIN_RECORD_SCHEMA <= s.schema <= RECORD_SCHEMA) { return false; }
    var spec := ValidateSpec(s.spec);
    if !spec { return false; }
    var r := ReplayLoop(s.createdAt, s.transitions);
    if r.None? || r.value.state != s.state { return false; }
    if s.admittedAt != r.value.admitted || s.startedAt != r.value.started || s.finishedAt != r.value.finished {
      return false;
    }
    if s.schema >= 2 {
      match (s.admittedAt, s.evidence)
      case (Some(_), Some(e)) => ok := ValidateAgainst(digest, e, s.spec.workspace);
      case (None, None) => ok := true;
      case _ => ok := false;
    } else {
      ok := s.evidence.None?;
    }
  }

  // --------------------------------------------------------------- histories

  datatype Operation = DoAdmit(e: Evidence, at: nat) | DoMove(to: TaskState, at: nat)

  ghost function Perform(digest: Digester, s: Snapshot, op: Operation): (Snapshot, Result<(), TaskError>)
  {
    match op
    case DoAdmit(e, at) => Admit(digest, s, e, at)
    case DoMove(to, at) => Transit(s, to, at)
  }

  /** The record after a sequence of calls that all succeed. */
  ghost function Run(digest: Digester, s: Snapshot, ops: seq<Operation>): Option<Snapshot>
  {
    if ops == [] then Some(s) else
      var n := |ops| - 1;
      var before := Run(digest, s, ops[..n]);
      if before.None? then None else
        var (after, r) := Perform(digest, before.value, ops[n]);
        if r.Ok? then Some(after) else None
  }

  ghost predicate Reaches(digest: Digester, s: Snapshot, t: Snapshot)
  {
    exists ops :: Run(digest, s, ops) == Some(t)
  }

  /** The record is the outcome of a creation and successful calls. */
  ghost predicate Produced(digest: Digester, s: Snapshot)
  {
    exists spec, now :: Create(spec, now).Some? && Reaches(digest, Create(spec, now).value, s)
  }

  lemma ReplayLast(createdAt: nat, transitions: seq<Transition>)
    requires Replay(createdAt, transitions).Some?
    ensures Replay(createdAt, transitions).value.last == LastAt(createdAt, transitions)
  {
  }

  lemma ReplaySnoc(createdAt: nat, transitions: seq<Transition>, t: Transition)
    requires Replay(createdAt, transitions).Some?
    ensures Replay(createdAt, transitions + [t]) == Advance(Replay(createdAt, transitions).value, t)
  {
    assert (transitions + [t])[..|transitions|] == transitions;
  }

  /** A legal, timely move keeps the replay in step with the fields. */
  lemma MovedReplays(s: Snapshot, to: TaskState, now: nat)
    requires Replays(s) && s.state.CanBecome(to) && LastAt(s.createdAt, s.transitions) <= now
    ensures Replays(Moved(s, to, now))
  {
    ReplayLast(s.createdAt, s.transitions);
    ReplaySnoc(s.createdAt, s.transitions, Transition(s.state, to, now));
  }

  /** Before admission nothing has happened, and once the record has left Created
      it never returns. */
  lemma {:induction false} CreatedIsFresh(createdAt: nat, transitions: seq<Transition>)
    requires Replay(createdAt, transitions).Some?
    ensures var r := Replay(createdAt, transitions).value;
      && (r.state == Created <==> transitions == [])
      && (r.state in {Admitted, Running, Suspended, Succeeded, Terminated} ==> r.admitted.Some?)
      && (r.admitted.Some? <==> exists i :: 0 <= i < |transitions| && transitions[i].to == Admitted)
  {
    if transitions != [] {
      var n := |transitions| - 1;
      CreatedIsFresh(createdAt, transitions[..n]);
      if transitions[n].to != Admitted && Replay(createdAt, transitions).value.admitted.Some? {
        var i :| 0 <= i < n && transitions[..n][i].to == Admitted;
        assert transitions[i].to == Admitted;
      }
    }
  }

  /** How each state is reached: admission from creation; running from admission or
      suspension; suspension and success from running; termination from running or
      suspension; failure and cancellation from every state that is not an end. */
  lemma MovesInto(from: TaskState, to: TaskState)
    ensures from.CanBecome(to) <==>
      match to
      case Created => false
      case Admitted => from == Created
      case Running => from == Admitted || from == Suspended
      case Suspended => from == Running
      case Succeeded => from == Running
      case Terminated => from == Running || from == Suspended
      case Failed => from != Succeeded && from != Failed && from != Cancelled && from != Terminated
      case Cancelled => from != Succeeded && from != Failed && from != Cancelled && from != Terminated
  {
  }

  // ------------------------------------------------- what the times stand for

  /** The transition is the first one to that state. */
  predicate IsFirst(transitions: seq<Transition>, i: nat, to: TaskState)
  {
    && i < |transitions| && transitions[i].to == to
    && forall j :: 0 <= j < i ==> transitions[j].to != to
  }

  /** The time is that of the first transition to the state, if there is one. */
  ghost predicate TimeOfFirst(transitions: seq<Transition>, to: TaskState, time: Option<nat>)
  {
    match time
    case None => forall i :: 0 <= i < |transitions| ==> transitions[i].to != to
    case Some(at) => exists i: nat :: IsFirst(transitions, i, to) && transitions[i].at == at
  }

  lemma TimeOfFirstSnoc(transitions: seq<Transition>, to: TaskState, before: Option<nat>)
    requires transitions != [] && TimeOfFirst(transitions[..|transitions| - 1], to, before)
    ensures var last := transitions[|transitions| - 1];
      TimeOfFirst(transitions, to, if before.None? && last.to == to then Some(last.at) else before)
  {
    var n := |transitions| - 1;
    if before.Some? {
      var i: nat :| IsFirst(transitions[..n], i, to) && transitions[..n][i].at == before.value;
      assert IsFirst(transitions, i, to);
    } else if transitions[n].to == to {
      assert IsFirst(transitions, n, to);
    }
  }

  /** Running comes after admission and the end after everything, in time too. */
  ghost predicate TimesOrdered(createdAt: nat, r: Replayed)
  {
    && createdAt <= r.last
    && (r.admitted.Some? ==> createdAt <= r.admitted.value <= r.last)
    && (r.started.Some? ==> r.admitted.Some? && r.admitted.value <= r.started.value <= r.last)
    && (r.finished.Some? <==> r.state.Terminal())
    && (r.finished.Some? ==> r.finished.value == r.last)
  }

  lemma {:induction false} ReplayTimes(createdAt: nat, transitions: seq<Transition>)
    requires Replay(createdAt, transitions).Some?
    ensures var r := Replay(createdAt, transitions).value;
      && TimeOfFirst(transitions, Admitted, r.admitted) && TimeOfFirst(transitions, Running, r.started)
      && TimesOrdered(createdAt, r) && r.last == LastAt(createdAt, transitions)
    decreases |transitions|
  {
    if transitions != [] {
      var n := |transitions| - 1;
      ReplayTimes(createdAt, transitions[..n]);
      var before := Replay(createdAt, transitions[..n]).value;
      TimeOfFirstSnoc(transitions, Admitted, before.admitted);
      TimeOfFirstSnoc(transitions, Running, before.started);
      CreatedIsFresh(createdAt, transitions[..n]);
    }
  }

  /** The derived times of a valid record: admission and start are the times of the
      first transition to Admitted and to Running, the end is the time of the last
      transition of a finished record, and they follow one another. */
  lemma TimesAreExact(digest: Digester, s: Snapshot)
    requires Valid(digest, s)
    ensures TimeOfFirst(s.transitions, Admitted, s.admittedAt) && TimeOfFirst(s.transitions, Running, s.startedAt)
    ensures s.finishedAt.Some? <==> s.state.Terminal()
    ensures s.finishedAt.Some? ==> s.transitions != [] && s.finishedAt == Some(s.transitions[|s.transitions| - 1].at)
    ensures s.admittedAt.Some? ==> s.createdAt <= s.admittedAt.value
    ensures s.startedAt.Some? ==> s.admittedAt.Some? && s.admittedAt.value <= s.startedAt.value
    ensures s.startedAt.Some? && s.finishedAt.Some? ==> s.startedAt.value <= s.finishedAt.value
  {
    ReplayTimes(s.createdAt, s.transitions);
    CreatedIsFresh(s.createdAt, s.transitions);
  }

  // ------------------------------------------- valid means produced by calls

  /** What one successful call may change. */
  ghost predicate Extends(before: Snapshot, after: Snapshot)
  {
    && after.schema == before.schema && after.spec == before.spec && after.createdAt == before.createdAt
    && (before.evidence.Some? ==> after.evidence == before.evidence)
    && before.transitions <= after.transitions
  }

  lemma OperationKeeps(digest: Digester, s: Snapshot, op: Operation)
    requires Valid(digest, s) && s.schema == RECORD_SCHEMA && Perform(digest, s, op).1.Ok?
    ensures var after := Perform(digest, s, op).0;
      Valid(digest, after) && Extends(s, after) && |after.transitions| == |s.transitions| + 1
  {
    CreatedIsFresh(s.createdAt, s.transitions);
    match op
    case DoAdmit(e, at) => MovedReplays(s.(evidence := Some(e)), Admitted, at);
    case DoMove(to, at) => MovedReplays(s, to, at);
  }

  lemma {:induction false} RunKeeps(digest: Digester, s: Snapshot, ops: seq<Operation>)
    requires Valid(digest, s) && s.schema == RECORD_SCHEMA && Run(digest, s, ops).Some?
    ensures var after := Run(digest, s, ops).value;
      Valid(digest, after) && Extends(s, after) && |after.transitions| == |s.transitions| + |ops|
    decreases |ops|
  {
    if ops != [] {
      var n := |ops| - 1;
      RunKeeps(digest, s, ops[..n]);
      OperationKeeps(digest, Run(digest, s, ops[..n]).value, ops[n]);
    }
  }

  lemma PrefixReplays(createdAt: nat, transitions: seq<Transition>, k: nat)
    requires k <= |transitions| && Replay(createdAt, transitions).Some?
    ensures Replay(createdAt, transitions[..k]).Some?
  {
    if Replay(createdAt, transitions[..k]).None? { ReplayFails(createdAt, transitions, k); }
  }

  /** The record as it was after its first `k` transitions. */
  ghost function At(s: Snapshot, k: nat): Snapshot
    requires k <= |s.transitions|
  {
    match Replay(s.createdAt, s.transitions[..k])
    case None => s
    case Some(r) =>
      Snapshot(s.schema, s.spec, r.state, s.createdAt, if r.admitted.Some? then s.evidence else None,
               r.admitted, r.started, r.finished, s.transitions[..k])
  }

  /** The call that made a retained transition. */
  ghost function CallFor(s: Snapshot, t: Transition): Operation
  {
    if t.to == Admitted && s.evidence.Some? then DoAdmit(s.evidence.value, t.at) else DoMove(t.to, t.at)
  }

  ghost function Calls(s: Snapshot, j: nat): (ops: seq<Operation>)
    requires j <= |s.transitions|
  {
    seq(|s.transitions| - j, i requires 0 <= i < |s.transitions| - j => CallFor(s, s.transitions[j + i]))
  }

  lemma AdmittedHasEvidence(digest: Digester, s: Snapshot, k: nat)
    requires Valid(digest, s) && s.schema == RECORD_SCHEMA && k < |s.transitions| && s.transitions[k].to == Admitted
    ensures s.evidence.Some? && ValidAgainst(digest, s.evidence.value, s.spec.workspace)
  {
    CreatedIsFresh(s.createdAt, s.transitions);
  }

  lemma CallMakesTransition(digest: Digester, s: Snapshot, k: nat)
    requires Valid(digest, s) && s.schema == RECORD_SCHEMA && k < |s.transitions|
    ensures Perform(digest, At(s, k), CallFor(s, s.transitions[k])) == (At(s, k + 1), Ok(()))
  {
    PrefixReplays(s.createdAt, s.transitions, k);
    PrefixReplays(s.createdAt, s.transitions, k + 1);
    var done, t := s.transitions[..k], s.transitions[k];
    assert s.transitions[..k + 1] == done + [t];
    ReplaySnoc(s.createdAt, done, t);
    ReplayLast(s.createdAt, done);
    CreatedIsFresh(s.createdAt, done);
    if t.to == Admitted { AdmittedHasEvidence(digest, s, k); }
  }

  /** Calls that each succeed, from one listed state to the next. */
  ghost predicate Linked(digest: Digester, states: seq<Snapshot>, ops: seq<Operation>)
  {
    && |states| == |ops| + 1
    && forall i :: 0 <= i < |ops| ==> Perform(digest, states[i], ops[i]) == (states[i + 1], Ok(()))
  }

  lemma LinkedPrefix(digest: Digester, states: seq<Snapshot>, ops: seq<Operation>)
    requires Linked(digest, states, ops) && ops != []
    ensures Linked(digest, states[..|ops|], ops[..|ops| - 1])
  {
  }

  lemma RunSnoc(digest: Digester, s: Snapshot, ops: seq<Operation>, t: Snapshot, u: Snapshot)
    requires ops != [] && Run(digest, s, ops[..|ops| - 1]) == Some(t)
    requires Perform(digest, t, ops[|ops| - 1]) == (u, Ok(()))
    ensures Run(digest, s, ops) == Some(u)
  {
  }

  lemma {:induction false} LinkedRuns(digest: Digester, states: seq<Snapshot>, ops: seq<Operation>)
    requires Linked(digest, states, ops)
    ensures Run(digest, states[0], ops) == Some(states[|ops|])
    decreases |ops|
  {
    if ops != [] {
      var n := |ops| - 1;
      LinkedPrefix(digest, states, ops);
      LinkedRuns(digest, states[..n + 1], ops[..n]);
      RunSnoc(digest, states[0], ops, states[n], states[n + 1]);
    }
  }

  /** Making the calls again from any earlier point rebuilds the record. */
  lemma CallsRebuild(digest: Digester, s: Snapshot, j: nat)
    requires Valid(digest, s) && s.schema == RECORD_SCHEMA && j <= |s.transitions|
    ensures Run(digest, At(s, j), Calls(s, j)) == Some(s)
  {
    var n := |s.transitions| - j;
    var states := seq(n + 1, i requires 0 <= i < n + 1 => At(s, j + i));
    forall i | 0 <= i < n
      ensures Perform(digest, states[i], Calls(s, j)[i]) == (states[i + 1], Ok(()))
    {
      CallMakesTransition(digest, s, j + i);
    }
    LinkedRuns(digest, states, Calls(s, j));
    AtEnds(digest, s);
  }

  lemma AtEnds(digest: Digester, s: Snapshot)
    requires Valid(digest, s) && s.schema == RECORD_SCHEMA
    ensures At(s, |s.transitions|) == s
    ensures At(s, 0) == Fresh(s.spec, s.createdAt)
  {
    assert s.transitions[..|s.transitions|] == s.transitions;
  }

  /** A record of the current schema passes the replay check exactly when some
      sequence of successful calls produces it. */
  lemma ValidIffProduced(digest: Digester, s: Snapshot)
    ensures Valid(digest, s) && s.schema == RECORD_SCHEMA <==> Produced(digest, s)
  {
    if Valid(digest, s) && s.schema == RECORD_SCHEMA {
      AtEnds(digest, s);
      CallsRebuild(digest, s, 0);
      assert Create(s.spec, s.createdAt).Some? && Reaches(digest, Create(s.spec, s.createdAt).value, s);
    }
    if Produced(digest, s) {
      var spec, now :| Create(spec, now).Some? && Reaches(digest, Create(spec, now).value, s);
      var ops :| Run(digest, Fresh(spec, now), ops) == Some(s);
      RunKeeps(digest, Fresh(spec, now), ops);
    }
  }

  // ---------------------------------------------------------------- updates

  predicate EvidenceMoves(p: Snapshot, c: Snapshot)
  {
    match (p.evidence, c.evidence)
    case (Some(before), Some(after)) => before == after
    case (Some(_), None) => false
    case (None, Some(_)) => exists i :: |p.transitions| <= i < |c.transitions| && c.transitions[i].to == Admitted
    case (None, None) => true
  }

  /** Whether `c` may replace the stored snapshot `p`. */
  ghost predicate AcceptsUpdate(digest: Digester, p: Snapshot, c: Snapshot)
  {
    && Valid(digest, p) && Valid(digest, c)
    && p.schema == c.schema && p.spec == c.spec && p.createdAt == c.createdAt
    && EvidenceMoves(p, c)
    && p.transitions <= c.transitions
    && (|c.transitions| == |p.transitions| ==> c == p)
  }

  method CheckUpdate(digest: Digester, p: Snapshot, c: Snapshot) returns (ok: bool)
    ensures ok <==> AcceptsUpdate(digest, p, c)
  {
    var before := Validate(digest, p);
    var after := Validate(digest, c);
    return before && after
        && p.schema == c.schema && p.spec == c.spec && p.createdAt == c.createdAt
        && EvidenceMoves(p, c)
        && p.transitions <= c.transitions
        && (|c.transitions| == |p.transitions| ==> c == p);
  }

  lemma UpdateIsReached(digest: Digester, p: Snapshot, c: Snapshot)
    requires p.schema == RECORD_SCHEMA && AcceptsUpdate(digest, p, c)
    ensures Reaches(digest, p, c)
  {
    var k := |p.transitions|;
    assert c.transitions[..k] == p.transitions;
    AtEnds(digest, c);
    CallsRebuild(digest, c, k);
    assert At(c, k) == p;
  }

  lemma ReachedIsUpdate(digest: Digester, p: Snapshot, c: Snapshot, ops: seq<Operation>)
    requires p.schema == RECORD_SCHEMA && Valid(digest, p) && Run(digest, p, ops) == Some(c)
    ensures AcceptsUpdate(digest, p, c)
  {
    RunKeeps(digest, p, ops);
    CreatedIsFresh(p.createdAt, p.transitions);
    CreatedIsFresh(c.createdAt, c.transitions);
    assert forall j :: 0 <= j < |p.transitions| ==> p.transitions[j] == c.transitions[j];
    if p.evidence.None? && c.evidence.Some? {
      var i :| 0 <= i < |c.transitions| && c.transitions[i].to == Admitted;
      assert |p.transitions| <= i;
    }
  }

  /** A snapshot may replace another exactly when successful calls lead from the
      one to the other. */
  lemma UpdateIffReachable(digest: Digester, p: Snapshot, c: Snapshot)
    requires p.schema == RECORD_SCHEMA
    ensures AcceptsUpdate(digest, p, c) <==> Valid(digest, p) && Reaches(digest, p, c)
  {
    if AcceptsUpdate(digest, p, c) { UpdateIsReached(digest, p, c); }
    if Valid(digest, p) && Reaches(digest, p, c) {
      var ops :| Run(digest, p, ops) == Some(c);
      ReachedIsUpdate(digest, p, c, ops);
    }
  }

  /** Replacement is a partial order on valid snapshots, under either schema. */
  lemma UpdatesArePartialOrder(digest: Digester, a: Snapshot, b: Snapshot, c: Snapshot)
    ensures AcceptsUpdate(digest, a, a) <==> Valid(digest, a)
    ensures AcceptsUpdate(digest, a, b) && AcceptsUpdate(digest, b, a) ==> a == b
    ensures AcceptsUpdate(digest, a, b) && AcceptsUpdate(digest, b, c) ==> AcceptsUpdate(digest, a, c)
  {
    if AcceptsUpdate(digest, a, b) && AcceptsUpdate(digest, b, c) && a.evidence.None? && c.evidence.Some? {
      if b.evidence.Some? {
        var i :| |a.transitions| <= i < |b.transitions| && b.transitions[i].to == Admitted;
        assert c.transitions[i] == b.transitions[i];
      }
    }
  }

  lemma NothingFollowsFinish(createdAt: nat, before: seq<Transition>, after: seq<Transition>)
    requires before < after && Replay(createdAt, before).Some?
    requires Replay(createdAt, before).value.state.Terminal()
    ensures Replay(createdAt, after).None?
  {
    var k := |before|;
    assert after[..k + 1] == before + [after[k]];
    ReplaySnoc(createdAt, before, after[k]);
    ReplayFails(createdAt, after, k + 1);
  }

  /** A finished task can only be written again as it is. */
  lemma FinishedIsFinal(digest: Digester, p: Snapshot, c: Snapshot)
    requires AcceptsUpdate(digest, p, c) && p.state.Terminal()
    ensures c == p
  {
    if p.transitions < c.transitions { NothingFollowsFinish(p.createdAt, p.transitions, c.transitions); }
  }

  // ---------------------------------------------- when a call spoils a record

  /** A move never spoils a record, whether it succeeds or not. */
  lemma MoveKeepsValid(digest: Digester, s: Snapshot, to: TaskState, now: nat)
    requires Valid(digest, s)
    ensures Valid(digest, Transit(s, to, now).0)
    ensures Transit(s, to, now).1.Err? ==> Transit(s, to, now).0 == s
  {
    if Transit(s, to, now).1.Ok? { MovedReplays(s, to, now); }
  }

  /** An admission leaves a valid record exactly when it stores no evidence, or the
      record has the current schema and the clock has not gone backwards. */
  lemma AdmitKeepsValidIff(digest: Digester, s: Snapshot, e: Evidence, now: nat)
    requires Valid(digest, s)
    ensures Valid(digest, Admit(digest, s, e, now).0)
       <==> s.state != Created || !ValidAgainst(digest, e, s.spec.workspace)
            || (s.schema == RECORD_SCHEMA && s.createdAt <= now)
    ensures Admit(digest, s, e, now).1.Ok? <==>
      s.state == Created && ValidAgainst(digest, e, s.spec.workspace) && s.createdAt <= now
  {
    CreatedIsFresh(s.createdAt, s.transitions);
    if s.state == Created && s.createdAt <= now { MovedReplays(s.(evidence := Some(e)), Admitted, now); }
  }

  ghost function SmallSpec(): TaskSpec
  {
    TaskSpec(SPEC_SCHEMA, 0, 0, "p", WorkspaceSpec([], [], []), [], Budget(None, None, None, None, None), Process,
             false, [], false)
  }

  /** A task created at 10 and admitted at 9: the call fails, yet the evidence
      stays behind and the record no longer validates.  A record of the legacy
      schema is spoiled even by an admission that succeeds. */
  lemma AdmissionCanSpoil(digest: Digester)
    ensures var spec := SmallSpec(); var s := Fresh(spec, 10);
      var e := Evidence(EVIDENCE_SCHEMA, [], digest(spec.workspace, []));
      && Valid(digest, s) && Admit(digest, s, e, 9).1.Err? && !Valid(digest, Admit(digest, s, e, 9).0)
      && Valid(digest, s.(schema := 1)) && Admit(digest, s.(schema := 1), e, 10).1.Ok?
      && !Valid(digest, Admit(digest, s.(schema := 1), e, 10).0)
  {
    var spec := SmallSpec();
    var s := Fresh(spec, 10);
    var e := Evidence(EVIDENCE_SCHEMA, [], digest(spec.workspace, []));
    assert Utf8Length("p") == 1;
    assert IsMatching([], e.repositories, []);
    assert ValidAgainst(digest, e, spec.workspace);
    AdmitKeepsValidIff(digest, s, e, 9);
    AdmitKeepsValidIff(digest, s.(schema := 1), e, 10);
  }
}
