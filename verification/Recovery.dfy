/** What the daemon does with stored workflows when it starts: it first completes
    the cancellations that were asked for, then fails the workflows that were
    running.  Nothing executes at that time. */
module Recovery {
  import opened Keys
  import opened Runs
  import opened Workflows

  /** The text kept with a failure: one of the two recovery texts, or another. */
  datatype Message = CancellationRecovered | InterruptedByRestart | Text(text: string)

  datatype Run = Run(state: RunState, finishedAt: Option<nat>, transitions: seq<RunTransition>)

  /** An attempt with what recovery adds to it. */
  datatype Attempt = Attempt(made: StepAttempt, finishedAt: Option<nat>, failure: Option<Message>)

  datatype Step = Step(run: RunId, state: RunState, failure: Option<Message>, attempts: seq<Attempt>)

  datatype Flow = Flow(state: StoredState, intent: Option<nat>, finishedAt: Option<nat>, failure: Option<Message>,
                       steps: seq<Step>)

  type Stored = map<RunId, Run>
  type Flows = map<nat, Flow>

  datatype Hub = Hub(runs: Stored, flows: Flows)

  /** A stored run that is not terminal moves to the terminal state `to`. */
  function End(run: Run, to: RunState, now: nat): Run
    requires !run.state.Terminal() && to.Terminal() && run.state.CanBecome(to)
  {
    Run(to, Some(now), run.transitions + [RunTransition(run.state, to, now)])
  }

  predicate Live(runs: Stored, r: RunId)
  {
    r in runs && !runs[r].state.Terminal()
  }

  /** Of the stored runs, exactly the live ones in `hit` have ended. */
  ghost predicate RunsEnd(before: Stored, after: Stored, hit: set<RunId>, to: RunState, now: nat)
    requires to == RunFailed || to == RunCancelled
  {
    && after.Keys == before.Keys
    && forall r :: r in before ==>
       after[r] == if r in hit && Live(before, r) then End(before[r], to, now) else before[r]
  }

  lemma EndOneMore(before: Stored, after: Stored, hit: set<RunId>, r: RunId, to: RunState, now: nat)
    requires to == RunFailed || to == RunCancelled
    requires RunsEnd(before, after, hit, to, now) && Live(before, r) && r !in hit
    ensures Live(after, r)
    ensures RunsEnd(before, after[r := End(after[r], to, now)], hit + {r}, to, now)
  {
  }

  lemma EndedByName(before: Stored, after: Stored, hit: set<RunId>, w: Flow, now: nat)
    requires RunsEnd(before, after, hit, RunCancelled, now)
    requires forall r :: r in hit <==> Names(w, r) && Live(before, r)
    ensures after == CancelRuns(before, w, now)
  {
  }

  // ------------------------------------------------------------ who names what

  predicate StepNames(s: Step, r: RunId)
  {
    exists j :: 0 <= j < |s.attempts| && s.attempts[j].made.run == r
  }

  predicate Names(w: Flow, r: RunId)
  {
    exists i :: 0 <= i < |w.steps| && StepNames(w.steps[i], r)
  }

  predicate CancelPending(w: Flow)
  {
    !w.state.StoredEnded? && w.intent.Some?
  }

  predicate Interrupted(w: Flow)
  {
    w.state == StoredRunning && w.intent.None?
  }

  // ------------------------------------------------------ completing cancellations

  function CancelRuns(runs: Stored, w: Flow, now: nat): Stored
  {
    map r | r in runs :: if Names(w, r) && Live(runs, r) then End(runs[r], RunCancelled, now) else runs[r]
  }

  function CancelFlow(w: Flow, now: nat): Flow
  {
    w.(state := StoredEnded(WorkflowCancelled), finishedAt := Some(now), failure := Some(CancellationRecovered))
  }

  function CancelOne(hub: Hub, id: nat, now: nat): Hub
    requires id in hub.flows
  {
    var w := hub.flows[id];
    if CancelPending(w) then Hub(CancelRuns(hub.runs, w, now), hub.flows[id := CancelFlow(w, now)]) else hub
  }

  /** The pass over the first `k` listed workflows. */
  function CancelPass(hub: Hub, order: seq<nat>, k: nat, now: nat): (after: Hub)
    requires k <= |order| && forall i :: 0 <= i < |order| ==> order[i] in hub.flows
    ensures after.flows.Keys == hub.flows.Keys
  {
    if k == 0 then hub else CancelOne(CancelPass(hub, order, k - 1, now), order[k - 1], now)
  }

  // -------------------------------------------------------- failing interruptions

  function Mark(a: Attempt, now: nat): Attempt
  {
    a.(made := a.made.(state := RunFailed, category := Some(ExecutionError)), finishedAt := Some(now),
       failure := Some(InterruptedByRestart))
  }

  function FailAttempt(runs: Stored, s: Step, j: nat, now: nat): (Stored, Step)
    requires j < |s.attempts|
  {
    var a := s.attempts[j];
    if !Live(runs, a.made.run) then (runs, s) else
      var marked := s.(attempts := s.attempts[j := Mark(a, now)]);
      (runs[a.made.run := End(runs[a.made.run], RunFailed, now)],
       if s.run == a.made.run then marked.(state := RunFailed, failure := Some(InterruptedByRestart)) else marked)
  }

  function FailAttempts(runs: Stored, s: Step, k: nat, now: nat): (r: (Stored, Step))
    requires k <= |s.attempts|
    ensures |r.1.attempts| == |s.attempts|
  {
    if k == 0 then (runs, s) else
      var (before, t) := FailAttempts(runs, s, k - 1, now);
      FailAttempt(before, t, k - 1, now)
  }

  function FailSteps(runs: Stored, steps: seq<Step>, k: nat, now: nat): (r: (Stored, seq<Step>))
    requires k <= |steps|
    ensures |r.1| == |steps|
  {
    if k == 0 then (runs, steps) else
      var (before, done) := FailSteps(runs, steps, k - 1, now);
      var (after, s) := FailAttempts(before, steps[k - 1], |steps[k - 1].attempts|, now);
      (after, done[k - 1 := s])
  }

  function FailOne(hub: Hub, id: nat, now: nat): Hub
    requires id in hub.flows
  {
    var w := hub.flows[id];
    if !Interrupted(w) then hub else
      Hub(FailSteps(hub.runs, w.steps, |w.steps|, now).0, hub.flows[id := FailFlow(hub.runs, w, now)])
  }

  function FailFlow(runs: Stored, w: Flow, now: nat): Flow
  {
    w.(state := StoredEnded(WorkflowFailed), finishedAt := Some(now), failure := Some(InterruptedByRestart),
       steps := FailSteps(runs, w.steps, |w.steps|, now).1)
  }

  function FailPass(hub: Hub, order: seq<nat>, k: nat, now: nat): (after: Hub)
    requires k <= |order| && forall i :: 0 <= i < |order| ==> order[i] in hub.flows
    ensures after.flows.Keys == hub.flows.Keys
  {
    if k == 0 then hub else FailOne(FailPass(hub, order, k - 1, now), order[k - 1], now)
  }

  // ------------------------------------------------------------ the two passes

  /** The repositories the passes work on. */
  class Repositories {
    var runs: Stored
    var flows: Flows

    constructor (hub: Hub)
      ensures Contents() == hub
    {
      runs, flows := hub.runs, hub.flows;
    }

    function Contents(): Hub
      reads this
    {
      Hub(runs, flows)
    }

    method CancelNamedRuns(w: Flow, now: nat)
      modifies this`runs
      ensures runs == CancelRuns(old(runs), w, now)
    {
      var live := LiveRuns(w);
      ghost var hit: set<RunId> := {};
      while live != {}
        invariant forall r :: r in live || r in hit <==> Names(w, r) && Live(old(runs), r)
        invariant live !! hit
        invariant RunsEnd(old(runs), runs, hit, RunCancelled, now)
        decreases |live|
      {
        var r :| r in live;
        EndOneMore(old(runs), runs, hit, r, RunCancelled, now);
        runs := runs[r := End(runs[r], RunCancelled, now)];
        live := live - {r};
        hit := hit + {r};
      }
      EndedByName(old(runs), runs, hit, w, now);
    }

    method LiveRuns(w: Flow) returns (live: set<RunId>)
      ensures forall r :: r in live <==> Names(w, r) && Live(runs, r)
    {
      live := {};
      for i := 0 to |w.steps|
        invariant forall r :: r in live <==> Live(runs, r) && exists n :: 0 <= n < i && StepNames(w.steps[n], r)
      {
        var more := LiveRunsOf(w.steps[i]);
        live := live + more;
      }
    }

    method LiveRunsOf(s: Step) returns (live: set<RunId>)
      ensures forall r :: r in live <==> Live(runs, r) && StepNames(s, r)
    {
      live := {};
      for j := 0 to |s.attempts|
        invariant forall r :: r in live <==> Live(runs, r) && exists n :: 0 <= n < j && s.attempts[n].made.run == r
      {
        if Live(runs, s.attempts[j].made.run) { live := live + {s.attempts[j].made.run}; }
      }
    }

    method RecoverCancellations(order: seq<nat>, now: nat)
      requires forall i :: 0 <= i < |order| ==> order[i] in flows
      modifies this
      ensures Contents() == CancelPass(old(Contents()), order, |order|, now)
    {
      for k := 0 to |order|
        invariant Contents() == CancelPass(old(Contents()), order, k, now)
      {
        var w := flows[order[k]];
        if !w.state.StoredEnded? && w.intent.Some? {
          CancelNamedRuns(w, now);
          flows := flows[order[k] := CancelFlow(w, now)];
        }
      }
    }

    method FailStep(s: Step, now: nat) returns (t: Step)
      modifies this`runs
      ensures (runs, t) == FailAttempts(old(runs), s, |s.attempts|, now)
    {
      t := s;
      for j := 0 to |s.attempts|
        invariant |t.attempts| == |s.attempts|
        invariant (runs, t) == FailAttempts(old(runs), s, j, now)
      {
        var a := t.attempts[j];
        if a.made.run in runs && !runs[a.made.run].state.Terminal() {
          runs := runs[a.made.run := End(runs[a.made.run], RunFailed, now)];
          t := t.(attempts := t.attempts[j := Mark(a, now)]);
          if t.run == a.made.run { t := t.(state := RunFailed, failure := Some(InterruptedByRestart)); }
        }
      }
    }

    method FailAllSteps(steps: seq<Step>, now: nat) returns (done: seq<Step>)
      modifies this`runs
      ensures (runs, done) == FailSteps(old(runs), steps, |steps|, now)
    {
      done := steps;
      for i := 0 to |steps|
        invariant |done| == |steps| && done[i..] == steps[i..]
        invariant (runs, done) == FailSteps(old(runs), steps, i, now)
      {
        var s := FailStep(steps[i], now);
        done := done[i := s];
      }
    }

    method RecoverInterrupted(order: seq<nat>, now: nat)
      requires forall i :: 0 <= i < |order| ==> order[i] in flows
      modifies this
      ensures Contents() == FailPass(old(Contents()), order, |order|, now)
    {
      for k := 0 to |order|
        invariant Contents() == FailPass(old(Contents()), order, k, now)
      {
        var w := flows[order[k]];
        if w.state == StoredRunning && w.intent.None? {
          var steps := FailAllSteps(w.steps, now);
          flows := flows[order[k] := w.(state := StoredEnded(WorkflowFailed), finishedAt := Some(now),
                                        failure := Some(InterruptedByRestart), steps := steps)];
        }
      }
    }
  }

  // ------------------------------------------------------- what the passes do

  lemma EndsCompose(a: Stored, b: Stored, c: Stored, p: set<RunId>, q: set<RunId>, to: RunState, now: nat)
    requires to == RunFailed || to == RunCancelled
    requires RunsEnd(a, b, p, to, now) && RunsEnd(b, c, q, to, now)
    ensures RunsEnd(a, c, p + q, to, now)
  {
  }

  /** The runs of the first `k` attempts. */
  ghost function RunsTo(s: Step, k: nat): (named: set<RunId>)
    requires k <= |s.attempts|
    ensures forall r :: r in named <==> exists j :: 0 <= j < k && s.attempts[j].made.run == r
  {
    if k == 0 then {} else RunsTo(s, k - 1) + {s.attempts[k - 1].made.run}
  }

  /** The runs of the first `k` steps. */
  ghost function StepRuns(steps: seq<Step>, k: nat): (named: set<RunId>)
    requires k <= |steps|
    ensures forall r :: r in named <==> exists i :: 0 <= i < k && StepNames(steps[i], r)
  {
    if k == 0 then {} else StepRuns(steps, k - 1) + RunsTo(steps[k - 1], |steps[k - 1].attempts|)
  }

  ghost function FlowRuns(w: Flow): (named: set<RunId>)
    ensures forall r :: r in named <==> Names(w, r)
  {
    StepRuns(w.steps, |w.steps|)
  }

  /** The attempt is the first of its step whose run is live. */
  ghost predicate Marked(runs: Stored, s: Step, j: nat)
    requires j < |s.attempts|
  {
    Live(runs, s.attempts[j].made.run) && s.attempts[j].made.run !in RunsTo(s, j)
  }

  lemma FailAttemptEnds(runs: Stored, s: Step, j: nat, now: nat)
    requires j < |s.attempts|
    ensures RunsEnd(runs, FailAttempt(runs, s, j, now).0, {s.attempts[j].made.run}, RunFailed, now)
  {
  }

  lemma {:induction false} FailAttemptsEnd(runs: Stored, s: Step, k: nat, now: nat)
    requires k <= |s.attempts|
    ensures RunsEnd(runs, FailAttempts(runs, s, k, now).0, RunsTo(s, k), RunFailed, now)
    ensures forall j :: k <= j < |s.attempts| ==> FailAttempts(runs, s, k, now).1.attempts[j] == s.attempts[j]
    decreases k
  {
    if k > 0 {
      FailAttemptsEnd(runs, s, k - 1, now);
      var (before, t) := FailAttempts(runs, s, k - 1, now);
      FailAttemptEnds(before, t, k - 1, now);
      EndsCompose(runs, before, FailAttempts(runs, s, k, now).0, RunsTo(s, k - 1), {s.attempts[k - 1].made.run},
                  RunFailed, now);
    }
  }

  lemma FailAttemptAt(runs: Stored, s: Step, k: nat, now: nat, j: nat)
    requires k < |s.attempts| && j < |s.attempts|
    ensures |FailAttempt(runs, s, k, now).1.attempts| == |s.attempts|
    ensures FailAttempt(runs, s, k, now).1.attempts[j]
         == if j == k && Live(runs, s.attempts[k].made.run) then Mark(s.attempts[k], now) else s.attempts[j]
  {
  }

  /** Failing a step marks exactly the first attempt of each live run and touches
      no other attempt. */
  lemma {:induction false} AttemptsAreMarked(runs: Stored, s: Step, k: nat, now: nat, j: nat)
    requires k <= |s.attempts| && j < |s.attempts|
    ensures FailAttempts(runs, s, k, now).1.attempts[j]
         == if j < k && Marked(runs, s, j) then Mark(s.attempts[j], now) else s.attempts[j]
    decreases k
  {
    if k > 0 {
      AttemptsAreMarked(runs, s, k - 1, now, j);
      FailAttemptsEnd(runs, s, k - 1, now);
      var (before, t) := FailAttempts(runs, s, k - 1, now);
      FailAttemptAt(before, t, k - 1, now, j);
    }
  }

  /** The step itself is marked exactly when its run was live and named by one of its
      attempts. */
  lemma {:induction false} StepIsMarked(runs: Stored, s: Step, k: nat, now: nat)
    requires k <= |s.attempts|
    ensures var t := FailAttempts(runs, s, k, now).1;
      var hit := Live(runs, s.run) && s.run in RunsTo(s, k);
      && t.run == s.run
      && t.state == (if hit then RunFailed else s.state)
      && t.failure == (if hit then Some(InterruptedByRestart) else s.failure)
    decreases k
  {
    if k > 0 {
      StepIsMarked(runs, s, k - 1, now);
      FailAttemptsEnd(runs, s, k - 1, now);
    }
  }

  /** The same runs are named in the same places. */
  ghost predicate SameShape(a: seq<Step>, b: seq<Step>)
  {
    |a| == |b| && forall i :: 0 <= i < |a| ==> SameRuns(a[i], b[i])
  }

  ghost predicate SameRuns(a: Step, b: Step)
  {
    |a.attempts| == |b.attempts| && forall j :: 0 <= j < |a.attempts| ==>
      a.attempts[j].made.run == b.attempts[j].made.run
  }

  lemma FailKeepsRuns(runs: Stored, s: Step, now: nat)
    ensures SameRuns(s, FailAttempts(runs, s, |s.attempts|, now).1)
  {
    forall j | 0 <= j < |s.attempts|
      ensures FailAttempts(runs, s, |s.attempts|, now).1.attempts[j].made.run == s.attempts[j].made.run
    {
      AttemptsAreMarked(runs, s, |s.attempts|, now, j);
    }
  }

  lemma {:induction false} FailStepsEnd(runs: Stored, steps: seq<Step>, k: nat, now: nat)
    requires k <= |steps|
    ensures RunsEnd(runs, FailSteps(runs, steps, k, now).0, StepRuns(steps, k), RunFailed, now)
    decreases k
  {
    if k > 0 {
      FailStepsEnd(runs, steps, k - 1, now);
      var before, last := FailSteps(runs, steps, k - 1, now).0, steps[k - 1];
      FailAttemptsEnd(before, last, |last.attempts|, now);
      EndsCompose(runs, before, FailAttempts(before, last, |last.attempts|, now).0,
                  StepRuns(steps, k - 1), RunsTo(last, |last.attempts|), RunFailed, now);
    }
  }

  /** The run is live and no earlier step names it. */
  ghost predicate FreeAt(runs: Stored, steps: seq<Step>, i: nat, r: RunId)
    requires i < |steps|
  {
    Live(runs, r) && r !in StepRuns(steps, i)
  }

  /** The attempt is the first of the workflow that names its run, which is live. */
  ghost predicate MarkedIn(runs: Stored, steps: seq<Step>, i: nat, j: nat)
    requires i < |steps| && j < |steps[i].attempts|
  {
    var r := steps[i].attempts[j].made.run;
    FreeAt(runs, steps, i, r) && r !in RunsTo(steps[i], j)
  }

  /** The attempt is on record as failed by the interruption, and is otherwise the same. */
  predicate IsMarked(a: Attempt, after: Attempt, now: nat)
  {
    && after.made.id == a.made.id && after.made.number == a.made.number && after.made.run == a.made.run
    && after.made.state == RunFailed && after.made.category == Some(ExecutionError)
    && after.finishedAt == Some(now) && after.failure == Some(InterruptedByRestart)
  }

  /** What failing a workflow does to one of its steps: the first attempt that names a
      live run, in the order of steps and attempts, is marked, and no other. */
  ghost predicate StepSettled(runs: Stored, steps: seq<Step>, i: nat, after: Step, now: nat)
    requires i < |steps|
  {
    var s := steps[i];
    && after.run == s.run && |after.attempts| == |s.attempts|
    && (forall j :: 0 <= j < |s.attempts| ==>
          if MarkedIn(runs, steps, i, j) then IsMarked(s.attempts[j], after.attempts[j], now)
          else after.attempts[j] == s.attempts[j])
    && var hit := FreeAt(runs, steps, i, s.run) && s.run in RunsTo(s, |s.attempts|);
       && after.state == (if hit then RunFailed else s.state)
       && after.failure == (if hit then Some(InterruptedByRestart) else s.failure)
  }

  lemma FailStepSettles(runs: Stored, steps: seq<Step>, i: nat, before: Stored, now: nat)
    requires i < |steps| && RunsEnd(runs, before, StepRuns(steps, i), RunFailed, now)
    ensures StepSettled(runs, steps, i, FailAttempts(before, steps[i], |steps[i].attempts|, now).1, now)
  {
    var s := steps[i];
    StepIsMarked(before, s, |s.attempts|, now);
    assert forall r :: Live(before, r) <==> FreeAt(runs, steps, i, r);
    forall j | 0 <= j < |s.attempts|
      ensures FailAttempts(before, s, |s.attempts|, now).1.attempts[j]
           == if MarkedIn(runs, steps, i, j)
              then Mark(s.attempts[j], now) else s.attempts[j]
    {
      AttemptsAreMarked(before, s, |s.attempts|, now, j);
    }
  }

  lemma {:induction false} FailStepsSettle(runs: Stored, steps: seq<Step>, k: nat, now: nat, i: nat)
    requires i < k <= |steps|
    ensures StepSettled(runs, steps, i, FailSteps(runs, steps, k, now).1[i], now)
    decreases k
  {
    if i < k - 1 {
      FailStepsSettle(runs, steps, k - 1, now, i);
    } else {
      FailStepsEnd(runs, steps, i, now);
      FailStepSettles(runs, steps, i, FailSteps(runs, steps, i, now).0, now);
    }
  }

  lemma {:induction false} FailStepsShape(runs: Stored, steps: seq<Step>, k: nat, now: nat)
    requires k <= |steps|
    ensures SameShape(steps, FailSteps(runs, steps, k, now).1)
    decreases k
  {
    if k > 0 {
      FailStepsShape(runs, steps, k - 1, now);
      FailKeepsRuns(FailSteps(runs, steps, k - 1, now).0, steps[k - 1], now);
    }
  }

  // --------------------------------------------------------- over all workflows

  /** Each stored workflow is listed once. */
  ghost predicate IsList(order: seq<nat>, flows: Flows)
  {
    && NoDuplicates(order)
    && (forall i :: 0 <= i < |order| ==> order[i] in flows)
    && forall id :: id in flows ==> id in order
  }

  ghost function Needing(flows: Flows, order: seq<nat>, k: nat, cancel: bool): (named: set<RunId>)
    requires k <= |order| && forall i :: 0 <= i < |order| ==> order[i] in flows
  {
    if k == 0 then {} else
      var earlier, w := Needing(flows, order, k - 1, cancel), flows[order[k - 1]];
      if Needs(w, cancel) then earlier + FlowRuns(w) else earlier
  }

  /** The workflow is taken up by the cancellation pass, or by the other one. */
  predicate Needs(w: Flow, cancel: bool)
  {
    if cancel then CancelPending(w) else Interrupted(w)
  }

  ghost predicate Hit(flows: Flows, cancel: bool, r: RunId)
  {
    exists id :: id in flows && Needs(flows[id], cancel) && Names(flows[id], r)
  }

  lemma {:induction false} NeedingIs(flows: Flows, order: seq<nat>, k: nat, cancel: bool, r: RunId)
    requires k <= |order| && forall i :: 0 <= i < |order| ==> order[i] in flows
    ensures r in Needing(flows, order, k, cancel)
       <==> exists i :: 0 <= i < k && Needs(flows[order[i]], cancel) && Names(flows[order[i]], r)
    decreases k
  {
    if k > 0 { NeedingIs(flows, order, k - 1, cancel, r); }
  }

  lemma NeedingIsHit(flows: Flows, order: seq<nat>, cancel: bool, r: RunId)
    requires IsList(order, flows)
    ensures r in Needing(flows, order, |order|, cancel) <==> Hit(flows, cancel, r)
  {
    NeedingIs(flows, order, |order|, cancel, r);
    if Hit(flows, cancel, r) {
      var id :| id in flows && Needs(flows[id], cancel) && Names(flows[id], r);
      var i :| 0 <= i < |order| && order[i] == id;
      assert Needs(flows[order[i]], cancel) && Names(flows[order[i]], r);
    }
  }

  lemma CancelRunsEnd(runs: Stored, w: Flow, now: nat)
    ensures RunsEnd(runs, CancelRuns(runs, w, now), FlowRuns(w), RunCancelled, now)
  {
  }

  /** The listed workflows up to `k` that needed it were changed by `change`. */
  ghost predicate FlowsMoved(before: Flows, after: Flows, order: seq<nat>, k: nat, cancel: bool, now: nat)
    requires k <= |order| && forall i :: 0 <= i < |order| ==> order[i] in before
  {
    && after.Keys == before.Keys
    && forall id :: id in before ==>
         if id in order[..k] && Needs(before[id], cancel) then Settled(before[id], after[id], cancel, now)
         else after[id] == before[id]
  }

  ghost predicate Settled(w: Flow, v: Flow, cancel: bool, now: nat)
  {
    && v.state == StoredEnded(if cancel then WorkflowCancelled else WorkflowFailed) && w.state.CanBecome(v.state)
    && v.intent == w.intent && v.finishedAt == Some(now)
    && v.failure == Some(if cancel then CancellationRecovered else InterruptedByRestart)
    && SameShape(w.steps, v.steps)
    && (cancel ==> v.steps == w.steps)
  }

  lemma NotYet(order: seq<nat>, k: nat)
    requires NoDuplicates(order) && 0 < k <= |order|
    ensures order[k - 1] !in order[..k - 1]
    ensures forall id :: id in order[..k] <==> id in order[..k - 1] || id == order[k - 1]
  {
    assert order[..k] == order[..k - 1] + [order[k - 1]];
  }

  lemma FlowsMoveOn(before: Flows, mid: Flows, v: Flow, order: seq<nat>, k: nat, cancel: bool, now: nat)
    requires 0 < k <= |order| && IsList(order, before) && FlowsMoved(before, mid, order, k - 1, cancel, now)
    requires Needs(before[order[k - 1]], cancel) && Settled(before[order[k - 1]], v, cancel, now)
    ensures mid[order[k - 1]] == before[order[k - 1]]
    ensures FlowsMoved(before, mid[order[k - 1] := v], order, k, cancel, now)
  {
    NotYet(order, k);
  }

  lemma FlowsStay(before: Flows, mid: Flows, order: seq<nat>, k: nat, cancel: bool, now: nat)
    requires 0 < k <= |order| && IsList(order, before) && FlowsMoved(before, mid, order, k - 1, cancel, now)
    requires !Needs(before[order[k - 1]], cancel)
    ensures mid[order[k - 1]] == before[order[k - 1]]
    ensures FlowsMoved(before, mid, order, k, cancel, now)
  {
    NotYet(order, k);
  }

  lemma CancelSettles(w: Flow, now: nat)
    requires CancelPending(w)
    ensures Settled(w, CancelFlow(w, now), true, now)
  {
  }

  lemma CancelOneMoves(before: Flows, mid: Hub, order: seq<nat>, k: nat, now: nat)
    requires 0 < k <= |order| && IsList(order, before) && FlowsMoved(before, mid.flows, order, k - 1, true, now)
    ensures FlowsMoved(before, CancelOne(mid, order[k - 1], now).flows, order, k, true, now)
  {
    var w := before[order[k - 1]];
    if CancelPending(w) {
      CancelSettles(w, now);
      FlowsMoveOn(before, mid.flows, CancelFlow(w, now), order, k, true, now);
    } else {
      FlowsStay(before, mid.flows, order, k, true, now);
    }
  }

  lemma {:induction false} CancelPassMoves(hub: Hub, order: seq<nat>, k: nat, now: nat)
    requires k <= |order| && IsList(order, hub.flows)
    ensures FlowsMoved(hub.flows, CancelPass(hub, order, k, now).flows, order, k, true, now)
    decreases k
  {
    if k > 0 {
      CancelPassMoves(hub, order, k - 1, now);
      CancelOneMoves(hub.flows, CancelPass(hub, order, k - 1, now), order, k, now);
    }
  }

  lemma {:induction false} CancelPassEnds(hub: Hub, order: seq<nat>, k: nat, now: nat)
    requires k <= |order| && IsList(order, hub.flows)
    ensures RunsEnd(hub.runs, CancelPass(hub, order, k, now).runs, Needing(hub.flows, order, k, true), RunCancelled,
                    now)
    decreases k
  {
    if k > 0 {
      CancelPassEnds(hub, order, k - 1, now);
      UntouchedByCancel(hub, order, k - 1, now, order[k - 1]);
      var mid, w := CancelPass(hub, order, k - 1, now), hub.flows[order[k - 1]];
      if CancelPending(w) {
        CancelRunsEnd(mid.runs, w, now);
        EndsCompose(hub.runs, mid.runs, CancelRuns(mid.runs, w, now), Needing(hub.flows, order, k - 1, true),
                    FlowRuns(w), RunCancelled, now);
      }
    }
  }

  lemma UntouchedByCancel(hub: Hub, order: seq<nat>, k: nat, now: nat, id: nat)
    requires k < |order| && IsList(order, hub.flows) && id == order[k]
    ensures CancelPass(hub, order, k, now).flows[id] == hub.flows[id]
  {
    CancelPassMoves(hub, order, k, now);
    NotYet(order, k + 1);
  }

  lemma FailOneMoves(before: Flows, mid: Hub, order: seq<nat>, k: nat, now: nat)
    requires 0 < k <= |order| && IsList(order, before) && FlowsMoved(before, mid.flows, order, k - 1, false, now)
    ensures FlowsMoved(before, FailOne(mid, order[k - 1], now).flows, order, k, false, now)
  {
    var w := before[order[k - 1]];
    if Interrupted(w) {
      FailSettles(mid.runs, w, now);
      FlowsMoveOn(before, mid.flows, FailFlow(mid.runs, w, now), order, k, false, now);
    } else {
      FlowsStay(before, mid.flows, order, k, false, now);
    }
  }

  lemma FailSettles(runs: Stored, w: Flow, now: nat)
    requires Interrupted(w)
    ensures Settled(w, FailFlow(runs, w, now), false, now)
  {
    FailStepsShape(runs, w.steps, |w.steps|, now);
  }

  lemma {:induction false} FailPassMoves(hub: Hub, order: seq<nat>, k: nat, now: nat)
    requires k <= |order| && IsList(order, hub.flows)
    ensures FlowsMoved(hub.flows, FailPass(hub, order, k, now).flows, order, k, false, now)
    decreases k
  {
    if k > 0 {
      FailPassMoves(hub, order, k - 1, now);
      FailOneMoves(hub.flows, FailPass(hub, order, k - 1, now), order, k, now);
    }
  }

  lemma {:induction false} FailPassEnds(hub: Hub, order: seq<nat>, k: nat, now: nat)
    requires k <= |order| && IsList(order, hub.flows)
    ensures RunsEnd(hub.runs, FailPass(hub, order, k, now).runs, Needing(hub.flows, order, k, false), RunFailed, now)
    decreases k
  {
    if k > 0 {
      FailPassEnds(hub, order, k - 1, now);
      UntouchedByFail(hub, order, k - 1, now, order[k - 1]);
      var mid, w := FailPass(hub, order, k - 1, now), hub.flows[order[k - 1]];
      if Interrupted(w) {
        FailStepsEnd(mid.runs, w.steps, |w.steps|, now);
        EndsCompose(hub.runs, mid.runs, FailSteps(mid.runs, w.steps, |w.steps|, now).0,
                    Needing(hub.flows, order, k - 1, false), FlowRuns(w), RunFailed, now);
      }
    }
  }

  lemma UntouchedByFail(hub: Hub, order: seq<nat>, k: nat, now: nat, id: nat)
    requires k < |order| && IsList(order, hub.flows) && id == order[k]
    ensures FailPass(hub, order, k, now).flows[id] == hub.flows[id]
  {
    FailPassMoves(hub, order, k, now);
    NotYet(order, k + 1);
  }

  // ------------------------------------------------------------------ recovery

  /** The daemon's start: one pass, then the other, each in some listing order. */
  ghost function Recover(hub: Hub, first: seq<nat>, second: seq<nat>, t: nat, u: nat): Hub
    requires IsList(first, hub.flows) && IsList(second, hub.flows)
  {
    var mid := CancelPass(hub, first, |first|, t);
    FailPass(mid, second, |second|, u)
  }

  /** What a pass over everything does to the stored runs. */
  ghost predicate PassEnds(before: Hub, after: Stored, cancel: bool, now: nat)
  {
    && after.Keys == before.runs.Keys
    && forall r :: r in before.runs ==>
         after[r] == if Hit(before.flows, cancel, r) && Live(before.runs, r)
                     then End(before.runs[r], if cancel then RunCancelled else RunFailed, now) else before.runs[r]
  }

  lemma PassIsExact(before: Hub, after: Stored, order: seq<nat>, cancel: bool, now: nat)
    requires IsList(order, before.flows)
    requires RunsEnd(before.runs, after, Needing(before.flows, order, |order|, cancel),
                     if cancel then RunCancelled else RunFailed, now)
    ensures PassEnds(before, after, cancel, now)
  {
    forall r | r in before.runs
      ensures r in Needing(before.flows, order, |order|, cancel) <==> Hit(before.flows, cancel, r)
    {
      NeedingIsHit(before.flows, order, cancel, r);
    }
  }

  /** What a pass over everything does to the stored workflows. */
  ghost predicate PassMoves(before: Flows, after: Flows, cancel: bool, now: nat)
  {
    && after.Keys == before.Keys
    && forall id :: id in before ==>
         if Needs(before[id], cancel) then Settled(before[id], after[id], cancel, now) else after[id] == before[id]
  }

  lemma WholeList(before: Flows, after: Flows, order: seq<nat>, cancel: bool, now: nat)
    requires IsList(order, before) && FlowsMoved(before, after, order, |order|, cancel, now)
    ensures PassMoves(before, after, cancel, now)
  {
    assert order[..|order|] == order;
  }

  lemma TwoPasses(hub: Hub, first: seq<nat>, second: seq<nat>, t: nat, u: nat)
    requires IsList(first, hub.flows) && IsList(second, hub.flows)
    ensures var mid := CancelPass(hub, first, |first|, t);
      var after := Recover(hub, first, second, t, u);
      && PassEnds(hub, mid.runs, true, t) && PassMoves(hub.flows, mid.flows, true, t)
      && PassEnds(mid, after.runs, false, u) && PassMoves(mid.flows, after.flows, false, u)
  {
    var mid := CancelPass(hub, first, |first|, t);
    CancelPassMoves(hub, first, |first|, t);
    WholeList(hub.flows, mid.flows, first, true, t);
    CancelPassEnds(hub, first, |first|, t);
    PassIsExact(hub, mid.runs, first, true, t);
    var after := Recover(hub, first, second, t, u);
    FailPassMoves(mid, second, |second|, u);
    WholeList(mid.flows, after.flows, second, false, u);
    FailPassEnds(mid, second, |second|, u);
    PassIsExact(mid, after.runs, second, false, u);
  }

  /** The first pass leaves the interrupted workflows as they were. */
  lemma SameInterrupted(before: Flows, mid: Flows, t: nat)
    requires PassMoves(before, mid, true, t)
    ensures forall id :: id in before && Interrupted(before[id]) ==> mid[id] == before[id]
    ensures forall id :: id in before && Interrupted(mid[id]) ==> mid[id] == before[id]
  {
  }

  lemma SameHits(before: Flows, mid: Flows, t: nat, r: RunId)
    requires PassMoves(before, mid, true, t)
    ensures Hit(mid, false, r) <==> Hit(before, false, r)
  {
    SameInterrupted(before, mid, t);
    if Hit(before, false, r) {
      var id :| id in before && Needs(before[id], false) && Names(before[id], r);
      assert id in mid && Needs(mid[id], false) && Names(mid[id], r);
    }
    if Hit(mid, false, r) {
      var id :| id in mid && Needs(mid[id], false) && Names(mid[id], r);
      assert id in before && Needs(before[id], false) && Names(before[id], r);
    }
  }

  /** From any stored state, in whatever order the workflows are listed: a workflow
      is left unfinished only if nothing had started and nobody had asked to cancel
      it; those taken up are settled and all others are untouched; of the stored
      runs exactly the live ones named by a taken-up workflow end, cancelled where a
      cancellation was pending and failed otherwise. */
  lemma RecoveryIsExact(hub: Hub, first: seq<nat>, second: seq<nat>, t: nat, u: nat)
    requires IsList(first, hub.flows) && IsList(second, hub.flows)
    ensures var after := Recover(hub, first, second, t, u);
      && after.flows.Keys == hub.flows.Keys && after.runs.Keys == hub.runs.Keys
      && (forall id :: id in hub.flows ==>
            if CancelPending(hub.flows[id]) then Settled(hub.flows[id], after.flows[id], true, t)
            else if Interrupted(hub.flows[id]) then Settled(hub.flows[id], after.flows[id], false, u)
            else after.flows[id] == hub.flows[id])
      && (forall id :: id in after.flows && !after.flows[id].state.StoredEnded? ==>
            after.flows[id].state == StoredCreated && after.flows[id].intent.None?)
  {
    TwoPasses(hub, first, second, t, u);
    SameInterrupted(hub.flows, CancelPass(hub, first, |first|, t).flows, t);
  }

  /** The run has come to an end by one more transition. */
  predicate HasEnded(run: Run, after: Run, to: RunState, now: nat)
  {
    && after.state == to && after.finishedAt == Some(now)
    && |after.transitions| == |run.transitions| + 1 && run.transitions <= after.transitions
    && after.transitions[|run.transitions|].from == run.state && after.transitions[|run.transitions|].to == to
    && after.transitions[|run.transitions|].at == now
  }

  lemma RecoveryEndsRuns(hub: Hub, first: seq<nat>, second: seq<nat>, t: nat, u: nat, r: RunId)
    requires IsList(first, hub.flows) && IsList(second, hub.flows) && r in hub.runs
    ensures r in Recover(hub, first, second, t, u).runs
    ensures var run, after := hub.runs[r], Recover(hub, first, second, t, u).runs[r];
      if !Live(hub.runs, r) then after == run
      else if Hit(hub.flows, true, r) then HasEnded(run, after, RunCancelled, t)
      else if Hit(hub.flows, false, r) then HasEnded(run, after, RunFailed, u)
      else after == run
  {
    TwoPasses(hub, first, second, t, u);
    SameHits(hub.flows, CancelPass(hub, first, |first|, t).flows, t, r);
  }

  // ------------------------------------------------- what happens to attempts

  lemma {:induction false} FailPassSteps(hub: Hub, order: seq<nat>, k: nat, now: nat, p: nat)
    requires p < k <= |order| && IsList(order, hub.flows) && Interrupted(hub.flows[order[p]])
    ensures FailPass(hub, order, k, now).flows[order[p]]
         == FailFlow(FailPass(hub, order, p, now).runs, hub.flows[order[p]], now)
    decreases k
  {
    if p < k - 1 {
      FailPassSteps(hub, order, k - 1, now, p);
      assert order[p] != order[k - 1];
    } else {
      UntouchedByFail(hub, order, p, now, order[p]);
    }
  }

  /** The run is live when the second pass comes to the `p`-th listed workflow: it was
      live, and neither a pending cancellation nor an earlier listed workflow that was
      running names it. */
  ghost predicate LiveAt(hub: Hub, second: seq<nat>, p: nat, r: RunId)
    requires p <= |second| && IsList(second, hub.flows)
  {
    Live(hub.runs, r) && !Hit(hub.flows, true, r) && r !in Needing(hub.flows, second, p, false)
  }

  lemma SameNeeding(before: Flows, mid: Flows, order: seq<nat>, p: nat, t: nat, r: RunId)
    requires PassMoves(before, mid, true, t) && p <= |order| && IsList(order, before)
    ensures forall i :: 0 <= i < |order| ==> order[i] in mid
    ensures r in Needing(mid, order, p, false) <==> r in Needing(before, order, p, false)
  {
    SameInterrupted(before, mid, t);
    NeedingIs(before, order, p, false, r);
    NeedingIs(mid, order, p, false, r);
    forall i | 0 <= i < p
      ensures Needs(mid[order[i]], false) && Names(mid[order[i]], r) <==>
        Needs(before[order[i]], false) && Names(before[order[i]], r)
    {
      assert order[i] in before;
    }
  }

  lemma LiveInSecondPass(hub: Hub, first: seq<nat>, second: seq<nat>, t: nat, u: nat, p: nat, r: RunId)
    requires IsList(first, hub.flows) && IsList(second, hub.flows) && p < |second|
    ensures var mid := CancelPass(hub, first, |first|, t);
      Live(FailPass(mid, second, p, u).runs, r) <==> LiveAt(hub, second, p, r)
  {
    var mid := CancelPass(hub, first, |first|, t);
    CancelPassMoves(hub, first, |first|, t);
    WholeList(hub.flows, mid.flows, first, true, t);
    CancelPassEnds(hub, first, |first|, t);
    PassIsExact(hub, mid.runs, first, true, t);
    SameNeeding(hub.flows, mid.flows, second, p, t, r);
    FailPassEnds(mid, second, p, u);
  }

  /** The record of a run as its workflow's turn in the second pass finds it. */
  lemma LiveIsSame(runs: Stored, other: Stored, steps: seq<Step>, i: nat, after: Step, now: nat)
    requires i < |steps| && StepSettled(runs, steps, i, after, now)
    requires forall r :: Live(runs, r) <==> Live(other, r)
    ensures StepSettled(other, steps, i, after, now)
  {
    assert forall r :: FreeAt(runs, steps, i, r) <==> FreeAt(other, steps, i, r);
    assert forall j :: 0 <= j < |steps[i].attempts| ==> MarkedIn(runs, steps, i, j) == MarkedIn(other, steps, i, j);
  }

  /** The runs that are live when the second pass comes to the `p`-th workflow. */
  ghost function Surviving(hub: Hub, second: seq<nat>, p: nat): Stored
    requires p <= |second| && IsList(second, hub.flows)
  {
    map r | r in hub.runs && LiveAt(hub, second, p, r) :: hub.runs[r]
  }

  /** In a workflow that was running, wherever it stands in the list, exactly the first
      attempt that names each surviving run is marked failed, and each step exactly
      when its own run is among those; every other attempt stays as it was. */
  lemma RecoveryMarksAttempts(hub: Hub, first: seq<nat>, second: seq<nat>, t: nat, u: nat, p: nat, i: nat)
    requires IsList(first, hub.flows) && IsList(second, hub.flows) && p < |second|
    requires Interrupted(hub.flows[second[p]]) && i < |hub.flows[second[p]].steps|
    ensures second[p] in Recover(hub, first, second, t, u).flows
    ensures |Recover(hub, first, second, t, u).flows[second[p]].steps| == |hub.flows[second[p]].steps|
    ensures StepSettled(Surviving(hub, second, p), hub.flows[second[p]].steps, i,
                        Recover(hub, first, second, t, u).flows[second[p]].steps[i], u)
  {
    var mid := CancelPass(hub, first, |first|, t);
    CancelPassMoves(hub, first, |first|, t);
    WholeList(hub.flows, mid.flows, first, true, t);
    SameInterrupted(hub.flows, mid.flows, t);
    var w := hub.flows[second[p]];
    assert mid.flows[second[p]] == w;
    FailPassSteps(mid, second, |second|, u, p);
    var runs := FailPass(mid, second, p, u).runs;
    FailStepsSettle(runs, w.steps, |w.steps|, u, i);
    forall r: RunId
      ensures Live(runs, r) <==> Live(Surviving(hub, second, p), r)
    {
      LiveInSecondPass(hub, first, second, t, u, p, r);
    }
    LiveIsSame(runs, Surviving(hub, second, p), w.steps, i, FailSteps(runs, w.steps, |w.steps|, u).1[i], u);
  }

  /** Recovering again, at whatever later time, changes nothing. */
  lemma RecoveryIsIdempotent(hub: Hub, first: seq<nat>, second: seq<nat>, t: nat, u: nat,
                             third: seq<nat>, fourth: seq<nat>, v: nat, w: nat)
    requires IsList(first, hub.flows) && IsList(second, hub.flows) && IsList(third, hub.flows)
      && IsList(fourth, hub.flows)
    ensures var after := Recover(hub, first, second, t, u);
      IsList(third, after.flows) && IsList(fourth, after.flows) && Recover(after, third, fourth, v, w) == after
  {
    RecoveryIsExact(hub, first, second, t, u);
    NothingToRecover(Recover(hub, first, second, t, u), third, fourth, v, w);
  }

  lemma NothingToRecover(hub: Hub, first: seq<nat>, second: seq<nat>, t: nat, u: nat)
    requires IsList(first, hub.flows) && IsList(second, hub.flows)
    requires forall id :: id in hub.flows && !hub.flows[id].state.StoredEnded? ==>
      hub.flows[id].state == StoredCreated && hub.flows[id].intent.None?
    ensures Recover(hub, first, second, t, u) == hub
  {
    var after := Recover(hub, first, second, t, u);
    RecoveryIsExact(hub, first, second, t, u);
    assert after.flows == hub.flows;
    forall r | r in hub.runs
      ensures r in after.runs && after.runs[r] == hub.runs[r]
    {
      RecoveryEndsRuns(hub, first, second, t, u, r);
    }
    assert after.runs.Keys == hub.runs.Keys;
    assert after.runs == hub.runs;
  }
}
