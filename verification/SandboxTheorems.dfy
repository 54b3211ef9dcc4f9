/** The guarantees of the sandbox protocol, over every run: any number of
    controllers, a crash at any point, and a daemon that acts late or never. */
module SandboxTheorems {
  import opened Keys
  import opened Sandbox
  import opened SandboxSafety

  ghost predicate Reached(start: World, actions: seq<Action>, w: World)
  {
    Initial(start) && Run(start, actions) == Some(w)
  }

  lemma ReachedOk(start: World, actions: seq<Action>, w: World)
    requires Reached(start, actions, w)
    ensures Inv(w)
  {
    InitialOk(start);
    RunOk(start, actions);
  }

  // ------------------------------------------------------------ own, then act

  /** The controller that advances is executing and its task's record says it owns
      the container. */
  ghost predicate Entitled(w: World, a: Action, id: ContainerId)
  {
    && a.Advance? && a.pid in w.controllers
    && !IsReconciler(w.controllers[a.pid].pc)
    && LockedBy(w, w.controllers[a.pid].task, a.pid)
    && exists attempt :: OwnedBy(w.journal, w.controllers[a.pid].task, attempt, id)
  }

  lemma ExecutorEntitled(w: World, pid: Pid, g: AttemptId, id: ContainerId)
    requires pid in w.controllers && ControllerOk(w, pid) && !IsReconciler(w.controllers[pid].pc)
      && ExecuteStep(w, pid, g).Some?
    requires
      var d := ExecuteStep(w, pid, g).value.daemon;
      (id in d.starts && id !in w.daemon.starts) || (id in d.removes && id !in w.daemon.removes)
    ensures Entitled(w, Advance(pid, g), id)
  {
    var c := w.controllers[pid];
    assert OwnedBy(w.journal, c.task, c.pc.attempt, id);
  }

  lemma NewCommandIsEntitled(w: World, a: Action, id: ContainerId)
    requires Inv(w) && Next(w, a).Some?
    requires
      var d := Next(w, a).value.daemon;
      (id in d.starts && id !in w.daemon.starts) || (id in d.removes && id !in w.daemon.removes)
    ensures Entitled(w, a, id)
  {
    if a.Advance? {
      assert ControllerOk(w, a.pid);
      ExecutorEntitled(w, a.pid, a.generated, id);
    }
  }

  /** A start or a removal is only ever issued for a container whose identity is
      already journalled as owned by that very attempt, by a controller that holds
      its agent task's lock and is not reconciling. */
  lemma CommandsNeedOwnership(start: World, actions: seq<Action>, w: World, a: Action, id: ContainerId)
    requires Reached(start, actions, w) && Next(w, a).Some?
    requires
      var d := Next(w, a).value.daemon;
      (id in d.starts && id !in w.daemon.starts) || (id in d.removes && id !in w.daemon.removes)
    ensures Entitled(w, a, id)
  {
    ReachedOk(start, actions, w);
    NewCommandIsEntitled(w, a, id);
  }

  /** So whatever runs, however late it was started, is on record, and no task is
      ever started twice. */
  lemma RunningIsOnRecord(start: World, actions: seq<Action>, w: World)
    requires Reached(start, actions, w)
    ensures forall c :: c in w.daemon.containers && w.daemon.containers[c].Ours? && w.daemon.containers[c].running ==>
      OnRecord(w.journal, c)
    ensures NoDuplicates(w.startLog)
  {
    ReachedOk(start, actions, w);
  }

  /** Nothing was added to what the daemon has been told. */
  ghost predicate NothingSent(w: World, v: World)
  {
    && v.daemon.starts <= w.daemon.starts && v.daemon.removes <= w.daemon.removes
    && v.daemon.creates.Keys <= w.daemon.creates.Keys && v.startLog == w.startLog
  }

  /** No executing controller takes a step. */
  ghost predicate OnlyReconciling(w: World, actions: seq<Action>)
  {
    forall k :: 0 <= k < |actions| && actions[k].Advance? && Run(w, actions[..k]).Some? ==>
      actions[k].pid in Run(w, actions[..k]).value.controllers
      && IsReconciler(Run(w, actions[..k]).value.controllers[actions[k].pid].pc)
  }

  lemma QuietStep(w: World, a: Action)
    requires Next(w, a).Some? && (a.Advance? ==> IsReconciler(w.controllers[a.pid].pc))
    ensures NothingSent(w, Next(w, a).value)
  {
  }

  /** Reconciliation only reads: in a run in which executing controllers take no step,
      whatever reconcilers, crashes, arrivals and the daemon do, no create, start or
      removal is sent and no start is logged. */
  lemma {:induction false} ReconcilingSendsNothing(w: World, actions: seq<Action>)
    requires Run(w, actions).Some? && OnlyReconciling(w, actions)
    ensures NothingSent(w, Run(w, actions).value)
    decreases |actions|
  {
    if actions != [] {
      var n := |actions| - 1;
      OnlyReconcilingPrefix(w, actions);
      ReconcilingSendsNothing(w, actions[..n]);
      QuietStep(Run(w, actions[..n]).value, actions[n]);
    }
  }

  lemma OnlyReconcilingPrefix(w: World, actions: seq<Action>)
    requires actions != [] && OnlyReconciling(w, actions)
    ensures OnlyReconciling(w, actions[..|actions| - 1])
  {
    var before := actions[..|actions| - 1];
    forall k | 0 <= k < |before|
      ensures before[k] == actions[k] && before[..k] == actions[..k]
    {
    }
  }

  // --------------------------------------------------------- how records move

  lemma ExecutorMoves(w: World, pid: Pid, g: AttemptId)
    requires Inv(w) && pid in w.controllers && !IsReconciler(w.controllers[pid].pc) && ExecuteStep(w, pid, g).Some?
    ensures JournalMoves(w.journal, ExecuteStep(w, pid, g).value.journal, w.daemon)
  {
    var c := w.controllers[pid];
    assert ControllerOk(w, pid);
    match c.pc
    case Reserving =>
      if Reserve(w.journal, c.task, g, c.digest, c.workspace).Ok? {
        ReserveOk(w.journal, w.daemon, c.task, g, c.digest, c.workspace);
      }
    case Owning(a, id) => if Own(w.journal, c.task, a, id).Ok? { OwnOk(w.journal, w.daemon, c.task, a, id); }
    case Cleaning(a, id) =>
      if ConfirmAbsent(w.journal, c.task, a, id).Ok? {
        CleanOk(w.journal, w.daemon, c.task, a, id);
      }
    case _ =>
  }

  lemma ClaimMoves(w: World, pid: Pid, r: Record, id: ContainerId)
    requires JournalOk(w.journal, w.daemon) && pid in w.controllers && ControllerOk(w, pid)
    requires w.controllers[pid].pc == Claiming(r, id)
    ensures JournalMoves(w.journal, ReconcileStep(w, pid).value.journal, w.daemon)
  {
    var c := w.controllers[pid];
    if Own(w.journal, c.task, r.attempt, id).Ok? { OwnOk(w.journal, w.daemon, c.task, r.attempt, id); }
  }

  lemma CloseMoves(w: World, pid: Pid, a: AttemptId, id: ContainerId)
    requires JournalOk(w.journal, w.daemon) && pid in w.controllers && ControllerOk(w, pid)
    requires w.controllers[pid].pc == Closing(a, id)
    ensures JournalMoves(w.journal, ReconcileStep(w, pid).value.journal, w.daemon)
  {
    var c := w.controllers[pid];
    if ConfirmAbsent(w.journal, c.task, a, id).Ok? { CleanOk(w.journal, w.daemon, c.task, a, id); }
  }

  lemma ReconcilerMoves(w: World, pid: Pid)
    requires JournalOk(w.journal, w.daemon) && pid in w.controllers && ControllerOk(w, pid)
    requires IsReconciler(w.controllers[pid].pc) && ReconcileStep(w, pid).Some?
    ensures JournalMoves(w.journal, ReconcileStep(w, pid).value.journal, w.daemon)
  {
    match w.controllers[pid].pc
    case Reading =>
    case Fencing(_) =>
    case Looking(_) =>
    case Claiming(r, id) => ClaimMoves(w, pid, r, id);
    case Confirming(_, _) =>
    case Closing(a, id) => CloseMoves(w, pid, a, id);
  }

  lemma StepMoves(w: World, a: Action)
    requires Inv(w) && Next(w, a).Some?
    ensures JournalMoves(w.journal, Next(w, a).value.journal, w.daemon)
  {
    if a.Advance? {
      assert ControllerOk(w, a.pid);
      if IsReconciler(w.controllers[a.pid].pc) {
        ReconcilerMoves(w, a.pid);
      } else {
        ExecutorMoves(w, a.pid, a.generated);
      }
    }
  }

  /** Every step moves records forward only: a reservation leaves that state only
      by owning the container the daemon created for it, never straight to
      cleaned whatever a lookup finds, and nothing is ever forgotten. */
  lemma RecordsMoveForward(start: World, actions: seq<Action>, w: World, a: Action)
    requires Reached(start, actions, w) && Next(w, a).Some?
    ensures JournalMoves(w.journal, Next(w, a).value.journal, w.daemon)
  {
    ReachedOk(start, actions, w);
    StepMoves(w, a);
  }

  // ------------------------------------------------------- cleaned means gone

  /** Nothing of the attempt is left or can still appear. */
  ghost predicate NothingLeft(w: World, t: TaskId)
    requires t in w.journal
  {
    && (forall c :: c in w.daemon.containers && w.daemon.containers[c].Ours? ==>
          w.daemon.containers[c].attempt != w.journal[t].attempt)
    && w.journal[t].attempt !in w.daemon.creates
    && (w.journal[t].handle.Some? ==> w.journal[t].handle.value !in w.daemon.containers)
  }

  lemma CleanedIsEmpty(w: World, t: TaskId)
    requires Inv(w) && t in w.journal && w.journal[t].state == Cleaned
    ensures NothingLeft(w, t)
  {
    assert RecordOk(w.journal, w.daemon, t);
  }

  lemma {:induction false} CleanedStays(w: World, actions: seq<Action>, t: TaskId)
    requires Inv(w) && t in w.journal && w.journal[t].state == Cleaned && Run(w, actions).Some?
    ensures var v := Run(w, actions).value;
      t in v.journal && v.journal[t] == w.journal[t] && NothingLeft(v, t)
    decreases |actions|
  {
    if actions == [] {
      CleanedIsEmpty(w, t);
    } else {
      var n := |actions| - 1;
      CleanedStays(w, actions[..n], t);
      RunOk(w, actions[..n]);
      var u := Run(w, actions[..n]).value;
      StepMoves(u, actions[n]);
      NextOk(u, actions[n]);
      assert RecordMoves(u.journal[t], Next(u, actions[n]).value.journal[t], u.daemon);
      CleanedIsEmpty(Next(u, actions[n]).value, t);
    }
  }

  /** Once an attempt is journalled cleaned, its record never changes again and in
      every later state no container of it exists and no create of it is pending. */
  lemma CleanedIsForever(start: World, actions: seq<Action>, w: World, more: seq<Action>, t: TaskId)
    requires Reached(start, actions, w) && t in w.journal && w.journal[t].state == Cleaned && Run(w, more).Some?
    ensures var v := Run(w, more).value;
      t in v.journal && v.journal[t] == w.journal[t] && NothingLeft(v, t)
  {
    ReachedOk(start, actions, w);
    CleanedStays(w, more, t);
  }

  // ------------------------------------------------------ workspace isolation

  ghost function OurContainers(d: Daemon): set<ContainerId>
  {
    set c | c in d.containers && d.containers[c].Ours?
  }

  /** An existing container of ours belongs to an agent task that is not cleaned. */
  ghost predicate BelongsTo(w: World, c: ContainerId, t: TaskId)
  {
    c in OurContainers(w.daemon) && t in Uncleaned(w.journal) && w.journal[t].attempt == w.daemon.containers[c].attempt
  }

  lemma ContainerHasTask(w: World, c: ContainerId)
    requires Inv(w) && c in OurContainers(w.daemon)
    ensures exists t :: BelongsTo(w, c, t)
  {
    var a := w.daemon.containers[c].attempt;
    assert HasAttempt(w.journal, a);
    var t :| t in w.journal && w.journal[t].attempt == a;
    assert RecordOk(w.journal, w.daemon, t);
    assert t in Uncleaned(w.journal);
    assert BelongsTo(w, c, t);
  }

  lemma OneContainerPerTask(w: World, c: ContainerId, e: ContainerId, t: TaskId)
    requires Inv(w) && BelongsTo(w, c, t) && BelongsTo(w, e, t)
    ensures c == e
  {
  }

  /** Two containers of ours that exist at the same time, even ones created after
      their controllers had given up, never share or nest their workspaces. */
  lemma WorkspacesAreExclusive(start: World, actions: seq<Action>, w: World, c: ContainerId, e: ContainerId, t: TaskId,
                               u: TaskId)
    requires Reached(start, actions, w) && BelongsTo(w, c, t) && BelongsTo(w, e, u) && c != e
    ensures !Overlap(w.journal[t].workspace, w.journal[u].workspace)
  {
    ReachedOk(start, actions, w);
    if t == u { OneContainerPerTask(w, c, e, t); }
  }

  ghost function TaskOf(w: World, c: ContainerId): (t: TaskId)
    requires Inv(w) && c in OurContainers(w.daemon)
    ensures BelongsTo(w, c, t)
  {
    ContainerHasTask(w, c);
    var t :| BelongsTo(w, c, t);
    t
  }

  lemma {:induction false} InjectionBound(m: map<nat, nat>, into: set<nat>)
    requires forall x :: x in m ==> m[x] in into
    requires forall x, y :: x in m && y in m && m[x] == m[y] ==> x == y
    ensures |m.Keys| <= |into|
    decreases |m.Keys|
  {
    if m.Keys != {} {
      var x :| x in m.Keys;
      assert (m - {x}).Keys == m.Keys - {x};
      InjectionBound(m - {x}, into - {m[x]});
    }
  }

  /** And there are never more than 256 of them. */
  lemma ContainersAreBounded(start: World, actions: seq<Action>, w: World)
    requires Reached(start, actions, w)
    ensures |OurContainers(w.daemon)| <= MAX_UNCLEANED
  {
    ReachedOk(start, actions, w);
    BoundFromInv(w);
  }

  lemma BoundFromInv(w: World)
    requires Inv(w)
    ensures |OurContainers(w.daemon)| <= MAX_UNCLEANED
  {
    var m := map c | c in OurContainers(w.daemon) :: TaskOf(w, c);
    assert m.Keys == OurContainers(w.daemon);
    forall x, y | x in m && y in m && m[x] == m[y]
      ensures x == y
    {
      OneContainerPerTask(w, x, y, m[x]);
    }
    InjectionBound(m, Uncleaned(w.journal));
  }
}
