/** When an attempt that is not cleaned can still be closed.  An owned one always
    can.  A reserved one can exactly as long as a container may still turn up for it;
    without that it stays quarantined, with its place, for ever. */
module SandboxClosure {
  import opened Keys
  import opened Sandbox
  import opened SandboxSafety
  import opened SandboxTheorems

  /** Some continuation cleans the record. */
  ghost predicate CanClean(w: World, t: TaskId)
  {
    exists actions :: Cleans(w, actions, t)
  }

  ghost predicate Cleans(w: World, actions: seq<Action>, t: TaskId)
  {
    Run(w, actions).Some? && t in Run(w, actions).value.journal && Run(w, actions).value.journal[t].state == Cleaned
  }

  lemma {:induction false} RunCons(w: World, a: Action, rest: seq<Action>)
    requires Next(w, a).Some? && Run(Next(w, a).value, rest).Some?
    ensures Run(w, [a] + rest) == Run(Next(w, a).value, rest)
    decreases |rest|
  {
    var all := [a] + rest;
    if rest == [] {
      assert all[..0] == [];
    } else {
      var n := |rest| - 1;
      assert all[..|all| - 1] == [a] + rest[..n];
      RunCons(w, a, rest[..n]);
    }
  }

  lemma Back(w: World, a: Action, t: TaskId)
    requires Next(w, a).Some? && CanClean(Next(w, a).value, t)
    ensures CanClean(w, t)
  {
    var rest :| Cleans(Next(w, a).value, rest, t);
    RunCons(w, a, rest);
    assert Cleans(w, [a] + rest, t);
  }

  lemma AlreadyCleaned(w: World, t: TaskId)
    requires t in w.journal && w.journal[t].state == Cleaned
    ensures CanClean(w, t)
  {
    assert Cleans(w, [], t);
  }

  // ------------------------------------------------- a reconciler can finish

  ghost predicate Stands(w: World, pid: Pid, t: TaskId, pc: Pc)
  {
    pid in w.controllers && w.controllers[pid].task == t && w.controllers[pid].pc == pc
  }

  lemma FromClosing(w: World, pid: Pid, t: TaskId, a: AttemptId, id: ContainerId)
    requires Stands(w, pid, t, Closing(a, id)) && OwnedBy(w.journal, t, a, id)
    ensures CanClean(w, t)
  {
    AlreadyCleaned(Next(w, Advance(pid, 0)).value, t);
    Back(w, Advance(pid, 0), t);
  }

  lemma FromConfirming(w: World, pid: Pid, t: TaskId, a: AttemptId, id: ContainerId)
    requires Stands(w, pid, t, Confirming(a, id)) && OwnedBy(w.journal, t, a, id)
    ensures CanClean(w, t)
  {
    var v := Next(w, Vanish(id)).value;
    FromClosing(Next(v, Advance(pid, 0)).value, pid, t, a, id);
    Back(v, Advance(pid, 0), t);
    Back(w, Vanish(id), t);
  }

  lemma FromClaiming(w: World, pid: Pid, t: TaskId, r: Record, id: ContainerId)
    requires Stands(w, pid, t, Claiming(r, id)) && ReservedBy(w.journal, t, r.attempt) && w.journal[t].handle.None?
    ensures CanClean(w, t)
  {
    FromConfirming(Next(w, Advance(pid, 0)).value, pid, t, r.attempt, id);
    Back(w, Advance(pid, 0), t);
  }

  lemma FromLooking(w: World, pid: Pid, t: TaskId, r: Record, id: ContainerId)
    requires Stands(w, pid, t, Looking(r)) && ReservedBy(w.journal, t, r.attempt) && w.journal[t].handle.None?
    requires Labelled(w.daemon, r.attempt, r.digest) == {id}
    ensures CanClean(w, t)
  {
    FromClaiming(Next(w, Advance(pid, 0)).value, pid, t, r, id);
    Back(w, Advance(pid, 0), t);
  }

  /** Free to be fenced, and with something to be found. */
  ghost predicate Reconcilable(w: World, t: TaskId)
  {
    && t in w.journal && w.locks.Free(t, w.journal[t].workspace)
    && ((w.journal[t].state == Owned && w.journal[t].handle.Some?)
        || (w.journal[t].state == Reserved && w.journal[t].handle.None?
            && exists id :: Labelled(w.daemon, w.journal[t].attempt, w.journal[t].digest) == {id}))
  }

  lemma FromFencing(w: World, pid: Pid, t: TaskId)
    requires Reconcilable(w, t) && Stands(w, pid, t, Fencing(w.journal[t]))
    ensures CanClean(w, t)
  {
    var r, v := w.journal[t], Next(w, Advance(pid, 0)).value;
    if r.state == Owned {
      FromConfirming(v, pid, t, r.attempt, r.handle.value);
    } else {
      var id :| Labelled(w.daemon, r.attempt, r.digest) == {id};
      FromLooking(v, pid, t, r, id);
    }
    Back(w, Advance(pid, 0), t);
  }

  lemma FromReading(w: World, pid: Pid, t: TaskId)
    requires Reconcilable(w, t) && Stands(w, pid, t, Reading)
    ensures CanClean(w, t)
  {
    FromFencing(Next(w, Advance(pid, 0)).value, pid, t);
    Back(w, Advance(pid, 0), t);
  }

  ghost function Above(s: set<nat>): (n: nat)
    ensures forall x :: x in s ==> x < n
  {
    if s == {} then 0 else
      var x :| x in s;
      assert forall y :: y in s ==> y == x || y in s - {x};
      var rest := Above(s - {x});
      if x < rest then rest else x + 1
  }

  lemma CanReconcile(w: World, t: TaskId)
    requires Reconcilable(w, t)
    ensures CanClean(w, t)
  {
    var pid := Above(w.controllers.Keys);
    FromReading(Next(w, BeginReconcile(pid, t)).value, pid, t);
    Back(w, BeginReconcile(pid, t), t);
  }

  // ---------------------------------------------- the locks can become free

  /** Locks are held by live controllers only. */
  ghost predicate LocksOk(w: World)
  {
    && (forall t :: t in w.locks.tasks ==> w.locks.tasks[t] in w.controllers)
    && (forall s :: s in w.locks.workspaces ==> w.locks.workspaces[s] in w.controllers)
  }

  lemma NextLocks(w: World, a: Action)
    requires LocksOk(w) && Next(w, a).Some?
    ensures LocksOk(Next(w, a).value)
  {
    if a.Advance? {
      if IsReconciler(w.controllers[a.pid].pc) {
        ReconcileLocks(w, a.pid);
      } else {
        ExecuteLocks(w, a.pid, a.generated);
      }
    }
  }

  lemma ExecuteLocks(w: World, pid: Pid, g: AttemptId)
    requires LocksOk(w) && pid in w.controllers && !IsReconciler(w.controllers[pid].pc) && ExecuteStep(w, pid, g).Some?
    ensures LocksOk(ExecuteStep(w, pid, g).value)
  {
    GoneLocks(w, pid);
  }

  lemma ReconcileLocks(w: World, pid: Pid)
    requires LocksOk(w) && pid in w.controllers && IsReconciler(w.controllers[pid].pc) && ReconcileStep(w, pid).Some?
    ensures LocksOk(ReconcileStep(w, pid).value)
  {
    GoneLocks(w, pid);
  }

  lemma GoneLocks(w: World, pid: Pid)
    requires LocksOk(w)
    ensures LocksOk(Gone(w, pid))
  {
  }

  lemma {:induction false} ReachedLocks(start: World, actions: seq<Action>, w: World)
    requires Reached(start, actions, w)
    ensures LocksOk(w)
    decreases |actions|
  {
    if actions != [] {
      var n := |actions| - 1;
      var before := Run(start, actions[..n]).value;
      ReachedLocks(start, actions[..n], before);
      NextLocks(before, actions[n]);
    }
  }

  /** When the holders of the two locks have left, both are free. */
  lemma AfterLeaving(w: World, t: TaskId, v: World)
    requires LocksOk(w) && t in w.journal
    requires v == Freed(w, t, w.journal[t].workspace) && CanClean(v, t)
    ensures CanClean(w, t)
  {
    var ws := w.journal[t].workspace;
    var v1 := WithoutTaskHolder(w, t);
    if ws in v1.locks.workspaces { Back(v1, Leave(v1.locks.workspaces[ws]), t); }
    if t in w.locks.tasks { Back(w, Leave(w.locks.tasks[t]), t); }
  }

  ghost function WithoutTaskHolder(w: World, t: TaskId): (v: World)
    requires LocksOk(w)
    ensures LocksOk(v) && t !in v.locks.tasks && v.journal == w.journal && v.daemon == w.daemon
  {
    if t in w.locks.tasks then GoneLocks(w, w.locks.tasks[t]); Gone(w, w.locks.tasks[t]) else w
  }

  ghost function Freed(w: World, t: TaskId, ws: string): (v: World)
    requires LocksOk(w)
    ensures v.locks.Free(t, ws) && v.journal == w.journal && v.daemon == w.daemon
  {
    var v1 := WithoutTaskHolder(w, t);
    if ws in v1.locks.workspaces then Gone(v1, v1.locks.workspaces[ws]) else v1
  }

  // ----------------------------------------------------- labels tell the truth

  /** A container carries the request digest of its attempt's record. */
  ghost predicate LabelsOk(j: Journal, d: Daemon)
  {
    forall c, t :: c in d.containers && d.containers[c].Ours? && t in j && j[t].attempt == d.containers[c].attempt ==>
      d.containers[c].digest == j[t].digest
  }

  lemma JournalLabels(j: Journal, j': Journal, d: Daemon)
    requires LabelsOk(j, d) && DaemonOk(j, d) && JournalMoves(j, j', d)
    requires forall t :: t in j' && t !in j ==> !HasAttempt(j, j'[t].attempt)
    ensures LabelsOk(j', d)
  {
    forall c, t | c in d.containers && d.containers[c].Ours? && t in j' && j'[t].attempt == d.containers[c].attempt
      ensures d.containers[c].digest == j'[t].digest
    {
      assert HasAttempt(j, d.containers[c].attempt);
      assert t in j && RecordMoves(j[t], j'[t], d);
    }
  }

  lemma DaemonLabels(j: Journal, d: Daemon, a: Action)
    requires LabelsOk(j, d) && JournalOk(j, d)
    requires a.RunCreate? || a.DropCreate? || a.RunStart? || a.RunRemove? || a.Vanish? || a.ForeignCreate?
    requires DaemonStep(d, a).Some?
    ensures LabelsOk(j, DaemonStep(d, a).value)
  {
    if a.RunCreate? {
      forall t | t in j && j[t].attempt == a.attempt
        ensures j[t].digest == d.creates[a.attempt]
      {
        assert RecordOk(j, d, t);
      }
    }
  }

  lemma NewAttemptIsFresh(w: World, a: Action, t: TaskId)
    requires Next(w, a).Some? && t in Next(w, a).value.journal && t !in w.journal
    ensures !HasAttempt(w.journal, Next(w, a).value.journal[t].attempt)
  {
  }

  lemma ControllersKeepContainers(w: World, a: Action)
    requires Next(w, a).Some? && (a.BeginExecute? || a.BeginReconcile? || a.Leave? || a.Advance?)
    ensures Next(w, a).value.daemon.containers == w.daemon.containers
  {
  }

  lemma NextLabels(w: World, a: Action)
    requires Inv(w) && LabelsOk(w.journal, w.daemon) && Next(w, a).Some?
    ensures LabelsOk(Next(w, a).value.journal, Next(w, a).value.daemon)
  {
    if a.BeginExecute? || a.BeginReconcile? || a.Leave? || a.Advance? {
      StepMoves(w, a);
      forall t | t in Next(w, a).value.journal && t !in w.journal
        ensures !HasAttempt(w.journal, Next(w, a).value.journal[t].attempt)
      {
        NewAttemptIsFresh(w, a, t);
      }
      JournalLabels(w.journal, Next(w, a).value.journal, w.daemon);
      ControllersKeepContainers(w, a);
    } else {
      DaemonLabels(w.journal, w.daemon, a);
    }
  }

  lemma {:induction false} ReachedLabels(start: World, actions: seq<Action>, w: World)
    requires Reached(start, actions, w)
    ensures LabelsOk(w.journal, w.daemon)
    decreases |actions|
  {
    if actions != [] {
      var n := |actions| - 1;
      var before := Run(start, actions[..n]).value;
      ReachedLabels(start, actions[..n], before);
      ReachedOk(start, actions[..n], before);
      NextLabels(before, actions[n]);
    }
  }

  /** The lookup of an attempt whose container exists finds exactly that one. */
  lemma LookupFinds(j: Journal, d: Daemon, t: TaskId)
    requires DaemonOk(j, d) && LabelsOk(j, d) && t in j && j[t].attempt in d.created
    requires var c := d.created[j[t].attempt];
      c in d.containers && d.containers[c].Ours? && d.containers[c].attempt == j[t].attempt
    ensures Labelled(d, j[t].attempt, j[t].digest) == {d.created[j[t].attempt]}
  {
  }

  // -------------------------------------------------------- who can be closed

  /** The container created for the attempt still exists. */
  ghost predicate ContainerExists(d: Daemon, a: AttemptId)
  {
    && a in d.created && d.created[a] in d.containers
    && d.containers[d.created[a]].Ours? && d.containers[d.created[a]].attempt == a
  }

  /** The controller is about to send the attempt's create, or has its container's
      identity in hand or in the mail. */
  ghost predicate Carries(d: Daemon, c: Controller, t: TaskId, a: AttemptId)
  {
    && c.task == t
    && (c.pc == Creating(a) || (c.pc == AwaitCreate(a) && a in d.created)
        || (c.pc.Owning? && c.pc.attempt == a) || (c.pc.Claiming? && c.pc.record.attempt == a))
  }

  ghost predicate SomeoneCarries(w: World, t: TaskId, a: AttemptId)
  {
    exists pid :: pid in w.controllers && Carries(w.daemon, w.controllers[pid], t, a)
  }

  /** A container of the attempt exists or may still turn up. */
  ghost predicate Hopeful(w: World, t: TaskId)
    requires t in w.journal
  {
    var a := w.journal[t].attempt;
    a in w.daemon.creates || ContainerExists(w.daemon, a) || SomeoneCarries(w, t, a)
  }

  // ------------------------------------------------ hope means a continuation

  lemma FromCleaning(w: World, pid: Pid, t: TaskId, a: AttemptId, id: ContainerId)
    requires Stands(w, pid, t, Cleaning(a, id)) && OwnedBy(w.journal, t, a, id)
    ensures CanClean(w, t)
  {
    AlreadyCleaned(Next(w, Advance(pid, 0)).value, t);
    Back(w, Advance(pid, 0), t);
  }

  lemma FromAwaitAbsence(w: World, pid: Pid, t: TaskId, a: AttemptId, id: ContainerId)
    requires Stands(w, pid, t, AwaitAbsence(a, id)) && OwnedBy(w.journal, t, a, id)
    ensures CanClean(w, t)
  {
    var v := Next(w, Vanish(id)).value;
    FromCleaning(Next(v, Advance(pid, 0)).value, pid, t, a, id);
    Back(v, Advance(pid, 0), t);
    Back(w, Vanish(id), t);
  }

  lemma FromStarting(w: World, pid: Pid, t: TaskId, a: AttemptId, id: ContainerId)
    requires Stands(w, pid, t, Starting(a, id)) && OwnedBy(w.journal, t, a, id)
    ensures CanClean(w, t)
  {
    var v := Next(w, Advance(pid, 0)).value;
    FromAwaitAbsence(Next(v, Advance(pid, 0)).value, pid, t, a, id);
    Back(v, Advance(pid, 0), t);
    Back(w, Advance(pid, 0), t);
  }

  lemma FromOwning(w: World, pid: Pid, t: TaskId, a: AttemptId, id: ContainerId)
    requires Stands(w, pid, t, Owning(a, id)) && ReservedBy(w.journal, t, a) && w.journal[t].handle.None?
    ensures CanClean(w, t)
  {
    FromStarting(Next(w, Advance(pid, 0)).value, pid, t, a, id);
    Back(w, Advance(pid, 0), t);
  }

  lemma FromAwaitCreate(w: World, pid: Pid, t: TaskId, a: AttemptId)
    requires Stands(w, pid, t, AwaitCreate(a)) && ReservedBy(w.journal, t, a) && w.journal[t].handle.None?
    requires a in w.daemon.created
    ensures CanClean(w, t)
  {
    FromOwning(Next(w, Advance(pid, 0)).value, pid, t, a, w.daemon.created[a]);
    Back(w, Advance(pid, 0), t);
  }

  /** A create that is pending can run, and the executor that sent it can go on. */
  lemma FromCreating(w: World, pid: Pid, t: TaskId, a: AttemptId)
    requires Stands(w, pid, t, Creating(a)) && ReservedBy(w.journal, t, a) && w.journal[t].handle.None?
    ensures CanClean(w, t)
  {
    var v, id := Next(w, Advance(pid, 0)).value, Above(w.daemon.used);
    FromAwaitCreate(Next(v, RunCreate(a, id)).value, pid, t, a);
    Back(v, RunCreate(a, id), t);
    Back(w, Advance(pid, 0), t);
  }

  lemma FromExisting(w: World, t: TaskId)
    requires DaemonOk(w.journal, w.daemon) && LocksOk(w) && LabelsOk(w.journal, w.daemon)
    requires t in w.journal && RecordOk(w.journal, w.daemon, t)
    requires w.journal[t].state == Reserved && ContainerExists(w.daemon, w.journal[t].attempt)
    ensures CanClean(w, t)
  {
    LookupFinds(w.journal, w.daemon, t);
    var v := Freed(w, t, w.journal[t].workspace);
    CanReconcile(v, t);
    AfterLeaving(w, t, v);
  }

  lemma FromOwned(w: World, t: TaskId)
    requires Inv(w) && LocksOk(w) && t in w.journal && w.journal[t].state == Owned
    ensures CanClean(w, t)
  {
    assert RecordOk(w.journal, w.daemon, t);
    var v := Freed(w, t, w.journal[t].workspace);
    CanReconcile(v, t);
    AfterLeaving(w, t, v);
  }

  lemma FromPending(w: World, t: TaskId)
    requires Inv(w) && LocksOk(w) && LabelsOk(w.journal, w.daemon)
    requires t in w.journal && w.journal[t].state == Reserved && w.journal[t].attempt in w.daemon.creates
    ensures CanClean(w, t)
  {
    var a, id := w.journal[t].attempt, Above(w.daemon.used);
    CreateMakesIt(w, a, id);
    AfterCreate(w, t, id);
    FromExisting(Next(w, RunCreate(a, id)).value, t);
    Back(w, RunCreate(a, id), t);
  }

  lemma AfterCreate(w: World, t: TaskId, id: ContainerId)
    requires Inv(w) && LocksOk(w) && LabelsOk(w.journal, w.daemon)
    requires t in w.journal && Next(w, RunCreate(w.journal[t].attempt, id)).Some?
    requires Next(w, RunCreate(w.journal[t].attempt, id)).value.journal == w.journal
    ensures var v := Next(w, RunCreate(w.journal[t].attempt, id)).value;
      && DaemonOk(v.journal, v.daemon) && RecordOk(v.journal, v.daemon, t)
      && LocksOk(v) && LabelsOk(v.journal, v.daemon)
  {
    var a := RunCreate(w.journal[t].attempt, id);
    NextOk(w, a);
    InvAt(Next(w, a).value, t);
    NextLabels(w, a);
    NextLocks(w, a);
  }

  lemma InvAt(w: World, t: TaskId)
    requires Inv(w) && t in w.journal
    ensures DaemonOk(w.journal, w.daemon) && RecordOk(w.journal, w.daemon, t)
  {
  }

  lemma CreateMakesIt(w: World, a: AttemptId, id: ContainerId)
    requires a in w.daemon.creates && id !in w.daemon.used
    ensures Next(w, RunCreate(a, id)).Some?
    ensures var v := Next(w, RunCreate(a, id)).value; v.journal == w.journal && ContainerExists(v.daemon, a)
  {
  }

  lemma FromCarrier(w: World, t: TaskId, pid: Pid)
    requires t in w.journal && w.journal[t].state == Reserved && w.journal[t].handle.None?
    requires pid in w.controllers && Carries(w.daemon, w.controllers[pid], t, w.journal[t].attempt)
    ensures CanClean(w, t)
  {
    var a, pc := w.journal[t].attempt, w.controllers[pid].pc;
    if pc.Creating? {
      FromCreating(w, pid, t, a);
    } else if pc.AwaitCreate? {
      FromAwaitCreate(w, pid, t, a);
    } else if pc.Owning? {
      FromOwning(w, pid, t, a, pc.id);
    } else {
      FromClaiming(w, pid, t, pc.record, pc.id);
    }
  }

  lemma HopeIsEnough(w: World, t: TaskId)
    requires Inv(w) && LocksOk(w) && LabelsOk(w.journal, w.daemon)
    requires t in w.journal && w.journal[t].state == Reserved && Hopeful(w, t)
    ensures CanClean(w, t)
  {
    var a := w.journal[t].attempt;
    assert RecordOk(w.journal, w.daemon, t);
    if a in w.daemon.creates {
      FromPending(w, t);
    } else if ContainerExists(w.daemon, a) {
      FromExisting(w, t);
    } else {
      var pid :| pid in w.controllers && Carries(w.daemon, w.controllers[pid], t, a);
      FromCarrier(w, t, pid);
    }
  }

  // ------------------------------------------------- without hope it stays so

  /** The record is reserved and no container of it can turn up any more. */
  ghost predicate Hopeless(w: World, t: TaskId)
  {
    && t in w.journal && w.journal[t].state == Reserved
    && w.journal[t].attempt !in w.daemon.creates && !ContainerExists(w.daemon, w.journal[t].attempt)
    && forall pid :: pid in w.controllers ==> !Carries(w.daemon, w.controllers[pid], t, w.journal[t].attempt)
  }

  lemma HopelessByDaemon(w: World, t: TaskId, a: Action)
    requires Hopeless(w, t) && DaemonOk(w.journal, w.daemon)
    requires a.RunCreate? || a.DropCreate? || a.RunStart? || a.RunRemove? || a.Vanish? || a.ForeignCreate?
    requires DaemonStep(w.daemon, a).Some?
    ensures Hopeless(w.(daemon := DaemonStep(w.daemon, a).value), t)
  {
    var x := w.journal[t].attempt;
    assert x in w.daemon.created ==> w.daemon.created[x] in w.daemon.used;
  }

  /** One controller moves to `pc`, or leaves, and everything else that matters to
      the record stays. */
  lemma HopelessFrame(w: World, v: World, t: TaskId, pid: Pid)
    requires Hopeless(w, t)
    requires t in v.journal && v.journal[t] == w.journal[t]
    requires v.daemon.created == w.daemon.created && v.daemon.containers == w.daemon.containers
    requires w.journal[t].attempt !in v.daemon.creates
    requires forall p :: p in v.controllers && p != pid ==> p in w.controllers && v.controllers[p] == w.controllers[p]
    requires pid in v.controllers ==> !Carries(w.daemon, v.controllers[pid], t, w.journal[t].attempt)
    ensures Hopeless(v, t)
  {
  }

  lemma HopelessByExecutor(w: World, t: TaskId, pid: Pid, g: AttemptId)
    requires DistinctAttempts(w.journal) && Hopeless(w, t) && pid in w.controllers && ControllerOk(w, pid)
    requires !IsReconciler(w.controllers[pid].pc) && ExecuteStep(w, pid, g).Some?
    ensures Hopeless(ExecuteStep(w, pid, g).value, t)
  {
    assert !Carries(w.daemon, w.controllers[pid], t, w.journal[t].attempt);
    HopelessFrame(w, ExecuteStep(w, pid, g).value, t, pid);
  }

  lemma LookingFindsNone(w: World, t: TaskId, r: Record)
    requires DaemonOk(w.journal, w.daemon) && Hopeless(w, t) && r.attempt == w.journal[t].attempt
    ensures Labelled(w.daemon, r.attempt, r.digest) == {}
  {
  }

  lemma HopelessByLooking(w: World, t: TaskId, pid: Pid, r: Record)
    requires DaemonOk(w.journal, w.daemon) && Hopeless(w, t) && pid in w.controllers && ControllerOk(w, pid)
    requires w.controllers[pid].pc == Looking(r)
    ensures Hopeless(ReconcileStep(w, pid).value, t)
  {
    if w.controllers[pid].task == t { LookingFindsNone(w, t, r); }
    HopelessFrame(w, ReconcileStep(w, pid).value, t, pid);
  }

  lemma HopelessByReader(w: World, t: TaskId, pid: Pid)
    requires Hopeless(w, t) && pid in w.controllers
    requires var pc := w.controllers[pid].pc; pc.Reading? || pc.Fencing? || pc.Confirming?
    ensures Hopeless(ReconcileStep(w, pid).value, t)
  {
    HopelessFrame(w, ReconcileStep(w, pid).value, t, pid);
  }

  lemma HopelessByOwner(w: World, t: TaskId, pid: Pid)
    requires Hopeless(w, t) && pid in w.controllers && ControllerOk(w, pid)
    requires var pc := w.controllers[pid].pc; pc.Claiming? || pc.Closing?
    ensures Hopeless(ReconcileStep(w, pid).value, t)
  {
    assert !Carries(w.daemon, w.controllers[pid], t, w.journal[t].attempt);
    HopelessFrame(w, ReconcileStep(w, pid).value, t, pid);
  }

  lemma HopelessByReconciler(w: World, t: TaskId, pid: Pid)
    requires DaemonOk(w.journal, w.daemon) && Hopeless(w, t) && pid in w.controllers && ControllerOk(w, pid)
    requires IsReconciler(w.controllers[pid].pc) && ReconcileStep(w, pid).Some?
    ensures Hopeless(ReconcileStep(w, pid).value, t)
  {
    match w.controllers[pid].pc
    case Reading => HopelessByReader(w, t, pid);
    case Fencing(_) => HopelessByReader(w, t, pid);
    case Looking(r) => HopelessByLooking(w, t, pid, r);
    case Claiming(_, _) => HopelessByOwner(w, t, pid);
    case Confirming(_, _) => HopelessByReader(w, t, pid);
    case Closing(_, _) => HopelessByOwner(w, t, pid);
  }

  lemma HopelessStep(w: World, t: TaskId, a: Action)
    requires Inv(w) && Hopeless(w, t) && Next(w, a).Some?
    ensures Hopeless(Next(w, a).value, t)
  {
    if a.Advance? {
      if IsReconciler(w.controllers[a.pid].pc) {
        assert ControllerOk(w, a.pid);
        HopelessByReconciler(w, t, a.pid);
      } else {
        assert ControllerOk(w, a.pid);
        HopelessByExecutor(w, t, a.pid, a.generated);
      }
    } else if a.BeginExecute? || a.BeginReconcile? || a.Leave? {
      HopelessFrame(w, Next(w, a).value, t, a.pid);
    } else {
      HopelessByDaemon(w, t, a);
    }
  }

  lemma {:induction false} HopelessRun(w: World, t: TaskId, actions: seq<Action>)
    requires Inv(w) && Hopeless(w, t) && Run(w, actions).Some?
    ensures Hopeless(Run(w, actions).value, t)
    decreases |actions|
  {
    if actions != [] {
      var n := |actions| - 1;
      HopelessRun(w, t, actions[..n]);
      RunOk(w, actions[..n]);
      HopelessStep(Run(w, actions[..n]).value, t, actions[n]);
    }
  }

  lemma HopelessIsStuck(w: World, t: TaskId)
    requires Inv(w) && Hopeless(w, t)
    ensures !CanClean(w, t)
  {
    forall actions | Run(w, actions).Some?
      ensures !Cleans(w, actions, t)
    {
      HopelessRun(w, t, actions);
    }
  }

  /** A record that is not cleaned can still be closed by some continuation exactly
      when it is owned, or a container of it exists or may still turn up: its create
      is pending, about to be sent, or answered to a controller that lives.  A reserved
      record without any of these keeps its workspace and one of the 256 places for
      ever. */
  lemma ClosableIff(start: World, actions: seq<Action>, w: World, t: TaskId)
    requires Reached(start, actions, w) && t in w.journal && w.journal[t].state != Cleaned
    ensures CanClean(w, t) <==> w.journal[t].state == Owned || Hopeful(w, t)
  {
    ReachedOk(start, actions, w);
    ReachedLocks(start, actions, w);
    ReachedLabels(start, actions, w);
    if w.journal[t].state == Owned {
      FromOwned(w, t);
    } else if Hopeful(w, t) {
      HopeIsEnough(w, t);
    } else {
      HopelessIsStuck(w, t);
    }
  }

  lemma RunOne(w: World, actions: seq<Action>, v: World, a: Action, u: World)
    requires Run(w, actions) == Some(v) && Next(v, a) == Some(u)
    ensures Run(w, actions + [a]) == Some(u)
  {
    var more := actions + [a];
    assert more[..|more| - 1] == actions;
  }

  /** A controller reserves and stops before it sends the create. */
  lemma ReserveAndStop(start: World, t: TaskId, digest: Digest, workspace: string) returns (w: World)
    requires Initial(start)
    ensures Run(start, [] + [BeginExecute(0, t, digest, workspace)] + [Advance(0, 0)] + [Leave(0)]) == Some(w)
    ensures t in w.journal && w.journal[t].state == Reserved && w.controllers == map[] && w.daemon == start.daemon
  {
    var begin := BeginExecute(0, t, digest, workspace);
    var w1 := Next(start, begin).value;
    RunOne(start, [], start, begin, w1);
    assert Uncleaned(w1.journal) == {};
    var w2 := Next(w1, Advance(0, 0)).value;
    RunOne(start, [] + [begin], w1, Advance(0, 0), w2);
    w := Next(w2, Leave(0)).value;
    RunOne(start, [] + [begin] + [Advance(0, 0)], w2, Leave(0), w);
    assert w.controllers == map[];
  }

  /** One controller that stops right after reserving leaves a record that no
      continuation ever closes. */
  lemma ReservationCanStick(start: World, t: TaskId, digest: Digest, workspace: string)
    requires Initial(start)
    ensures
      var end := Run(start, [] + [BeginExecute(0, t, digest, workspace)] + [Advance(0, 0)] + [Leave(0)]);
      end.Some? && t in end.value.journal && end.value.journal[t].state == Reserved && !CanClean(end.value, t)
  {
    var w := ReserveAndStop(start, t, digest, workspace);
    ClosableIff(start, [] + [BeginExecute(0, t, digest, workspace)] + [Advance(0, 0)] + [Leave(0)], w, t);
  }
}
