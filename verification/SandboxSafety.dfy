/** What every run of the sandbox protocol keeps. */
module SandboxSafety {
  import opened Keys
  import opened Graph
  import opened Sandbox

  // ---------------------------------------------------- journal and daemon

  ghost predicate RecordOk(j: Journal, d: Daemon, t: TaskId)
    requires t in j
  {
    var r := j[t];
    && (r.state == Reserved <==> r.handle.None?)
    && (r.handle.Some? ==> r.attempt in d.created && d.created[r.attempt] == r.handle.value)
    && (r.state == Cleaned ==> r.handle.value !in d.containers)
    && (r.attempt in d.creates ==> r.attempt !in d.created && d.creates[r.attempt] == r.digest)
  }

  ghost predicate DistinctAttempts(j: Journal)
  {
    forall t, u :: t in j && u in j && j[t].attempt == j[u].attempt ==> t == u
  }

  /** Tasks that are not cleaned keep their workspaces to themselves. */
  ghost predicate Quarantined(j: Journal)
  {
    && |Uncleaned(j)| <= MAX_UNCLEANED
    && forall t, u :: t in Uncleaned(j) && u in Uncleaned(j) && t != u ==> !Overlap(j[t].workspace, j[u].workspace)
  }

  ghost predicate JournalOk(j: Journal, d: Daemon)
  {
    && (forall t :: t in j ==> RecordOk(j, d, t))
    && DistinctAttempts(j)
    && Quarantined(j)
  }

  ghost predicate HasAttempt(j: Journal, a: AttemptId)
  {
    exists t :: t in j && j[t].attempt == a
  }

  /** Identities are given out once, and each of our containers is the one that
      was created for its attempt. */
  ghost predicate DaemonOk(j: Journal, d: Daemon)
  {
    && (forall c :: c in d.containers ==> c in d.used)
    && (forall a :: a in d.created ==> d.created[a] in d.used && HasAttempt(j, a))
    && (forall a :: a in d.creates ==> HasAttempt(j, a))
    && (forall c :: c in d.containers && d.containers[c].Ours? ==>
          d.containers[c].attempt in d.created && d.created[d.containers[c].attempt] == c)
    && (forall a, b :: a in d.created && b in d.created && d.created[a] == d.created[b] ==> a == b)
  }

  /** A start or remove command names a container that is on record as owned,
      and so does every container that runs. */
  ghost predicate OnRecord(j: Journal, id: ContainerId)
  {
    exists t :: t in j && j[t].handle == Some(id)
  }

  ghost predicate CommandsOk(j: Journal, d: Daemon)
  {
    && (forall id :: id in d.starts ==> OnRecord(j, id))
    && (forall id :: id in d.removes ==> OnRecord(j, id))
    && (forall c :: c in d.containers && d.containers[c].Ours? && d.containers[c].running ==> OnRecord(j, c))
  }

  // ------------------------------------------------------------- controllers

  ghost predicate OwnedBy(j: Journal, t: TaskId, a: AttemptId, id: ContainerId)
  {
    t in j && j[t].state == Owned && j[t].attempt == a && j[t].handle == Some(id)
  }

  ghost predicate ReservedBy(j: Journal, t: TaskId, a: AttemptId)
  {
    t in j && j[t].state == Reserved && j[t].attempt == a
  }

  /** An old reading of a record: the immutable part still agrees. */
  ghost predicate Older(j: Journal, t: TaskId, r: Record)
  {
    && t in j && j[t].attempt == r.attempt && j[t].digest == r.digest && j[t].workspace == r.workspace
    && (r.handle.Some? ==> j[t].handle == r.handle)
  }

  ghost predicate PcOk(j: Journal, d: Daemon, log: seq<TaskId>, c: Controller)
  {
    match c.pc
    case Reserving => true
    case Creating(a) => ReservedBy(j, c.task, a) && j[c.task].digest == c.digest && a !in d.creates && a !in d.created
      && c.task !in log
    case AwaitCreate(a) => ReservedBy(j, c.task, a) && c.task !in log
    case Owning(a, id) => ReservedBy(j, c.task, a) && a in d.created && d.created[a] == id && c.task !in log
    case Starting(a, id) => OwnedBy(j, c.task, a, id) && c.task !in log
    case Removing(a, id) => OwnedBy(j, c.task, a, id)
    case AwaitAbsence(a, id) => OwnedBy(j, c.task, a, id)
    case Cleaning(a, id) => OwnedBy(j, c.task, a, id) && id !in d.containers
    case Reading => true
    case Fencing(r) => Older(j, c.task, r)
    case Looking(r) => Older(j, c.task, r)
    case Claiming(r, id) => Older(j, c.task, r) && r.attempt in d.created && d.created[r.attempt] == id
    case Confirming(a, id) => HandledBy(j, c.task, a, id)
    case Closing(a, id) => HandledBy(j, c.task, a, id) && id !in d.containers
  }

  ghost predicate HandledBy(j: Journal, t: TaskId, a: AttemptId, id: ContainerId)
  {
    t in j && j[t].attempt == a && j[t].handle == Some(id)
  }

  ghost predicate ControllerOk(w: World, pid: Pid)
    requires pid in w.controllers
  {
    && PcOk(w.journal, w.daemon, w.startLog, w.controllers[pid])
    && (HoldsLocks(w.controllers[pid].pc) ==>
          w.controllers[pid].task in w.locks.tasks && w.locks.tasks[w.controllers[pid].task] == pid)
  }

  ghost predicate ControllersOk(w: World)
  {
    forall pid :: pid in w.controllers ==> ControllerOk(w, pid)
  }

  /** A start is issued at most once per task, and only for recorded tasks. */
  ghost predicate LogOk(j: Journal, log: seq<TaskId>)
  {
    NoDuplicates(log) && forall i :: 0 <= i < |log| ==> log[i] in j && j[log[i]].handle.Some?
  }

  ghost predicate Inv(w: World)
  {
    && JournalOk(w.journal, w.daemon)
    && DaemonOk(w.journal, w.daemon)
    && CommandsOk(w.journal, w.daemon)
    && LogOk(w.journal, w.startLog)
    && ControllersOk(w)
  }

  lemma InitialOk(w: World)
    requires Initial(w)
    ensures Inv(w)
  {
    assert Uncleaned(w.journal) == {};
  }

  // ---------------------------------------------------- how the journal moves

  /** A record never disappears, keeps its identity, and only moves from reserved
      to owned with the container created for it, and from owned to cleaned. */
  ghost predicate RecordMoves(before: Record, after: Record, d: Daemon)
  {
    && after.attempt == before.attempt && after.digest == before.digest && after.workspace == before.workspace
    && (before.handle.Some? ==> after.handle == before.handle)
    && (after == before
        || (before.state == Reserved && after.state == Owned && after.handle.Some?
            && before.attempt in d.created && d.created[before.attempt] == after.handle.value)
        || (before.state == Owned && after.state == Cleaned))
  }

  ghost predicate JournalMoves(j: Journal, j': Journal, d: Daemon)
  {
    forall t :: t in j ==> t in j' && RecordMoves(j[t], j'[t], d)
  }

  lemma UncleanedShrinks(j: Journal, j': Journal)
    requires Quarantined(j) && j.Keys == j'.Keys
    requires forall t :: t in j ==>
      j'[t].workspace == j[t].workspace && (j'[t].state != Cleaned ==> j[t].state != Cleaned)
    ensures Quarantined(j')
  {
    assert Uncleaned(j') <= Uncleaned(j);
    SubsetCardinality(Uncleaned(j'), Uncleaned(j));
  }

  /** Moving the one record of a task whose lock is held. */
  lemma OwnOk(j: Journal, d: Daemon, t: TaskId, a: AttemptId, id: ContainerId)
    requires JournalOk(j, d) && Own(j, t, a, id).Ok?
    requires a in d.created && d.created[a] == id
    ensures JournalOk(Own(j, t, a, id).value, d)
    ensures JournalMoves(j, Own(j, t, a, id).value, d)
    ensures Own(j, t, a, id).value == j[t := j[t].(state := Owned, handle := Some(id))]
  {
    var j' := Own(j, t, a, id).value;
    UncleanedShrinks(j, j');
    forall u | u in j'
      ensures RecordOk(j', d, u)
    {
      assert RecordOk(j, d, u);
    }
  }

  lemma CleanOk(j: Journal, d: Daemon, t: TaskId, a: AttemptId, id: ContainerId)
    requires JournalOk(j, d) && ConfirmAbsent(j, t, a, id).Ok? && id !in d.containers
    ensures JournalOk(ConfirmAbsent(j, t, a, id).value, d)
    ensures JournalMoves(j, ConfirmAbsent(j, t, a, id).value, d)
    ensures ConfirmAbsent(j, t, a, id).value == j[t := j[t].(state := Cleaned)]
  {
    var j' := ConfirmAbsent(j, t, a, id).value;
    assert RecordOk(j, d, t);
    UncleanedShrinks(j, j');
    forall u | u in j'
      ensures RecordOk(j', d, u)
    {
      assert RecordOk(j, d, u);
    }
  }

  lemma ReserveKeepsQuarantine(j: Journal, t: TaskId, a: AttemptId, digest: Digest, ws: string)
    requires Quarantined(j) && Reserve(j, t, a, digest, ws).Ok?
    ensures Quarantined(Reserve(j, t, a, digest, ws).value)
  {
    assert Uncleaned(Reserve(j, t, a, digest, ws).value) == Uncleaned(j) + {t};
  }

  lemma ReserveOk(j: Journal, d: Daemon, t: TaskId, a: AttemptId, digest: Digest, ws: string)
    requires JournalOk(j, d) && DaemonOk(j, d) && Fresh(j, a) && Reserve(j, t, a, digest, ws).Ok?
    ensures JournalOk(Reserve(j, t, a, digest, ws).value, d)
    ensures JournalMoves(j, Reserve(j, t, a, digest, ws).value, d)
    ensures Reserve(j, t, a, digest, ws).value == j[t := Record(a, digest, ws, Reserved, None)]
    ensures a !in d.creates && a !in d.created
  {
    var j' := Reserve(j, t, a, digest, ws).value;
    assert !HasAttempt(j, a);
    ReserveKeepsQuarantine(j, t, a, digest, ws);
    forall u | u in j'
      ensures RecordOk(j', d, u)
    {
      if u != t { assert RecordOk(j, d, u); }
    }
  }

  // ---------------------------------------------------------------- framing

  /** Records only ever gain, so what refers to the journal stays true. */
  lemma JournalFrame(j: Journal, j': Journal, d: Daemon)
    requires JournalMoves(j, j', d) && DaemonOk(j, d) && CommandsOk(j, d)
    ensures DaemonOk(j', d) && CommandsOk(j', d)
  {
    forall a: AttemptId | HasAttempt(j, a)
      ensures HasAttempt(j', a)
    {
      var t :| t in j && j[t].attempt == a;
      assert t in j' && j'[t].attempt == a;
    }
    forall id: ContainerId | OnRecord(j, id)
      ensures OnRecord(j', id)
    {
      var t :| t in j && j[t].handle == Some(id);
      assert t in j' && j'[t].handle == Some(id);
    }
  }

  lemma LogFrame(j: Journal, j': Journal, d: Daemon, log: seq<TaskId>)
    requires JournalMoves(j, j', d) && LogOk(j, log)
    ensures LogOk(j', log)
  {
  }

  /** A controller is not disturbed by a journal write it does not lock out:
      without its lock it only relies on the immutable part of the record. */
  lemma PcJournalFrame(j: Journal, j': Journal, d: Daemon, log: seq<TaskId>, c: Controller)
    requires JournalMoves(j, j', d) && PcOk(j, d, log, c)
    requires HoldsLocks(c.pc) && c.task in j ==> j'[c.task] == j[c.task]
    ensures PcOk(j', d, log, c)
  {
  }

  /** What the daemon does on its own. */
  ghost predicate DaemonMoves(d: Daemon, d': Daemon)
  {
    && d.used <= d'.used
    && (forall a :: a in d.created ==> a in d'.created && d'.created[a] == d.created[a])
    && (forall id :: id in d.used && id !in d.containers ==> id !in d'.containers)
    && (forall a :: a in d'.creates ==> a in d.creates)
    && (forall a :: a in d'.created ==> a in d.created || a in d.creates)
  }

  lemma HandleIsUsed(j: Journal, d: Daemon, t: TaskId)
    requires JournalOk(j, d) && DaemonOk(j, d) && t in j && j[t].handle.Some?
    ensures j[t].handle.value in d.used
  {
    assert RecordOk(j, d, t);
  }

  lemma PcDaemonFrame(j: Journal, d: Daemon, d': Daemon, log: seq<TaskId>, c: Controller)
    requires JournalOk(j, d) && DaemonOk(j, d) && DaemonMoves(d, d') && PcOk(j, d, log, c)
    ensures PcOk(j, d', log, c)
  {
    if (c.pc.Cleaning? || c.pc.Closing?) { HandleIsUsed(j, d, c.task); }
  }

  lemma DaemonStepMoves(j: Journal, d: Daemon, a: Action)
    requires a.RunCreate? || a.DropCreate? || a.RunStart? || a.RunRemove? || a.Vanish? || a.ForeignCreate?
    requires DaemonOk(j, d) && JournalOk(j, d) && DaemonStep(d, a).Some?
    ensures DaemonMoves(d, DaemonStep(d, a).value)
  {
    if a.RunCreate? {
      var t :| t in j && j[t].attempt == a.attempt;
      assert RecordOk(j, d, t);
    }
  }

  lemma DaemonStepJournalOk(j: Journal, d: Daemon, a: Action)
    requires a.RunCreate? || a.DropCreate? || a.RunStart? || a.RunRemove? || a.Vanish? || a.ForeignCreate?
    requires DaemonOk(j, d) && JournalOk(j, d) && DaemonStep(d, a).Some?
    ensures JournalOk(j, DaemonStep(d, a).value)
  {
    var d' := DaemonStep(d, a).value;
    DaemonStepMoves(j, d, a);
    forall t | t in j
      ensures RecordOk(j, d', t)
    {
      assert RecordOk(j, d, t);
      if j[t].handle.Some? { HandleIsUsed(j, d, t); }
    }
  }

  lemma DaemonStepOk(j: Journal, d: Daemon, a: Action)
    requires a.RunCreate? || a.DropCreate? || a.RunStart? || a.RunRemove? || a.Vanish? || a.ForeignCreate?
    requires DaemonOk(j, d) && JournalOk(j, d) && CommandsOk(j, d) && DaemonStep(d, a).Some?
    ensures DaemonOk(j, DaemonStep(d, a).value) && CommandsOk(j, DaemonStep(d, a).value)
  {
    if a.RunCreate? { RunCreateOk(j, d, a.attempt, a.id); }
  }

  lemma RunCreateOk(j: Journal, d: Daemon, attempt: AttemptId, id: ContainerId)
    requires DaemonOk(j, d) && JournalOk(j, d) && attempt in d.creates && id !in d.used
    ensures DaemonOk(j, DaemonStep(d, RunCreate(attempt, id)).value)
    ensures CommandsOk(j, d) ==> CommandsOk(j, DaemonStep(d, RunCreate(attempt, id)).value)
  {
    assert HasAttempt(j, attempt);
    var t :| t in j && j[t].attempt == attempt;
    assert RecordOk(j, d, t);
  }

  lemma DaemonPreserved(w: World, a: Action)
    requires a.RunCreate? || a.DropCreate? || a.RunStart? || a.RunRemove? || a.Vanish? || a.ForeignCreate?
    requires Inv(w) && DaemonStep(w.daemon, a).Some?
    ensures Inv(w.(daemon := DaemonStep(w.daemon, a).value))
  {
    var w' := w.(daemon := DaemonStep(w.daemon, a).value);
    DaemonStepMoves(w.journal, w.daemon, a);
    DaemonStepJournalOk(w.journal, w.daemon, a);
    DaemonStepOk(w.journal, w.daemon, a);
    forall pid | pid in w'.controllers
      ensures ControllerOk(w', pid)
    {
      assert ControllerOk(w, pid);
      PcDaemonFrame(w.journal, w.daemon, w'.daemon, w.startLog, w.controllers[pid]);
    }
  }

  // ------------------------------------------------------- controller steps

  /** Controllers other than `pid` are the same and keep their locks. */
  ghost predicate OthersUntouched(w: World, w': World, pid: Pid)
  {
    && (forall q :: q in w'.controllers && q != pid ==> q in w.controllers && w'.controllers[q] == w.controllers[q])
    && (forall t :: t in w.locks.tasks && w.locks.tasks[t] != pid ==>
          t in w'.locks.tasks && w'.locks.tasks[t] == w.locks.tasks[t])
  }

  ghost predicate LockedBy(w: World, t: TaskId, pid: Pid)
  {
    t in w.locks.tasks && w.locks.tasks[t] == pid
  }

  /** Two controllers that hold locks work on different tasks. */
  lemma DifferentTasks(w: World, pid: Pid, q: Pid)
    requires ControllersOk(w) && pid in w.controllers && q in w.controllers && q != pid
    requires HoldsLocks(w.controllers[pid].pc) && HoldsLocks(w.controllers[q].pc)
    ensures w.controllers[pid].task != w.controllers[q].task
  {
    assert ControllerOk(w, pid) && ControllerOk(w, q);
  }

  /** A journal write by the holder of that agent task's lock. */
  lemma JournalStepControllers(w: World, w': World, pid: Pid, t: TaskId)
    requires ControllersOk(w) && OthersUntouched(w, w', pid) && LockedBy(w, t, pid)
    requires JournalMoves(w.journal, w'.journal, w.daemon) && w'.daemon == w.daemon && w'.startLog == w.startLog
    requires forall u :: u in w.journal && u != t ==> w'.journal[u] == w.journal[u]
    requires pid in w'.controllers ==> ControllerOk(w', pid)
    ensures ControllersOk(w')
  {
    forall q | q in w'.controllers
      ensures ControllerOk(w', q)
    {
      if q != pid {
        assert ControllerOk(w, q);
        PcJournalFrame(w.journal, w'.journal, w.daemon, w.startLog, w.controllers[q]);
      }
    }
  }

  /** A step that writes neither the journal nor the daemon. */
  lemma QuietStepControllers(w: World, w': World, pid: Pid)
    requires ControllersOk(w) && OthersUntouched(w, w', pid)
    requires w'.journal == w.journal && w'.daemon == w.daemon && w'.startLog == w.startLog
    requires pid in w'.controllers ==> ControllerOk(w', pid)
    ensures ControllersOk(w')
  {
    forall q | q in w'.controllers
      ensures ControllerOk(w', q)
    {
      if q != pid { assert ControllerOk(w, q); }
    }
  }

  lemma GoneUntouched(w: World, pid: Pid)
    ensures OthersUntouched(w, Gone(w, pid), pid)
  {
  }

  lemma GonePreserved(w: World, pid: Pid)
    requires Inv(w)
    ensures Inv(Gone(w, pid))
  {
    GoneUntouched(w, pid);
    QuietStepControllers(w, Gone(w, pid), pid);
  }

  lemma QuietPreserved(w: World, w': World, pid: Pid)
    requires Inv(w) && OthersUntouched(w, w', pid)
    requires w'.journal == w.journal && w'.daemon == w.daemon && w'.startLog == w.startLog
    requires pid in w'.controllers ==> ControllerOk(w', pid)
    ensures Inv(w')
  {
    QuietStepControllers(w, w', pid);
  }

  lemma JournalStepPreserved(w: World, w': World, pid: Pid, t: TaskId)
    requires Inv(w) && OthersUntouched(w, w', pid) && LockedBy(w, t, pid)
    requires JournalMoves(w.journal, w'.journal, w.daemon) && w'.daemon == w.daemon && w'.startLog == w.startLog
    requires forall u :: u in w.journal && u != t ==> w'.journal[u] == w.journal[u]
    requires pid in w'.controllers ==> ControllerOk(w', pid)
    requires JournalOk(w'.journal, w'.daemon)
    ensures Inv(w')
  {
    JournalStepControllers(w, w', pid, t);
    JournalFrame(w.journal, w'.journal, w.daemon);
    LogFrame(w.journal, w'.journal, w.daemon, w.startLog);
  }

  // -------------------------------------------------- executing a request

  lemma ReservingPreserved(w: World, pid: Pid, a: AttemptId)
    requires Inv(w) && pid in w.controllers && w.controllers[pid].pc == Reserving && Fresh(w.journal, a)
    requires Reserve(w.journal, w.controllers[pid].task, a, w.controllers[pid].digest, w.controllers[pid].workspace).Ok?
    ensures Inv(ExecuteStep(w, pid, a).value)
  {
    var c := w.controllers[pid];
    var j := Reserve(w.journal, c.task, a, c.digest, c.workspace).value;
    var w' := At(w, pid, Creating(a)).(journal := j);
    assert ControllerOk(w, pid);
    ReserveOk(w.journal, w.daemon, c.task, a, c.digest, c.workspace);
    assert c.task !in w.startLog;
    JournalStepPreserved(w, w', pid, c.task);
  }

  lemma OwningPreserved(w: World, pid: Pid, a: AttemptId, id: ContainerId)
    requires Inv(w) && pid in w.controllers && w.controllers[pid].pc == Owning(a, id)
    requires Own(w.journal, w.controllers[pid].task, a, id).Ok?
    ensures Inv(At(w, pid, Starting(a, id)).(journal := Own(w.journal, w.controllers[pid].task, a, id).value))
  {
    var c := w.controllers[pid];
    var w' := At(w, pid, Starting(a, id)).(journal := Own(w.journal, c.task, a, id).value);
    assert ControllerOk(w, pid);
    OwnOk(w.journal, w.daemon, c.task, a, id);
    JournalStepPreserved(w, w', pid, c.task);
  }

  /** Both kinds of controller close an attempt the same way. */
  lemma ClosePreserved(w: World, pid: Pid, a: AttemptId, id: ContainerId)
    requires Inv(w) && pid in w.controllers && HoldsLocks(w.controllers[pid].pc) && id !in w.daemon.containers
    requires ConfirmAbsent(w.journal, w.controllers[pid].task, a, id).Ok?
    ensures Inv(Gone(w, pid).(journal := ConfirmAbsent(w.journal, w.controllers[pid].task, a, id).value))
  {
    var c := w.controllers[pid];
    var w' := Gone(w, pid).(journal := ConfirmAbsent(w.journal, c.task, a, id).value);
    assert ControllerOk(w, pid);
    CleanOk(w.journal, w.daemon, c.task, a, id);
    JournalStepPreserved(w, w', pid, c.task);
  }

  // ---- steps that send a command to the daemon

  /** Sending the create command of an attempt that has none yet. */
  function WithCreate(d: Daemon, a: AttemptId, digest: Digest): Daemon
  {
    d.(creates := d.creates[a := digest])
  }

  lemma CreateSent(j: Journal, d: Daemon, t: TaskId, a: AttemptId)
    requires JournalOk(j, d) && DaemonOk(j, d) && CommandsOk(j, d)
    requires ReservedBy(j, t, a) && a !in d.creates && a !in d.created
    ensures var d' := WithCreate(d, a, j[t].digest); JournalOk(j, d') && DaemonOk(j, d') && CommandsOk(j, d')
  {
    var d' := WithCreate(d, a, j[t].digest);
    assert HasAttempt(j, a);
    forall u | u in j
      ensures RecordOk(j, d', u)
    {
      assert RecordOk(j, d, u);
    }
  }

  lemma PcCreateFrame(j: Journal, d: Daemon, t: TaskId, a: AttemptId, digest: Digest, log: seq<TaskId>, c: Controller)
    requires DistinctAttempts(j) && PcOk(j, d, log, c) && ReservedBy(j, t, a) && c.task != t
    ensures PcOk(j, WithCreate(d, a, digest), log, c)
  {
  }

  lemma PcCreateFrameUnlocked(j: Journal, d: Daemon, a: AttemptId, digest: Digest, log: seq<TaskId>, c: Controller)
    requires PcOk(j, d, log, c) && !HoldsLocks(c.pc)
    ensures PcOk(j, WithCreate(d, a, digest), log, c)
  {
  }

  lemma CreatingPreserved(w: World, pid: Pid, a: AttemptId)
    requires Inv(w) && pid in w.controllers && w.controllers[pid].pc == Creating(a)
    ensures Inv(ExecuteStep(w, pid, a).value)
  {
    var c := w.controllers[pid];
    assert ControllerOk(w, pid);
    var w' := At(w, pid, AwaitCreate(a)).(daemon := WithCreate(w.daemon, a, c.digest));
    CreateSent(w.journal, w.daemon, c.task, a);
    forall q | q in w'.controllers
      ensures ControllerOk(w', q)
    {
      assert ControllerOk(w, q);
      if q != pid {
        if HoldsLocks(w.controllers[q].pc) {
          DifferentTasks(w, pid, q);
          PcCreateFrame(w.journal, w.daemon, c.task, a, c.digest, w.startLog, w.controllers[q]);
        } else {
          PcCreateFrameUnlocked(w.journal, w.daemon, a, c.digest, w.startLog, w.controllers[q]);
        }
      }
    }
  }

  lemma PcCommandFrame(j: Journal, d: Daemon, starts: set<ContainerId>, removes: set<ContainerId>, log: seq<TaskId>,
                       more: seq<TaskId>, c: Controller)
    requires PcOk(j, d, log, c)
    requires HoldsLocks(c.pc) && c.task in more ==> c.task in log
    ensures PcOk(j, d.(starts := starts, removes := removes), more, c)
  {
  }

  lemma CommandOk(j: Journal, d: Daemon, t: TaskId, id: ContainerId)
    requires JournalOk(j, d) && DaemonOk(j, d) && CommandsOk(j, d) && t in j && j[t].handle == Some(id)
    ensures var d' := d.(starts := d.starts + {id}); JournalOk(j, d') && DaemonOk(j, d') && CommandsOk(j, d')
    ensures var d' := d.(removes := d.removes + {id}); JournalOk(j, d') && DaemonOk(j, d') && CommandsOk(j, d')
  {
    assert OnRecord(j, id);
    forall u | u in j
      ensures RecordOk(j, d.(starts := d.starts + {id}), u) && RecordOk(j, d.(removes := d.removes + {id}), u)
    {
      assert RecordOk(j, d, u);
    }
  }

  lemma LogGrows(j: Journal, log: seq<TaskId>, t: TaskId)
    requires LogOk(j, log) && t !in log && t in j && j[t].handle.Some?
    ensures LogOk(j, log + [t])
  {
  }

  lemma StartingPreserved(w: World, pid: Pid, a: AttemptId, id: ContainerId)
    requires Inv(w) && pid in w.controllers && w.controllers[pid].pc == Starting(a, id)
    ensures Inv(ExecuteStep(w, pid, 0).value)
  {
    var c := w.controllers[pid];
    assert ControllerOk(w, pid);
    var d := w.daemon.(starts := w.daemon.starts + {id});
    var w' := At(w, pid, Removing(a, id)).(daemon := d, startLog := w.startLog + [c.task]);
    CommandOk(w.journal, w.daemon, c.task, id);
    LogGrows(w.journal, w.startLog, c.task);
    forall q | q in w'.controllers
      ensures ControllerOk(w', q)
    {
      assert ControllerOk(w, q);
      if q != pid {
        if HoldsLocks(w.controllers[q].pc) { DifferentTasks(w, pid, q); }
        PcCommandFrame(w.journal, w.daemon, d.starts, d.removes, w.startLog, w'.startLog, w.controllers[q]);
      }
    }
  }

  lemma RemovingPreserved(w: World, pid: Pid, a: AttemptId, id: ContainerId)
    requires Inv(w) && pid in w.controllers && w.controllers[pid].pc == Removing(a, id)
    ensures Inv(ExecuteStep(w, pid, 0).value)
  {
    var c := w.controllers[pid];
    assert ControllerOk(w, pid);
    var d := w.daemon.(removes := w.daemon.removes + {id});
    var w' := At(w, pid, AwaitAbsence(a, id)).(daemon := d);
    CommandOk(w.journal, w.daemon, c.task, id);
    forall q | q in w'.controllers
      ensures ControllerOk(w', q)
    {
      assert ControllerOk(w, q);
      if q != pid {
        PcCommandFrame(w.journal, w.daemon, d.starts, d.removes, w.startLog, w.startLog, w.controllers[q]);
      }
    }
  }

  /** Every step of a controller that executes keeps the invariant. */
  lemma ExecutePreserved(w: World, pid: Pid, g: AttemptId)
    requires Inv(w) && pid in w.controllers && !IsReconciler(w.controllers[pid].pc) && ExecuteStep(w, pid, g).Some?
    ensures Inv(ExecuteStep(w, pid, g).value)
  {
    var c := w.controllers[pid];
    assert ControllerOk(w, pid);
    GonePreserved(w, pid);
    match c.pc
    case Reserving =>
      if Reserve(w.journal, c.task, g, c.digest, c.workspace).Ok? { ReservingPreserved(w, pid, g); }
    case Creating(a) => CreatingPreserved(w, pid, a);
    case AwaitCreate(a) => QuietPreserved(w, At(w, pid, Owning(a, w.daemon.created[a])), pid);
    case Owning(a, id) =>
      if Own(w.journal, c.task, a, id).Ok? { OwningPreserved(w, pid, a, id); }
    case Starting(a, id) => StartingPreserved(w, pid, a, id);
    case Removing(a, id) => RemovingPreserved(w, pid, a, id);
    case AwaitAbsence(a, id) => QuietPreserved(w, At(w, pid, Cleaning(a, id)), pid);
    case Cleaning(a, id) =>
      if ConfirmAbsent(w.journal, c.task, a, id).Ok? { ClosePreserved(w, pid, a, id); }
  }

  // ------------------------------------------------------------ reconciling

  lemma FencingPreserved(w: World, pid: Pid, r: Record, pc: Pc)
    requires Inv(w) && pid in w.controllers && w.controllers[pid].pc == Fencing(r)
    requires w.locks.Free(w.controllers[pid].task, r.workspace)
    requires (pc == Looking(r) && r.state == Reserved)
      || (r.handle.Some? && pc == Confirming(r.attempt, r.handle.value))
    ensures Inv(At(w, pid, pc).(locks := w.locks.Take(w.controllers[pid].task, r.workspace, pid)))
  {
    var c := w.controllers[pid];
    assert ControllerOk(w, pid);
    QuietPreserved(w, At(w, pid, pc).(locks := w.locks.Take(c.task, r.workspace, pid)), pid);
  }

  lemma LookingPreserved(w: World, pid: Pid, r: Record, id: ContainerId)
    requires Inv(w) && pid in w.controllers && w.controllers[pid].pc == Looking(r)
      && id in Labelled(w.daemon, r.attempt, r.digest)
    ensures Inv(At(w, pid, Claiming(r, id)))
  {
    assert ControllerOk(w, pid);
    QuietPreserved(w, At(w, pid, Claiming(r, id)), pid);
  }

  lemma ClaimingPreserved(w: World, pid: Pid, r: Record, id: ContainerId)
    requires Inv(w) && pid in w.controllers && w.controllers[pid].pc == Claiming(r, id)
    requires Own(w.journal, w.controllers[pid].task, r.attempt, id).Ok?
    ensures Inv(At(w, pid,
                   Confirming(r.attempt, id)).(journal := Own(w.journal, w.controllers[pid].task, r.attempt, id).value))
  {
    var c := w.controllers[pid];
    var w' := At(w, pid, Confirming(r.attempt, id)).(journal := Own(w.journal, c.task, r.attempt, id).value);
    assert ControllerOk(w, pid);
    OwnOk(w.journal, w.daemon, c.task, r.attempt, id);
    JournalStepPreserved(w, w', pid, c.task);
  }

  /** Every step of a controller that reconciles keeps the invariant. */
  lemma ReconcilePreserved(w: World, pid: Pid)
    requires Inv(w) && pid in w.controllers && IsReconciler(w.controllers[pid].pc) && ReconcileStep(w, pid).Some?
    ensures Inv(ReconcileStep(w, pid).value)
  {
    var c := w.controllers[pid];
    assert ControllerOk(w, pid);
    GonePreserved(w, pid);
    match c.pc
    case Reading =>
      if c.task in w.journal { QuietPreserved(w, At(w, pid, Fencing(w.journal[c.task])), pid); }
    case Fencing(r) =>
      if w.locks.Free(c.task, r.workspace) {
        if r.state == Reserved {
          FencingPreserved(w, pid, r, Looking(r));
        } else if r.handle.Some? {
          FencingPreserved(w, pid, r, Confirming(r.attempt, r.handle.value));
        }
      }
    case Looking(r) =>
      var found := Labelled(w.daemon, r.attempt, r.digest);
      if |found| == 1 {
        var id :| id in found;
        SingletonMember(found, id);
        LookingPreserved(w, pid, r, id);
      }
    case Claiming(r, id) =>
      if Own(w.journal, c.task, r.attempt, id).Ok? { ClaimingPreserved(w, pid, r, id); }
    case Confirming(a, id) =>
      if id !in w.daemon.containers { QuietPreserved(w, At(w, pid, Closing(a, id)), pid); }
    case Closing(a, id) =>
      if ConfirmAbsent(w.journal, c.task, a, id).Ok? { ClosePreserved(w, pid, a, id); }
  }

  // -------------------------------------------------------------- every run

  lemma BeginPreserved(w: World, a: Action)
    requires Inv(w) && (a.BeginExecute? || a.BeginReconcile?) && Next(w, a).Some?
    ensures Inv(Next(w, a).value)
  {
    QuietPreserved(w, Next(w, a).value, a.pid);
  }

  lemma NextOk(w: World, a: Action)
    requires Inv(w) && Next(w, a).Some?
    ensures Inv(Next(w, a).value)
  {
    match a
    case BeginExecute(_, _, _, _) => BeginPreserved(w, a);
    case BeginReconcile(_, _) => BeginPreserved(w, a);
    case Leave(pid) => GonePreserved(w, pid);
    case Advance(pid, g) =>
      if IsReconciler(w.controllers[pid].pc) { ReconcilePreserved(w, pid); } else { ExecutePreserved(w, pid, g); }
    case _ => DaemonPreserved(w, a);
  }

  lemma {:induction false} RunOk(w: World, actions: seq<Action>)
    requires Inv(w) && Run(w, actions).Some?
    ensures Inv(Run(w, actions).value)
    decreases |actions|
  {
    if actions != [] {
      var n := |actions| - 1;
      RunOk(w, actions[..n]);
      NextOk(Run(w, actions[..n]).value, actions[n]);
    }
  }
}
