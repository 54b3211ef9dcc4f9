/** What an execution does send: the start of its container, and its removal.  A
    record that an execution closes belongs to a task that was started. */
module SandboxStarts {
  import opened Keys
  import opened Sandbox
  import opened SandboxSafety
  import opened SandboxTheorems
  import opened SandboxClosure

  predicate PastStart(pc: Pc)
  {
    pc.Removing? || pc.AwaitAbsence? || pc.Cleaning?
  }

  /** The start was sent before the removal, and the removal before the wait. */
  ghost predicate Sent(d: Daemon, log: seq<TaskId>, c: Controller)
  {
    && (PastStart(c.pc) ==> c.task in log)
    && (c.pc.AwaitAbsence? || c.pc.Cleaning? ==>
          c.pc.id in d.used && (c.pc.id in d.removes || c.pc.id !in d.containers))
  }

  ghost predicate AllSent(w: World)
  {
    forall pid :: pid in w.controllers ==> Sent(w.daemon, w.startLog, w.controllers[pid])
  }

  lemma SentByDaemon(d: Daemon, a: Action, log: seq<TaskId>, c: Controller)
    requires a.RunCreate? || a.DropCreate? || a.RunStart? || a.RunRemove? || a.Vanish? || a.ForeignCreate?
    requires DaemonStep(d, a).Some? && Sent(d, log, c)
    ensures Sent(DaemonStep(d, a).value, log, c)
  {
  }

  lemma IdentityIsUsed(w: World, pid: Pid)
    requires Inv(w) && pid in w.controllers && w.controllers[pid].pc.Removing?
    ensures w.controllers[pid].pc.id in w.daemon.used
  {
    assert ControllerOk(w, pid);
  }

  /** A command more, or a log entry more, hurts nobody. */
  lemma SentGrows(d: Daemon, log: seq<TaskId>, d': Daemon, log': seq<TaskId>, c: Controller)
    requires Sent(d, log, c) && log <= log'
    requires d'.used == d.used && d'.containers == d.containers && d.removes <= d'.removes
    ensures Sent(d', log', c)
  {
    if c.task in log {
      var i :| 0 <= i < |log| && log[i] == c.task;
      assert log'[i] == c.task;
    }
  }

  lemma ExecutorSends(w: World, pid: Pid, g: AttemptId)
    requires pid in w.controllers && !IsReconciler(w.controllers[pid].pc) && ExecuteStep(w, pid, g).Some?
    requires Sent(w.daemon, w.startLog, w.controllers[pid])
    requires w.controllers[pid].pc.Removing? ==> w.controllers[pid].pc.id in w.daemon.used
    ensures var v := ExecuteStep(w, pid, g).value;
      && w.startLog <= v.startLog && w.daemon.removes <= v.daemon.removes
      && v.daemon.used == w.daemon.used && v.daemon.containers == w.daemon.containers
      && (forall q :: q in v.controllers && q != pid ==> q in w.controllers && v.controllers[q] == w.controllers[q])
      && (pid in v.controllers ==> Sent(v.daemon, v.startLog, v.controllers[pid]))
  {
  }

  lemma ReconcilerSends(w: World, pid: Pid)
    requires pid in w.controllers && IsReconciler(w.controllers[pid].pc) && ReconcileStep(w, pid).Some?
    ensures var v := ReconcileStep(w, pid).value;
      && v.startLog == w.startLog && v.daemon == w.daemon
      && (forall q :: q in v.controllers && q != pid ==> q in w.controllers && v.controllers[q] == w.controllers[q])
      && (pid in v.controllers ==> IsReconciler(v.controllers[pid].pc))
  {
  }

  lemma AdvanceSent(w: World, pid: Pid, g: AttemptId)
    requires AllSent(w) && pid in w.controllers && !IsReconciler(w.controllers[pid].pc) && ExecuteStep(w, pid, g).Some?
    requires w.controllers[pid].pc.Removing? ==> w.controllers[pid].pc.id in w.daemon.used
    ensures AllSent(ExecuteStep(w, pid, g).value)
  {
    var v := ExecuteStep(w, pid, g).value;
    ExecutorSends(w, pid, g);
    forall q | q in v.controllers && q != pid
      ensures Sent(v.daemon, v.startLog, v.controllers[q])
    {
      SentGrows(w.daemon, w.startLog, v.daemon, v.startLog, w.controllers[q]);
    }
  }

  lemma NextSent(w: World, a: Action)
    requires Inv(w) && AllSent(w) && Next(w, a).Some?
    ensures AllSent(Next(w, a).value)
  {
    var v := Next(w, a).value;
    if a.Advance? {
      if IsReconciler(w.controllers[a.pid].pc) {
        ReconcilerSends(w, a.pid);
      } else {
        if w.controllers[a.pid].pc.Removing? { IdentityIsUsed(w, a.pid); }
        AdvanceSent(w, a.pid, a.generated);
      }
    } else if !a.BeginExecute? && !a.BeginReconcile? && !a.Leave? {
      forall q | q in v.controllers
        ensures Sent(v.daemon, v.startLog, v.controllers[q])
      {
        SentByDaemon(w.daemon, a, w.startLog, w.controllers[q]);
      }
    }
  }

  lemma {:induction false} ReachedSent(start: World, actions: seq<Action>, w: World)
    requires Reached(start, actions, w)
    ensures AllSent(w)
    decreases |actions|
  {
    if actions != [] {
      var n := |actions| - 1;
      var before := Run(start, actions[..n]).value;
      ReachedSent(start, actions[..n], before);
      ReachedOk(start, actions[..n], before);
      NextSent(before, actions[n]);
    }
  }

  lemma StartIsSent(w: World, pid: Pid, g: AttemptId)
    requires pid in w.controllers && w.controllers[pid].pc.Starting?
    ensures var v := Next(w, Advance(pid, g));
      && v.Some? && w.controllers[pid].pc.id in v.value.daemon.starts
      && v.value.startLog == w.startLog + [w.controllers[pid].task]
  {
  }

  /** The step takes the record from owned to cleaned. */
  ghost predicate Closes(w: World, v: World, t: TaskId)
  {
    t in w.journal && w.journal[t].state == Owned && t in v.journal && v.journal[t].state == Cleaned
  }

  lemma OnlyCleaningCleans(w: World, pid: Pid, g: AttemptId, t: TaskId)
    requires pid in w.controllers && !IsReconciler(w.controllers[pid].pc) && ExecuteStep(w, pid, g).Some?
    requires Closes(w, ExecuteStep(w, pid, g).value, t)
    ensures w.controllers[pid].pc.Cleaning? && w.controllers[pid].task == t
  {
  }

  /** An execution sends the start of its container and logs it before it removes
      anything, and sends the removal before it waits for the absence; so a record
      that an execution takes from owned to cleaned belongs to a started task. */
  lemma ExecutionsStart(start: World, actions: seq<Action>, w: World, pid: Pid, g: AttemptId)
    requires Reached(start, actions, w) && pid in w.controllers && !IsReconciler(w.controllers[pid].pc)
    ensures var c := w.controllers[pid];
      && (PastStart(c.pc) ==> c.task in w.startLog)
      && (c.pc.AwaitAbsence? || c.pc.Cleaning? ==> c.pc.id in w.daemon.removes || c.pc.id !in w.daemon.containers)
      && (c.pc.Starting? ==>
            && Next(w, Advance(pid, g)).Some? && c.pc.id in Next(w, Advance(pid, g)).value.daemon.starts
            && Next(w, Advance(pid, g)).value.startLog == w.startLog + [c.task])
      && (Next(w, Advance(pid, g)).Some? ==>
            forall t :: Closes(w, Next(w, Advance(pid, g)).value, t) ==> t in w.startLog)
  {
    ReachedSent(start, actions, w);
    var c := w.controllers[pid];
    assert Sent(w.daemon, w.startLog, c);
    if c.pc.Starting? { StartIsSent(w, pid, g); }
    if Next(w, Advance(pid, g)).Some? {
      forall t | Closes(w, Next(w, Advance(pid, g)).value, t)
        ensures t in w.startLog
      {
        OnlyCleaningCleans(w, pid, g, t);
      }
    }
  }

  /** One path is the other or lies below it. */
  predicate Nested(a: string, b: string)
  {
    a == b || (|a| < |b| && b[..|a|] == a && b[|a|] == '/') || (|b| < |a| && a[..|b|] == b && a[|b|] == '/')
  }

  lemma NestedIff(a: string, b: string)
    ensures Nested(a, b) <==> Overlap(a, b)
  {
    BelowIff(a, b);
    BelowIff(b, a);
  }

  lemma BelowIff(a: string, b: string)
    ensures a + "/" <= b <==> |a| < |b| && b[..|a|] == a && b[|a|] == '/'
  {
    if |a| < |b| { assert b[..|a| + 1] == b[..|a|] + [b[|a|]]; }
    if a + "/" <= b {
      assert a + "/" == b[..|a| + 1];
      assert (a + "/")[|a|] == '/';
      assert (a + "/")[..|a|] == a;
    }
  }

  ghost predicate IsClear(j: Journal, workspace: string)
  {
    forall t :: t in j && j[t].state != Cleaned ==> !Nested(j[t].workspace, workspace)
  }

  lemma ClearIff(j: Journal, workspace: string)
    ensures IsClear(j, workspace) <==> !exists t <- Uncleaned(j) :: Overlap(j[t].workspace, workspace)
  {
    forall t | t in j
      ensures Nested(j[t].workspace, workspace) <==> Overlap(j[t].workspace, workspace)
    {
      NestedIff(j[t].workspace, workspace);
    }
  }

  /** A request is taken exactly when its task was never journalled, fewer than 256
      records are not cleaned, and none of those has a workspace that is, contains or
      lies in the requested one. */
  lemma TakenIff(w: World, pid: Pid, g: AttemptId)
    requires pid in w.controllers && w.controllers[pid].pc.Reserving? && Fresh(w.journal, g)
    ensures var c, v := w.controllers[pid], Next(w, Advance(pid, g));
      && v.Some?
      && (pid in v.value.controllers <==>
            && c.task !in w.journal
            && |set t | t in w.journal && w.journal[t].state != Cleaned| < 256
            && IsClear(w.journal, c.workspace))
      && (pid in v.value.controllers ==>
            && v.value.controllers[pid].pc == Creating(g)
            && v.value.journal == w.journal[c.task := Record(g, c.digest, c.workspace, Reserved, None)])
      && (pid !in v.value.controllers ==> v.value.journal == w.journal)
  {
    ClearIff(w.journal, w.controllers[pid].workspace);
    assert (set t | t in w.journal && w.journal[t].state != Cleaned) == Uncleaned(w.journal);
  }

  // -------------------------------------------------------- a complete execution

  ghost predicate Reaches(start: World, w: World)
  {
    exists actions :: Run(start, actions) == Some(w)
  }

  lemma Take(start: World, w: World, a: Action)
    requires Reaches(start, w) && Next(w, a).Some?
    ensures Reaches(start, Next(w, a).value)
  {
    var actions :| Run(start, actions) == Some(w);
    RunOne(start, actions, w, a, Next(w, a).value);
  }

  /** The task's controller is the only one and stands at `pc`. */
  ghost predicate At(w: World, t: TaskId, digest: Digest, workspace: string, pc: Pc)
  {
    w.controllers == map[0 := Controller(t, digest, workspace, pc)]
  }

  lemma ReserveAndCreate(start: World, t: TaskId, digest: Digest, workspace: string) returns (w: World)
    requires Initial(start)
    ensures Reaches(start, w) && At(w, t, digest, workspace, AwaitCreate(0)) && ReservedBy(w.journal, t, 0)
    ensures w.journal[t].handle.None? && w.daemon == start.daemon.(creates := map[0 := digest])
  {
    assert Run(start, []) == Some(start);
    var begin := BeginExecute(0, t, digest, workspace);
    var w1 := Next(start, begin).value;
    Take(start, start, begin);
    assert Uncleaned(w1.journal) == {};
    assert At(w1, t, digest, workspace, Reserving);
    var w2 := Next(w1, Advance(0, 0)).value;
    Take(start, w1, Advance(0, 0));
    assert At(w2, t, digest, workspace, Creating(0));
    w := Next(w2, Advance(0, 0)).value;
    Take(start, w2, Advance(0, 0));
  }

  lemma AnswerCreate(start: World, w: World, t: TaskId, digest: Digest, workspace: string, id: ContainerId)
    returns (v: World)
    requires Reaches(start, w) && At(w, t, digest, workspace, AwaitCreate(0))
    requires w.daemon.creates == map[0 := digest] && id !in w.daemon.used
    ensures Reaches(start, v) && At(v, t, digest, workspace, Owning(0, id)) && v.journal == w.journal
    ensures v.daemon.containers == w.daemon.containers[id := Ours(0, digest, false)]
  {
    var w1 := Next(w, RunCreate(0, id)).value;
    Take(start, w, RunCreate(0, id));
    v := Next(w1, Advance(0, 0)).value;
    Take(start, w1, Advance(0, 0));
  }

  lemma OwnAndStart(start: World, w: World, t: TaskId, digest: Digest, workspace: string, id: ContainerId)
    returns (v: World)
    requires Reaches(start, w) && At(w, t, digest, workspace, Owning(0, id)) && ReservedBy(w.journal, t, 0)
    requires w.journal[t].handle.None?
    ensures Reaches(start, v) && At(v, t, digest, workspace, Removing(0, id)) && OwnedBy(v.journal, t, 0, id)
    ensures id in v.daemon.starts && v.daemon.containers == w.daemon.containers
  {
    var w1 := Next(w, Advance(0, 0)).value;
    Take(start, w, Advance(0, 0));
    v := Next(w1, Advance(0, 0)).value;
    Take(start, w1, Advance(0, 0));
  }

  lemma RemoveAndWait(start: World, w: World, t: TaskId, digest: Digest, workspace: string, id: ContainerId)
    returns (v: World)
    requires Reaches(start, w) && At(w, t, digest, workspace, Removing(0, id))
    ensures Reaches(start, v) && At(v, t, digest, workspace, AwaitAbsence(0, id)) && v.journal == w.journal
    ensures id !in v.daemon.containers
  {
    var w1 := Next(w, Advance(0, 0)).value;
    Take(start, w, Advance(0, 0));
    v := Next(w1, RunRemove(id)).value;
    Take(start, w1, RunRemove(id));
  }

  lemma ConfirmAndClean(start: World, w: World, t: TaskId, digest: Digest, workspace: string, id: ContainerId)
    returns (v: World)
    requires Reaches(start, w) && At(w, t, digest, workspace, AwaitAbsence(0, id)) && OwnedBy(w.journal, t, 0, id)
    requires id !in w.daemon.containers
    ensures Reaches(start, v) && t in v.journal && v.journal[t].state == Cleaned && v.controllers == map[]
  {
    var w1 := Next(w, Advance(0, 0)).value;
    Take(start, w, Advance(0, 0));
    v := Next(w1, Advance(0, 0)).value;
    Take(start, w1, Advance(0, 0));
  }

  /** From any initial world an execution can be carried through: its container runs,
      and afterwards its record is closed. */
  lemma ExecutionCanRun(start: World, t: TaskId, digest: Digest, workspace: string, id: ContainerId)
    requires Initial(start) && id !in start.daemon.used
    ensures exists w :: Reaches(start, w) && OwnedBy(w.journal, t, 0, id) && id in w.daemon.containers
                        && w.daemon.containers[id] == Ours(0, digest, true)
    ensures exists v :: Reaches(start, v) && t in v.journal && v.journal[t].state == Cleaned && v.controllers == map[]
  {
    var w1 := ReserveAndCreate(start, t, digest, workspace);
    var w2 := AnswerCreate(start, w1, t, digest, workspace, id);
    var w3 := OwnAndStart(start, w2, t, digest, workspace, id);
    var w4 := Next(w3, RunStart(id)).value;
    Take(start, w3, RunStart(id));
    var w5 := RemoveAndWait(start, w4, t, digest, workspace, id);
    var w6 := ConfirmAndClean(start, w5, t, digest, workspace, id);
  }
}
