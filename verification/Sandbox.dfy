/** The sandbox attempt protocol: controllers that may crash at any point, a
    write-ahead journal, and a container daemon that may run a command late.

    A controller process executes a request or reconciles a recorded attempt; it
    holds nonblocking locks on its task and workspace while it lives.  The journal
    is the only memory that survives a crash. */
module Sandbox {
  import opened Keys

  type TaskId = nat
  type AttemptId = nat
  type ContainerId = nat
  type Digest = nat
  type Pid = nat

  const MAX_UNCLEANED: nat := 256

  // ----------------------------------------------------------------- journal

  datatype AttemptState = Reserved | Owned | Cleaned

  datatype Record = Record(
    attempt: AttemptId,
    digest: Digest,
    workspace: string,
    state: AttemptState,
    handle: Option<ContainerId>)

  type Journal = map<TaskId, Record>

  /** Equal, or one below the other. */
  predicate Overlap(a: string, b: string)
  {
    a == b || a + "/" <= b || b + "/" <= a
  }

  function Uncleaned(j: Journal): set<TaskId>
  {
    set t | t in j && j[t].state != Cleaned
  }

  datatype JournalError = AlreadyJournaled | WorkspaceQuarantined | CapacityExhausted | NoRecord | StaleTransition

  /** Reserves once: even a cleaned task cannot be reserved again. */
  function Reserve(j: Journal, task: TaskId, attempt: AttemptId, digest: Digest, workspace: string)
    : Result<Journal, JournalError>
  {
    if task in j then Err(AlreadyJournaled)
    else if |Uncleaned(j)| >= MAX_UNCLEANED then Err(CapacityExhausted)
    else if exists t <- Uncleaned(j) :: Overlap(j[t].workspace, workspace) then Err(WorkspaceQuarantined)
    else Ok(j[task := Record(attempt, digest, workspace, Reserved, None)])
  }

  function Transition(j: Journal, task: TaskId, attempt: AttemptId, handle: ContainerId, expected: AttemptState,
                      next: AttemptState)
    : Result<Journal, JournalError>
  {
    if task !in j then Err(NoRecord)
    else
      var r := j[task];
      if r.state != expected || r.attempt != attempt
        || (r.handle.Some? && r.handle.value != handle) then Err(StaleTransition)
      else Ok(j[task := r.(state := next, handle := Some(handle))])
  }

  function Own(j: Journal, task: TaskId, attempt: AttemptId, handle: ContainerId): Result<Journal, JournalError>
  {
    Transition(j, task, attempt, handle, Reserved, Owned)
  }

  function ConfirmAbsent(j: Journal, task: TaskId, attempt: AttemptId, handle: ContainerId)
    : Result<Journal, JournalError>
  {
    Transition(j, task, attempt, handle, Owned, Cleaned)
  }

  // ------------------------------------------------------------------ daemon

  datatype Container = Ours(attempt: AttemptId, digest: Digest, running: bool) | Foreign

  /** `used` holds every identity ever given out; a create command runs at most
      once, but possibly long after the client that sent it is gone. */
  datatype Daemon = Daemon(
    containers: map<ContainerId, Container>,
    used: set<ContainerId>,
    creates: map<AttemptId, Digest>,
    created: map<AttemptId, ContainerId>,
    starts: set<ContainerId>,
    removes: set<ContainerId>)

  /** What the label lookup of an attempt returns. */
  function Labelled(d: Daemon, attempt: AttemptId, digest: Digest): set<ContainerId>
  {
    set c | c in d.containers && d.containers[c].Ours?
            && d.containers[c].attempt == attempt && d.containers[c].digest == digest
  }

  // ------------------------------------------------------------- controllers

  datatype Pc =
    // executing a request
    | Reserving
    | Creating(attempt: AttemptId)
    | AwaitCreate(attempt: AttemptId)
    | Owning(attempt: AttemptId, id: ContainerId)
    | Starting(attempt: AttemptId, id: ContainerId)
    | Removing(attempt: AttemptId, id: ContainerId)
    | AwaitAbsence(attempt: AttemptId, id: ContainerId)
    | Cleaning(attempt: AttemptId, id: ContainerId)
    // reconciling: the journal is read before the locks are taken
    | Reading
    | Fencing(record: Record)
    | Looking(record: Record)
    | Claiming(record: Record, id: ContainerId)
    | Confirming(attempt: AttemptId, id: ContainerId)
    | Closing(attempt: AttemptId, id: ContainerId)

  datatype Controller = Controller(task: TaskId, digest: Digest, workspace: string, pc: Pc)

  predicate IsReconciler(pc: Pc)
  {
    pc.Reading? || pc.Fencing? || pc.Looking? || pc.Claiming? || pc.Confirming? || pc.Closing?
  }

  predicate HoldsLocks(pc: Pc)
  {
    !pc.Reading? && !pc.Fencing?
  }

  datatype Locks = Locks(tasks: map<TaskId, Pid>, workspaces: map<string, Pid>)
  {
    predicate Free(task: TaskId, workspace: string)
    {
      task !in tasks && workspace !in workspaces
    }

    function Take(task: TaskId, workspace: string, pid: Pid): Locks
    {
      Locks(tasks[task := pid], workspaces[workspace := pid])
    }

    function Release(pid: Pid): Locks
    {
      Locks(map t | t in tasks && tasks[t] != pid :: tasks[t],
            map w | w in workspaces && workspaces[w] != pid :: workspaces[w])
    }
  }

  datatype World = World(
    journal: Journal,
    daemon: Daemon,
    controllers: map<Pid, Controller>,
    locks: Locks,
    // history: tasks for which a start was ever issued
    startLog: seq<TaskId>)

  ghost predicate Initial(w: World)
  {
    && w.journal == map[]
    && (forall c :: c in w.daemon.containers ==> w.daemon.containers[c].Foreign? && c in w.daemon.used)
    && w.daemon.creates == map[] && w.daemon.created == map[]
    && w.daemon.starts == {} && w.daemon.removes == {}
    && w.controllers == map[] && w.locks == Locks(map[], map[]) && w.startLog == []
  }

  // ----------------------------------------------------------------- actions

  datatype Action =
    | BeginExecute(pid: Pid, task: TaskId, digest: Digest, workspace: string)
    | BeginReconcile(pid: Pid, task: TaskId)
    // an error return or a crash
    | Leave(pid: Pid)
    | Advance(pid: Pid, generated: AttemptId)
    // the daemon and other users of it
    | RunCreate(attempt: AttemptId, id: ContainerId)
    | DropCreate(attempt: AttemptId)
    | RunStart(id: ContainerId)
    | RunRemove(id: ContainerId)
    | Vanish(id: ContainerId)
    | ForeignCreate(id: ContainerId)

  function Gone(w: World, pid: Pid): World
  {
    w.(controllers := w.controllers - {pid}, locks := w.locks.Release(pid))
  }

  function At(w: World, pid: Pid, pc: Pc): World
    requires pid in w.controllers
  {
    w.(controllers := w.controllers[pid := w.controllers[pid].(pc := pc)])
  }

  /** Attempt identities are freshly generated. */
  predicate Fresh(j: Journal, attempt: AttemptId)
  {
    forall t <- j :: j[t].attempt != attempt
  }

  /** One step of a controller that executes a request.  A refused journal write
      ends it; a failed or late daemon reply is `Leave`. */
  function ExecuteStep(w: World, pid: Pid, generated: AttemptId): Option<World>
    requires pid in w.controllers && !IsReconciler(w.controllers[pid].pc)
  {
    var c := w.controllers[pid];
    match c.pc
    case Reserving =>
      if !Fresh(w.journal, generated) then None else
        (match Reserve(w.journal, c.task, generated, c.digest, c.workspace)
         case Ok(j) => Some(At(w, pid, Creating(generated)).(journal := j))
         case Err(_) => Some(Gone(w, pid)))
    case Creating(a) =>
      Some(At(w, pid, AwaitCreate(a)).(daemon := w.daemon.(creates := w.daemon.creates[a := c.digest])))
    case AwaitCreate(a) =>
      if a !in w.daemon.created then None else Some(At(w, pid, Owning(a, w.daemon.created[a])))
    case Owning(a, id) =>
      (match Own(w.journal, c.task, a, id)
       case Ok(j) => Some(At(w, pid, Starting(a, id)).(journal := j))
       case Err(_) => Some(Gone(w, pid)))
    case Starting(a, id) =>
      Some(At(w, pid, Removing(a, id)).(daemon := w.daemon.(starts := w.daemon.starts + {id}),
                                        startLog := w.startLog + [c.task]))
    case Removing(a, id) =>
      Some(At(w, pid, AwaitAbsence(a, id)).(daemon := w.daemon.(removes := w.daemon.removes + {id})))
    case AwaitAbsence(a, id) =>
      if id in w.daemon.containers then None else Some(At(w, pid, Cleaning(a, id)))
    case Cleaning(a, id) =>
      (match ConfirmAbsent(w.journal, c.task, a, id)
       case Ok(j) => Some(Gone(w, pid).(journal := j))
       case Err(_) => Some(Gone(w, pid)))
  }

  /** One step of a controller that reconciles. */
  function ReconcileStep(w: World, pid: Pid): Option<World>
    requires pid in w.controllers && IsReconciler(w.controllers[pid].pc)
  {
    var c := w.controllers[pid];
    match c.pc
    case Reading =>
      if c.task !in w.journal then Some(Gone(w, pid)) else Some(At(w, pid, Fencing(w.journal[c.task])))
    case Fencing(r) =>
      if !w.locks.Free(c.task, r.workspace) then Some(Gone(w, pid))
      else
        (match (r.state, r.handle)
         case (Reserved, _) => Some(At(w, pid, Looking(r)).(locks := w.locks.Take(c.task, r.workspace, pid)))
         case (Owned, Some(id)) =>
           Some(At(w, pid, Confirming(r.attempt, id)).(locks := w.locks.Take(c.task, r.workspace, pid)))
         case _ => Some(Gone(w, pid)))
    case Looking(r) =>
      var found := Labelled(w.daemon, r.attempt, r.digest);
      if |found| != 1 then Some(Gone(w, pid)) else
        var id :| id in found;
        assert forall x :: x in found ==> x == id by { SingletonMember(found, id); }
        Some(At(w, pid, Claiming(r, id)))
    case Claiming(r, id) =>
      (match Own(w.journal, c.task, r.attempt, id)
       case Ok(j) => Some(At(w, pid, Confirming(r.attempt, id)).(journal := j))
       case Err(_) => Some(Gone(w, pid)))
    case Confirming(a, id) =>
      if id in w.daemon.containers then Some(Gone(w, pid)) else Some(At(w, pid, Closing(a, id)))
    case Closing(a, id) =>
      (match ConfirmAbsent(w.journal, c.task, a, id)
       case Ok(j) => Some(Gone(w, pid).(journal := j))
       case Err(_) => Some(Gone(w, pid)))
  }

  lemma SingletonMember<T>(s: set<T>, x: T)
    requires |s| == 1 && x in s
    ensures s == {x}
  {
    assert |s - {x}| == 0;
    assert s - {x} == {};
  }

  function DaemonStep(d: Daemon, a: Action): Option<Daemon>
    requires a.RunCreate? || a.DropCreate? || a.RunStart? || a.RunRemove? || a.Vanish? || a.ForeignCreate?
  {
    match a
    case RunCreate(attempt, id) =>
      if attempt !in d.creates || id in d.used then None else
        Some(d.(containers := d.containers[id := Ours(attempt, d.creates[attempt], false)],
                used := d.used + {id},
                creates := d.creates - {attempt},
                created := d.created[attempt := id]))
    case DropCreate(attempt) =>
      if attempt !in d.creates then None else Some(d.(creates := d.creates - {attempt}))
    case RunStart(id) =>
      if id !in d.starts then None else
        Some(d.(starts := d.starts - {id},
                containers := if id in d.containers && d.containers[id].Ours?
                              then d.containers[id := d.containers[id].(running := true)] else d.containers))
    case RunRemove(id) =>
      if id !in d.removes then None else Some(d.(removes := d.removes - {id}, containers := d.containers - {id}))
    case Vanish(id) =>
      Some(d.(containers := d.containers - {id}))
    case ForeignCreate(id) =>
      if id in d.used then None else Some(d.(containers := d.containers[id := Foreign], used := d.used + {id}))
  }

  /** The world after one action, or `None` when it is not enabled. */
  function Next(w: World, a: Action): Option<World>
  {
    match a
    case BeginExecute(pid, task, digest, workspace) =>
      if pid in w.controllers || !w.locks.Free(task, workspace) then None else
        Some(w.(controllers := w.controllers[pid := Controller(task, digest, workspace, Reserving)],
                locks := w.locks.Take(task, workspace, pid)))
    case BeginReconcile(pid, task) =>
      if pid in w.controllers then None else
        Some(w.(controllers := w.controllers[pid := Controller(task, 0, "", Reading)]))
    case Leave(pid) =>
      if pid !in w.controllers then None else Some(Gone(w, pid))
    case Advance(pid, generated) =>
      if pid !in w.controllers then None
      else if IsReconciler(w.controllers[pid].pc) then ReconcileStep(w, pid)
      else ExecuteStep(w, pid, generated)
    case _ =>
      match DaemonStep(w.daemon, a)
      case None => None
      case Some(d) => Some(w.(daemon := d))
  }

  function Run(w: World, actions: seq<Action>): Option<World>
  {
    if actions == [] then Some(w) else
      var n := |actions| - 1;
      match Run(w, actions[..n])
      case None => None
      case Some(v) => Next(v, actions[n])
  }
}
