/** One run: its record, the events the log holds about it, and the threads that
    write it.

    A write is not checked against what is stored.  An execution and a canceller each
    read the record, move their copy and write it back, so a stale copy can replace a
    newer record, and the log need not tell what the record says.  A write and its
    events are one transaction; every other access is an action of its own. */
module RunEvents {
  import opened Keys
  import opened Runs

  datatype Record = Record(component: nat, capability: nat, origin: Option<RunId>, createdAt: nat, state: RunState,
                           changes: seq<RunTransition>)
  {
    /** The record after a legal transition. */
    function Moved(to: RunState, now: nat): Record
      requires state.CanBecome(to)
    {
      this.(state := to, changes := changes + [RunTransition(state, to, now)])
    }
  }

  datatype Event = Creation(component: nat, capability: nat, origin: Option<RunId>, at: nat)
      | StateChange(change: RunTransition)

  function CreationOf(r: Record): Event
  {
    Creation(r.component, r.capability, r.origin, r.createdAt)
  }

  /** The events of the changes after the first `skip`. */
  function Changes(r: Record, skip: nat): seq<Event>
  {
    if skip >= |r.changes| then [] else
      seq(|r.changes| - skip, i requires 0 <= i < |r.changes| - skip => StateChange(r.changes[skip + i]))
  }

  function Derived(previous: Option<Record>, r: Record): seq<Event>
  {
    match previous
    case None => [CreationOf(r)] + Changes(r, 0)
    case Some(p) => Changes(r, |p.changes|)
  }

  method DeriveRunEvents(previous: Option<Record>, r: Record) returns (events: seq<Event>)
    ensures events == Derived(previous, r)
  {
    events := [];
    if previous.None? { events := [CreationOf(r)]; }
    var skip := if previous.Some? then |previous.value.changes| else 0;
    ghost var head := events;
    var k := skip;
    while k < |r.changes|
      invariant skip <= k && (k > skip ==> k <= |r.changes|)
      invariant events == head + Changes(r, skip)[..k - skip]
    {
      events := events + [StateChange(r.changes[k])];
      k := k + 1;
    }
  }

  /** The stored record of one run and the events the log holds about it.  Writes of
      other runs touch neither. */
  datatype Entry = Entry(record: Option<Record>, told: seq<Event>)

  const EMPTY := Entry(None, [])

  function Put(e: Entry, r: Record): Entry
  {
    Entry(Some(r), e.told + Derived(e.record, r))
  }

  function History(r: Record): seq<Event>
  {
    Derived(None, r)
  }

  predicate Truthful(e: Entry)
  {
    e.told == if e.record.Some? then History(e.record.value) else []
  }

  lemma HistorySplits(r: Record, k: nat)
    ensures |History(r)| == 1 + |r.changes|
    ensures History(r) == History(r)[..1 + AtMost(k, |r.changes|)] + Changes(r, k)
  {
  }

  /** After a write the log tells what the record says exactly when, before it, the
      log told the part of the new record's history that the write skips. */
  lemma PutIsTold(e: Entry, r: Record)
    requires e.record.Some?
    ensures Truthful(Put(e, r)) <==> e.told == History(r)[..1 + AtMost(|e.record.value.changes|, |r.changes|)]
  {
    var k := |e.record.value.changes|;
    HistorySplits(r, k);
    if e.told + Changes(r, k) == History(r) {
      assert e.told == (e.told + Changes(r, k))[..|e.told|];
    }
  }

  lemma MovedHistory(r: Record, to: RunState, now: nat)
    requires r.state.CanBecome(to)
    ensures History(r.Moved(to, now)) == History(r) + [StateChange(RunTransition(r.state, to, now))]
  {
  }

  // ------------------------------------------------------------------- state

  /** The execution of the run: not there, registered, holding the record it read,
      holding the record it wrote, or done writing and about to unregister. */
  datatype Executor = Absent | Entered | Claimed(copy: Record) | Started(copy: Record) | Closing

  /** A canceller that found no execution, or holds the record it read. */
  datatype Canceller = Checked | Holding(copy: Record)

  /** `queued` and `running` are history: the record as submitted and as started. */
  datatype State = State(entry: Entry, executor: Executor, cancellers: map<nat, Canceller>,
                         queued: Option<Record>, running: Option<Record>)

  const INITIAL := State(EMPTY, Absent, map[], None, None)

  datatype Action =
    | Submit(component: nat, capability: nat, origin: Option<RunId>, now: nat)
    // the execution; `Leave` is its last step or an error return
    | Enter | Load | Start(now: nat) | Finish(to: RunState, now: nat) | Leave
    // cancellers
    | CancelCheck(pid: nat) | CancelRead(pid: nat) | CancelWrite(pid: nat, now: nat)
    // the daemon stops, and the recovery pass after it fails the run
    | Restart | Recover(now: nat)

  /** The record a submission writes. */
  function Fresh(component: nat, capability: nat, origin: Option<RunId>, now: nat): Record
  {
    Record(component, capability, origin, now, RunCreated, []).Moved(RunValidated, now).Moved(RunQueued, now)
  }

  function Live(e: Entry): Option<Record>
  {
    if e.record.Some? && !e.record.value.state.Terminal() then e.record else None
  }

  function ExecuteStep(s: State, a: Action): Option<State>
    requires a.Enter? || a.Load? || a.Start? || a.Finish? || a.Leave?
  {
    match a
    case Enter =>
      if !s.executor.Absent? then None else Some(s.(executor := Entered))
    case Load =>
      if !s.executor.Entered? then None
      else if s.entry.record.None? || s.entry.record.value.state != RunQueued then Some(s.(executor := Closing))
      else Some(s.(executor := Claimed(s.entry.record.value)))
    case Start(now) =>
      if !s.executor.Claimed? || s.executor.copy.state != RunQueued then None else
        var r := s.executor.copy.Moved(RunRunning, now);
        Some(s.(entry := Put(s.entry, r), executor := Started(r), running := Some(r)))
    case Finish(to, now) =>
      if !s.executor.Started? || !to.Terminal() || !s.executor.copy.state.CanBecome(to) then None
      else Some(s.(entry := Put(s.entry, s.executor.copy.Moved(to, now)), executor := Closing))
    case Leave =>
      if s.executor.Absent? then None else Some(s.(executor := Absent))
  }

  function CancelStep(s: State, a: Action): Option<State>
    requires a.CancelCheck? || a.CancelRead? || a.CancelWrite?
  {
    match a
    case CancelCheck(pid) =>
      if !s.executor.Absent? || pid in s.cancellers then None
      else Some(s.(cancellers := s.cancellers[pid := Checked]))
    case CancelRead(pid) =>
      if pid !in s.cancellers || !s.cancellers[pid].Checked? then None
      else (match Live(s.entry)
            case None => Some(s.(cancellers := s.cancellers - {pid}))
            case Some(r) => Some(s.(cancellers := s.cancellers[pid := Holding(r)])))
    case CancelWrite(pid, now) =>
      if pid !in s.cancellers || !s.cancellers[pid].Holding? || s.cancellers[pid].copy.state.Terminal() then None
      else Some(s.(entry := Put(s.entry, s.cancellers[pid].copy.Moved(RunCancelled, now)),
                   cancellers := s.cancellers - {pid}))
  }

  function Next(s: State, a: Action): Option<State>
  {
    match a
    case Submit(component, capability, origin, now) =>
      if s.entry.record.Some? then None else
        var r := Fresh(component, capability, origin, now);
        Some(s.(entry := Put(s.entry, r), queued := Some(r)))
    case Enter => ExecuteStep(s, a)
    case Load => ExecuteStep(s, a)
    case Start(_) => ExecuteStep(s, a)
    case Finish(_, _) => ExecuteStep(s, a)
    case Leave => ExecuteStep(s, a)
    case CancelCheck(_) => CancelStep(s, a)
    case CancelRead(_) => CancelStep(s, a)
    case CancelWrite(_, _) => CancelStep(s, a)
    case Restart => Some(s.(executor := Absent, cancellers := map[]))
    case Recover(now) =>
      if !s.executor.Absent? || s.cancellers != map[] then None
      else (match Live(s.entry)
            case None => Some(s)
            case Some(r) => Some(s.(entry := Put(s.entry, r.Moved(RunFailed, now)))))
  }

  function Run(s: State, actions: seq<Action>): Option<State>
  {
    if actions == [] then Some(s) else
      var n := |actions| - 1;
      match Run(s, actions[..n])
      case None => None
      case Some(t) => Next(t, actions[n])
  }

  ghost predicate Reached(actions: seq<Action>, s: State)
  {
    Run(INITIAL, actions) == Some(s)
  }

  // -------------------------------------------------------------- invariants

  /** The state is the one the last transition led to. */
  predicate WellStated(r: Record)
  {
    r.changes != [] && r.changes[|r.changes| - 1].to == r.state
  }

  /** `r` is `from` after one transition. */
  predicate Follows(from: Record, r: Record)
  {
    && r.changes != [] && from.state.CanBecome(r.state)
    && r == from.Moved(r.state, r.changes[|r.changes| - 1].at)
  }

  /** A copy somebody holds is the record as submitted or as started. */
  ghost predicate IsCopy(q: Record, running: Option<Record>, c: Record)
  {
    c == q || running == Some(c)
  }

  /** Nothing but the submitted record, the started one and ends of either is stored;
      and the submitted one only as long as nothing else was written. */
  ghost predicate StoredOk(q: Record, running: Option<Record>, e: Entry)
  {
    && e.record.Some?
    && var r := e.record.value;
       && (r == q || Follows(q, r) || (running.Some? && Follows(running.value, r)))
       && (r == q ==> running.None? && e.told == History(q))
       && (r.state == RunRunning ==> running == Some(r))
       && |e.told| > |r.changes|
  }

  ghost predicate ExecutorOk(q: Record, running: Option<Record>, x: Executor)
  {
    && (x.Claimed? ==> x.copy == q && running.None?)
    && (x.Started? ==> running == Some(x.copy))
  }

  ghost predicate CancellersOk(q: Record, running: Option<Record>, cancellers: map<nat, Canceller>)
  {
    forall pid :: pid in cancellers && cancellers[pid].Holding? ==> IsCopy(q, running, cancellers[pid].copy)
  }

  ghost predicate Inv(s: State)
  {
    if s.queued.None? then
      && s.entry == EMPTY && s.running.None? && !s.executor.Claimed? && !s.executor.Started?
      && (forall pid :: pid in s.cancellers ==> s.cancellers[pid].Checked?)
    else
      && s.queued.value.state == RunQueued && WellStated(s.queued.value)
      && (s.running.Some? ==> s.running.value.state == RunRunning && Follows(s.queued.value, s.running.value))
      && StoredOk(s.queued.value, s.running, s.entry)
      && ExecutorOk(s.queued.value, s.running, s.executor)
      && CancellersOk(s.queued.value, s.running, s.cancellers)
  }

  /** Who could write next: the copy and where the write would move it. */
  ghost predicate Offers(s: State, copy: Record, to: RunState)
  {
    || (s.executor.Claimed? && s.executor.copy == copy && to == RunRunning)
    || (s.executor.Started? && s.executor.copy == copy && to.Terminal())
    || (to == RunCancelled && exists pid :: pid in s.cancellers && s.cancellers[pid] == Holding(copy))
  }

  /** The writes of the execution and of cancellers. */
  predicate IsWrite(a: Action)
  {
    a.Start? || a.Finish? || a.CancelWrite?
  }

  predicate Writes(s: State, a: Action)
  {
    IsWrite(a) && Next(s, a).Some?
  }

  /** The copy a write moves, and the state it moves it to. */
  function CopyOf(s: State, a: Action): Record
    requires Writes(s, a)
  {
    if a.CancelWrite? then s.cancellers[a.pid].copy else s.executor.copy
  }

  function TargetOf(a: Action): RunState
    requires IsWrite(a)
  {
    if a.Start? then RunRunning else if a.Finish? then a.to else RunCancelled
  }

  lemma WriteIs(s: State, a: Action)
    requires Writes(s, a)
    ensures CopyOf(s, a).state.CanBecome(TargetOf(a))
    ensures Next(s, a).value.entry == Put(s.entry, CopyOf(s, a).Moved(TargetOf(a), a.now))
    ensures Offers(s, CopyOf(s, a), TargetOf(a))
  {
  }

  /** What the invariant says when `copy` is about to be written. */
  ghost predicate Ready(q: Record, running: Option<Record>, e: Entry, copy: Record)
  {
    && q.state == RunQueued && WellStated(q)
    && (running.Some? ==> running.value.state == RunRunning && Follows(q, running.value))
    && StoredOk(q, running, e) && IsCopy(q, running, copy)
  }

  lemma OffersReady(s: State, copy: Record, to: RunState)
    requires Inv(s) && Offers(s, copy, to)
    ensures s.queued.Some? && Ready(s.queued.value, s.running, s.entry, copy)
  {
  }

  lemma PutStoredOk(q: Record, running: Option<Record>, e: Entry, copy: Record, to: RunState, now: nat)
    requires Ready(q, running, e, copy) && copy.state.CanBecome(to) && to != RunRunning
    ensures StoredOk(q, running, Put(e, copy.Moved(to, now)))
  {
  }

  lemma StartStoredOk(q: Record, e: Entry, now: nat)
    requires Ready(q, None, e, q)
    ensures var r := q.Moved(RunRunning, now); Follows(q, r) && StoredOk(q, Some(r), Put(e, r))
  {
  }

  lemma ExecuteOk(s: State, a: Action)
    requires Inv(s) && (a.Enter? || a.Load? || a.Start? || a.Finish? || a.Leave?) && ExecuteStep(s, a).Some?
    ensures Inv(ExecuteStep(s, a).value)
  {
    match a
    case Enter =>
    case Load =>
    case Start(now) => StartStoredOk(s.queued.value, s.entry, now);
    case Finish(to, now) => PutStoredOk(s.queued.value, s.running, s.entry, s.executor.copy, to, now);
    case Leave =>
  }

  lemma CancelOk(s: State, a: Action)
    requires Inv(s) && (a.CancelCheck? || a.CancelRead? || a.CancelWrite?) && CancelStep(s, a).Some?
    ensures Inv(CancelStep(s, a).value)
  {
    match a
    case CancelCheck(_) =>
    case CancelRead(_) =>
    case CancelWrite(pid, now) =>
      PutStoredOk(s.queued.value, s.running, s.entry, s.cancellers[pid].copy, RunCancelled, now);
  }

  lemma NextOk(s: State, a: Action)
    requires Inv(s) && Next(s, a).Some?
    ensures Inv(Next(s, a).value)
  {
    match a
    case Submit(_, _, _, _) =>
    case Enter => ExecuteOk(s, a);
    case Load => ExecuteOk(s, a);
    case Start(_) => ExecuteOk(s, a);
    case Finish(_, _) => ExecuteOk(s, a);
    case Leave => ExecuteOk(s, a);
    case CancelCheck(_) => CancelOk(s, a);
    case CancelRead(_) => CancelOk(s, a);
    case CancelWrite(_, _) => CancelOk(s, a);
    case Restart =>
    case Recover(now) =>
      if Live(s.entry).Some? {
        PutStoredOk(s.queued.value, s.running, s.entry, s.entry.record.value, RunFailed, now);
      }
  }

  lemma {:induction false} RunOk(s: State, actions: seq<Action>)
    requires Inv(s) && Run(s, actions).Some?
    ensures Inv(Run(s, actions).value)
    decreases |actions|
  {
    if actions != [] {
      var n := |actions| - 1;
      RunOk(s, actions[..n]);
      NextOk(Run(s, actions[..n]).value, actions[n]);
    }
  }

  // ------------------------------------------------------- when truth is kept

  lemma SameHistory(a: Record, b: Record)
    requires WellStated(a) && WellStated(b) && History(a) == History(b)
    ensures a == b
  {
    assert History(a)[0] == CreationOf(a) && History(b)[0] == CreationOf(b);
    assert |a.changes| == |b.changes|;
    forall i | 0 <= i < |a.changes|
      ensures a.changes[i] == b.changes[i]
    {
      assert History(a)[1 + i] == StateChange(a.changes[i]);
      assert History(b)[1 + i] == StateChange(b.changes[i]);
    }
  }

  /** No stored record is shorter than a copy, and the stored one has a state. */
  lemma StoredIsLong(q: Record, running: Option<Record>, e: Entry, copy: Record)
    requires Ready(q, running, e, copy)
    ensures |copy.changes| <= |e.record.value.changes|
    ensures WellStated(e.record.value) && WellStated(copy)
  {
  }

  /** The log that a write makes true: the copy's history if the stored record is no
      longer than the copy, and otherwise what the write would say anyway. */
  lemma WriteTells(q: Record, running: Option<Record>, e: Entry, copy: Record, to: RunState, now: nat)
    requires Ready(q, running, e, copy) && copy.state.CanBecome(to)
    ensures var w := copy.Moved(to, now);
      Truthful(Put(e, w)) <==>
        e.told == if |e.record.value.changes| == |copy.changes| then History(copy) else History(w)
  {
    var w := copy.Moved(to, now);
    StoredIsLong(q, running, e, copy);
    PutIsTold(e, w);
    MovedHistory(copy, to, now);
    HistorySplits(copy, 0);
    HistorySplits(w, 0);
    assert History(w)[..1 + |copy.changes|] == History(copy);
    assert History(w)[..1 + |w.changes|] == History(w);
  }

  lemma TruthKept(q: Record, running: Option<Record>, e: Entry, copy: Record, to: RunState, now: nat)
    requires Ready(q, running, e, copy) && copy.state.CanBecome(to) && Truthful(e)
    ensures var w := copy.Moved(to, now);
      Truthful(Put(e, w)) <==> e.record.value == copy || e.record.value == w
  {
    var w, r := copy.Moved(to, now), e.record.value;
    WriteTells(q, running, e, copy, to, now);
    StoredIsLong(q, running, e, copy);
    HistorySplits(r, 0);
    HistorySplits(w, 0);
    if |r.changes| == |copy.changes| {
      if e.told == History(copy) { SameHistory(r, copy); }
    } else if e.told == History(w) {
      SameHistory(r, w);
    }
  }

  /** Whatever has happened, a write keeps a truthful log truthful exactly when the
      stored record is still the copy its writer read, or is already what it writes. */
  lemma WriteIsToldIff(actions: seq<Action>, s: State, a: Action)
    requires Reached(actions, s) && Truthful(s.entry) && Writes(s, a)
    ensures var copy := CopyOf(s, a);
      && copy.state.CanBecome(TargetOf(a))
      && (Truthful(Next(s, a).value.entry) <==>
            s.entry.record == Some(copy) || s.entry.record == Some(copy.Moved(TargetOf(a), a.now)))
  {
    RunOk(INITIAL, actions);
    WriteIs(s, a);
    OffersReady(s, CopyOf(s, a), TargetOf(a));
    TruthKept(s.queued.value, s.running, s.entry, CopyOf(s, a), TargetOf(a), a.now);
  }

  /** The write found stored what its writer had read. */
  ghost predicate WroteFresh(s: Option<State>, a: Action)
  {
    s.Some? && Writes(s.value, a) && s.value.entry.record == Some(CopyOf(s.value, a))
  }

  lemma FreshStep(s: State, a: Action)
    requires Inv(s) && Next(s, a).Some? && Truthful(s.entry) && (IsWrite(a) ==> WroteFresh(Some(s), a))
    ensures Truthful(Next(s, a).value.entry)
  {
    if IsWrite(a) {
      WriteIs(s, a);
      OffersReady(s, CopyOf(s, a), TargetOf(a));
      TruthKept(s.queued.value, s.running, s.entry, CopyOf(s, a), TargetOf(a), a.now);
    } else if a.Recover? && Live(s.entry).Some? {
      TruthKept(s.queued.value, s.running, s.entry, s.entry.record.value, RunFailed, a.now);
    }
  }

  /** As long as no write replaced anything but what its writer had read, the log
      tells the record's history, through restarts and recovery. */
  lemma {:induction false} FreshWritesAreTold(actions: seq<Action>, s: State)
    requires Reached(actions, s)
    requires forall k :: 0 <= k < |actions| && IsWrite(actions[k]) ==>
               WroteFresh(Run(INITIAL, actions[..k]), actions[k])
    ensures Truthful(s.entry)
    decreases |actions|
  {
    if actions != [] {
      var n := |actions| - 1;
      var before := actions[..n];
      forall k | 0 <= k < n && IsWrite(before[k])
        ensures WroteFresh(Run(INITIAL, before[..k]), before[k])
      {
        assert before[..k] == actions[..k] && before[k] == actions[k];
      }
      var t := Run(INITIAL, before).value;
      FreshWritesAreTold(before, t);
      RunOk(INITIAL, before);
      FreshStep(t, actions[n]);
    }
  }

  // ------------------------------------------------ when truth can come back

  /** The log already tells `copy` moved to `to` at some time. */
  ghost predicate TellsMove(told: seq<Event>, copy: Record, to: RunState)
  {
    copy.state.CanBecome(to) && exists now :: told == History(copy.Moved(to, now))
  }

  /** A write of `copy` moved to `to` can make the log true: nothing longer than the
      copy is stored and the log tells the copy, or something longer is stored and the
      log tells just what the write would say. */
  ghost predicate Heals(e: Entry, copy: Record, to: RunState)
    requires e.record.Some?
  {
    if |e.record.value.changes| == |copy.changes| then e.told == History(copy) else TellsMove(e.told, copy, to)
  }

  /** Somebody holds a copy whose write can make the log true. */
  ghost predicate Healable(s: State)
    requires s.entry.record.Some?
  {
    exists copy, to :: Offers(s, copy, to) && Heals(s.entry, copy, to)
  }

  ghost predicate CanBecomeTrue(s: State)
  {
    exists more :: Run(s, more).Some? && Truthful(Run(s, more).value.entry)
  }

  ghost predicate Lost(s: State)
  {
    s.entry.record.Some? && !Truthful(s.entry) && !Healable(s)
  }

  lemma WriteHeals(q: Record, running: Option<Record>, e: Entry, copy: Record, to: RunState, now: nat)
    requires Ready(q, running, e, copy) && copy.state.CanBecome(to) && Truthful(Put(e, copy.Moved(to, now)))
    ensures Heals(e, copy, to)
  {
    WriteTells(q, running, e, copy, to, now);
  }

  lemma HistoryLength(r: Record)
    ensures |History(r)| == 1 + |r.changes|
  {
  }

  /** A write that does not make the log true does not help another writer. */
  lemma WriteHelpsNobody(q: Record, running: Option<Record>, e: Entry, copy: Record, w: Record, other: Record,
                         to: RunState)
    requires Ready(q, running, e, copy) && Ready(q, running, e, other) && Follows(copy, w) && !Truthful(e)
    requires !Heals(e, copy, w.state) && !Heals(e, other, to)
    ensures !Heals(Put(e, w), other, to)
  {
    StoredIsLong(q, running, e, copy);
    StoredIsLong(q, running, e, other);
    HistoryLength(other);
    HistoryLength(q);
    HistoryLength(copy);
    var stored := |e.record.value.changes|;
    if stored >= |w.changes| {
      assert Put(e, w).told == e.told;
    } else {
      assert Put(e, w).told == e.told + Changes(w, stored);
      if TellsMove(Put(e, w).told, other, to) { AppendedMove(e.told, w, other, to); }
    }
  }

  lemma AppendedMove(told: seq<Event>, w: Record, other: Record, to: RunState)
    requires w.changes != [] && TellsMove(told + Changes(w, |w.changes| - 1), other, to)
    ensures told == History(other)
  {
    var now :| told + Changes(w, |w.changes| - 1) == History(other.Moved(to, now));
    MovedHistory(other, to, now);
    assert told == (told + Changes(w, |w.changes| - 1))[..|told|];
    assert |Changes(w, |w.changes| - 1)| == 1;
  }

  /** Whoever holds a copy after a step held it before, or it is what is stored now. */
  lemma OffersBefore(s: State, a: Action, copy: Record, to: RunState)
    requires Next(s, a).Some? && Offers(Next(s, a).value, copy, to)
    ensures Offers(s, copy, to) || Next(s, a).value.entry.record == Some(copy)
  {
  }

  lemma FreshCannotHeal(e: Entry, to: RunState)
    requires e.record.Some? && !Truthful(e)
    ensures !Heals(e, e.record.value, to)
  {
  }

  lemma LostByWrite(s: State, a: Action)
    requires Inv(s) && Lost(s) && Writes(s, a)
    ensures Lost(Next(s, a).value)
  {
    var copy, to, t := CopyOf(s, a), TargetOf(a), Next(s, a).value;
    WriteIs(s, a);
    OffersReady(s, copy, to);
    var w := copy.Moved(to, a.now);
    if Truthful(t.entry) { WriteHeals(s.queued.value, s.running, s.entry, copy, to, a.now); }
    forall other, next | Offers(t, other, next)
      ensures !Heals(t.entry, other, next)
    {
      OffersBefore(s, a, other, next);
      if t.entry.record == Some(other) {
        FreshCannotHeal(t.entry, next);
      } else {
        OffersReady(s, other, next);
        WriteHelpsNobody(s.queued.value, s.running, s.entry, copy, w, other, next);
      }
    }
  }

  lemma LostByRecovery(s: State, now: nat)
    requires Inv(s) && Lost(s) && Next(s, Recover(now)).Some?
    ensures Lost(Next(s, Recover(now)).value)
  {
    if Live(s.entry).Some? {
      var r := s.entry.record.value;
      WriteTells(s.queued.value, s.running, s.entry, r, RunFailed, now);
    }
  }

  lemma LostByOther(s: State, a: Action)
    requires Lost(s) && Next(s, a).Some? && !IsWrite(a) && !a.Recover?
    ensures Lost(Next(s, a).value)
  {
    var t := Next(s, a).value;
    assert t.entry == s.entry;
    forall copy, to | Offers(t, copy, to)
      ensures !Heals(t.entry, copy, to)
    {
      OffersBefore(s, a, copy, to);
      if t.entry.record == Some(copy) { FreshCannotHeal(t.entry, to); }
    }
  }

  lemma {:induction false} LostRun(s: State, more: seq<Action>)
    requires Inv(s) && Lost(s) && Run(s, more).Some?
    ensures Lost(Run(s, more).value)
    decreases |more|
  {
    if more != [] {
      var n := |more| - 1;
      LostRun(s, more[..n]);
      RunOk(s, more[..n]);
      var t := Run(s, more[..n]).value;
      if IsWrite(more[n]) {
        LostByWrite(t, more[n]);
      } else if more[n].Recover? {
        LostByRecovery(t, more[n].now);
      } else {
        LostByOther(t, more[n]);
      }
    }
  }

  lemma LostForGood(s: State)
    requires Inv(s) && Lost(s)
    ensures !CanBecomeTrue(s)
  {
    forall more | Run(s, more).Some?
      ensures !Truthful(Run(s, more).value.entry)
    {
      LostRun(s, more);
    }
  }

  /** The action by which a holder writes its copy. */
  lemma OfferIsWrite(s: State, copy: Record, to: RunState, now: nat) returns (a: Action)
    requires Offers(s, copy, to) && copy.state.CanBecome(to)
    ensures Writes(s, a) && CopyOf(s, a) == copy && TargetOf(a) == to && a.now == now
  {
    if s.executor.Claimed? && s.executor.copy == copy && to == RunRunning {
      a := Start(now);
    } else if s.executor.Started? && s.executor.copy == copy && to.Terminal() {
      a := Finish(to, now);
    } else {
      var pid :| pid in s.cancellers && s.cancellers[pid] == Holding(copy);
      a := CancelWrite(pid, now);
    }
  }

  lemma OfferCanMove(s: State, copy: Record, to: RunState)
    requires Inv(s) && Offers(s, copy, to)
    ensures copy.state.CanBecome(to)
  {
  }

  lemma HolderHeals(s: State, copy: Record, to: RunState)
    requires Inv(s) && s.entry.record.Some? && Offers(s, copy, to) && Heals(s.entry, copy, to)
    ensures CanBecomeTrue(s)
  {
    OfferCanMove(s, copy, to);
    OffersReady(s, copy, to);
    var now: nat := 0;
    if TellsMove(s.entry.told, copy, to) { now :| s.entry.told == History(copy.Moved(to, now)); }
    var a := OfferIsWrite(s, copy, to, now);
    WriteIs(s, a);
    WriteTells(s.queued.value, s.running, s.entry, copy, to, now);
    RunOne(s, [], s, a, Next(s, a).value);
  }

  lemma RunOne(s: State, actions: seq<Action>, t: State, a: Action, u: State)
    requires Run(s, actions) == Some(t) && Next(t, a) == Some(u)
    ensures Run(s, actions + [a]) == Some(u)
  {
    var more := actions + [a];
    assert more[..|more| - 1] == actions;
  }

  /** The log of a run can still come to tell what its record says exactly when it
      does already, or somebody holds a copy with which the very next write makes it
      so.  Otherwise it is wrong for good, whatever is read, written or restarted. */
  lemma TruthReturnsIff(actions: seq<Action>, s: State)
    requires Reached(actions, s) && s.entry.record.Some?
    ensures CanBecomeTrue(s) <==> Truthful(s.entry) || Healable(s)
  {
    RunOk(INITIAL, actions);
    if Truthful(s.entry) {
      assert Run(s, []) == Some(s);
    } else if Healable(s) {
      var copy, to :| Offers(s, copy, to) && Heals(s.entry, copy, to);
      HolderHeals(s, copy, to);
    } else {
      LostForGood(s);
    }
  }

  // ------------------------------------------------------------------- runs

  /** A canceller has found no execution; then an execution has claimed the run and
      both have read the queued record. */
  function BothRead(submit: Action): seq<Action>
  {
    [] + [submit] + [CancelCheck(0)] + [Enter] + [Load] + [CancelRead(0)]
  }

  ghost predicate BothHold(s: State, q: Record)
  {
    && Inv(s) && s.entry.record == Some(q) && s.queued == Some(q) && s.running.None?
    && s.executor == Claimed(q) && s.cancellers == map[0 := Holding(q)]
  }

  lemma Begin(submit: Action) returns (s: State, q: Record)
    requires submit.Submit?
    ensures Run(INITIAL, BothRead(submit)) == Some(s) && BothHold(s, q)
  {
    q := Fresh(submit.component, submit.capability, submit.origin, submit.now);
    var s1 := State(Put(EMPTY, q), Absent, map[], Some(q), None);
    var s2 := s1.(cancellers := map[0 := Checked]);
    var s3, s4 := s2.(executor := Entered), s2.(executor := Claimed(q));
    s := s4.(cancellers := map[0 := Holding(q)]);
    var done := [];
    RunOne(INITIAL, done, INITIAL, submit, s1);
    RunOne(INITIAL, done + [submit], s1, CancelCheck(0), s2);
    RunOne(INITIAL, done + [submit] + [CancelCheck(0)], s2, Enter, s3);
    RunOne(INITIAL, done + [submit] + [CancelCheck(0)] + [Enter], s3, Load, s4);
    assert s4.cancellers[0 := Holding(q)] == map[0 := Holding(q)];
    RunOne(INITIAL, done + [submit] + [CancelCheck(0)] + [Enter] + [Load], s4, CancelRead(0), s);
    RunOk(INITIAL, BothRead(submit));
  }

  lemma RunThree(s: State, actions: seq<Action>, t: State, a: Action, b: Action, c: Action)
    requires Run(s, actions) == Some(t) && Next(t, a).Some?
    requires Next(Next(t, a).value, b).Some? && Next(Next(Next(t, a).value, b).value, c).Some?
    ensures Run(s, actions + [a]) == Next(t, a)
    ensures Run(s, actions + [a] + [b]) == Next(Next(t, a).value, b)
    ensures Run(s, actions + [a] + [b] + [c]) == Next(Next(Next(t, a).value, b).value, c)
  {
    var t1 := Next(t, a).value;
    var t2 := Next(t1, b).value;
    RunOne(s, actions, t, a, t1);
    RunOne(s, actions + [a], t1, b, t2);
    RunOne(s, actions + [a] + [b], t2, c, Next(t2, c).value);
  }

  /** Started, then cancelled from the copy as queued, then finished. */
  lemma HealedEntry(q: Record, e: Entry, a: nat, b: nat, c: nat)
    requires Ready(q, None, e, q) && e.record == Some(q)
    ensures var running, cancelled := q.Moved(RunRunning, a), q.Moved(RunCancelled, b);
      var stale := Put(Put(e, running), cancelled);
      && !Truthful(stale) && stale.told == History(running)
      && Truthful(Put(stale, running.Moved(RunSucceeded, c)))
  {
    var running := q.Moved(RunRunning, a);
    var e1 := Put(e, running);
    StartStoredOk(q, e, a);
    WriteTells(q, None, e, q, RunRunning, a);
    TruthKept(q, Some(running), e1, q, RunCancelled, b);
    PutStoredOk(q, Some(running), e1, q, RunCancelled, b);
    WriteTells(q, Some(running), Put(e1, q.Moved(RunCancelled, b)), running, RunSucceeded, c);
  }

  /** What the three writes leave, in this order. */
  lemma StartCancelFinish(s: State, q: Record, a: nat, b: nat, c: nat)
    requires BothHold(s, q)
    ensures Next(s, Start(a)).Some?
    ensures var running := q.Moved(RunRunning, a);
      var s1 := Next(s, Start(a)).value;
      && Next(s1, CancelWrite(0, b)).Some?
      && var s2 := Next(s1, CancelWrite(0, b)).value;
         && s2.entry == Put(Put(s.entry, running), q.Moved(RunCancelled, b)) && s2.running == Some(running)
         && Next(s2, Finish(RunSucceeded, c)).Some?
         && Next(s2, Finish(RunSucceeded, c)).value.entry == Put(s2.entry, running.Moved(RunSucceeded, c))
  {
  }

  lemma CancelStartFinish(s: State, q: Record, a: nat, b: nat, c: nat)
    requires BothHold(s, q)
    ensures Next(s, CancelWrite(0, b)).Some?
    ensures var running := q.Moved(RunRunning, a);
      var s1 := Next(s, CancelWrite(0, b)).value;
      && s1.entry == Put(s.entry, q.Moved(RunCancelled, b))
      && Next(s1, Start(a)).Some?
      && var s2 := Next(s1, Start(a)).value;
         && Next(s2, Finish(RunSucceeded, c)).Some?
         && var s3 := Next(s2, Finish(RunSucceeded, c)).value;
            && s3.entry == Put(Put(s1.entry, running), running.Moved(RunSucceeded, c))
            && s3.executor == Closing && s3.cancellers == map[]
  {
  }

  lemma QuietIsLost(s: State)
    requires s.entry.record.Some? && !Truthful(s.entry) && s.executor == Closing && s.cancellers == map[]
    ensures Lost(s)
  {
  }

  /** Cancelled, then started and finished from the copy as queued. */
  lemma DivergedEntry(q: Record, e: Entry, a: nat, b: nat, c: nat)
    requires Ready(q, None, e, q) && e.record == Some(q)
    ensures var cancelled, running := q.Moved(RunCancelled, b), q.Moved(RunRunning, a);
      var last := Put(Put(Put(e, cancelled), running), running.Moved(RunSucceeded, c));
      && Truthful(Put(e, cancelled)) && !Truthful(last)
      && last.told == History(cancelled) + [StateChange(RunTransition(RunRunning, RunSucceeded, c))]
  {
    var running, cancelled := q.Moved(RunRunning, a), q.Moved(RunCancelled, b);
    var e1 := Put(e, cancelled);
    WriteTells(q, None, e, q, RunCancelled, b);
    PutStoredOk(q, None, e, q, RunCancelled, b);
    StartStoredOk(q, e1, a);
    WriteTells(q, Some(running), Put(e1, running), running, RunSucceeded, c);
    MovedHistory(q, RunRunning, a);
    MovedHistory(q, RunCancelled, b);
    assert History(cancelled)[|History(q)|] != History(running)[|History(q)|];
  }

  /** The execution writes first: the canceller's write then goes untold, and the
      record is cancelled while the log ends with running.  The execution's last write,
      which replaces the cancellation, makes the log true again. */
  lemma LateCancelIsUntold(submit: Action, a: nat, b: nat, c: nat)
    requires submit.Submit?
    ensures
      var actions := BothRead(submit) + [Start(a)] + [CancelWrite(0, b)];
      var s, t := Run(INITIAL, actions), Run(INITIAL, actions + [Finish(RunSucceeded, c)]);
      && s.Some? && s.value.entry.record.Some? && s.value.entry.record.value.state == RunCancelled
      && s.value.running.Some?
      && s.value.entry.told == History(s.value.running.value) && !Truthful(s.value.entry)
      && t.Some? && t.value.entry.record.Some? && t.value.entry.record.value.state == RunSucceeded
      && Truthful(t.value.entry)
  {
    var s, q := Begin(submit);
    HealedEntry(q, s.entry, a, b, c);
    StartCancelFinish(s, q, a, b, c);
    RunThree(INITIAL, BothRead(submit), s, Start(a), CancelWrite(0, b), Finish(RunSucceeded, c));
  }

  /** The canceller writes first: the execution, which holds the queued record, starts
      the run all the same.  The log then tells a cancellation followed by a success,
      and nothing will ever make it true again. */
  lemma CancelledRunStarts(submit: Action, a: nat, b: nat, c: nat)
    requires submit.Submit?
    ensures
      var cancel := BothRead(submit) + [CancelWrite(0, b)];
      var s, t := Run(INITIAL, cancel), Run(INITIAL, cancel + [Start(a)] + [Finish(RunSucceeded, c)]);
      && s.Some? && s.value.entry.record.Some? && s.value.entry.record.value.state == RunCancelled
      && Truthful(s.value.entry)
      && t.Some? && t.value.entry.record.Some? && t.value.entry.record.value.state == RunSucceeded
      && t.value.entry.told == s.value.entry.told + [StateChange(RunTransition(RunRunning, RunSucceeded, c))]
      && !CanBecomeTrue(t.value)
  {
    var s, q := Begin(submit);
    DivergedEntry(q, s.entry, a, b, c);
    CancelStartFinish(s, q, a, b, c);
    var actions := BothRead(submit);
    RunThree(INITIAL, actions, s, CancelWrite(0, b), Start(a), Finish(RunSucceeded, c));
    var all := actions + [CancelWrite(0, b)] + [Start(a)] + [Finish(RunSucceeded, c)];
    RunOk(INITIAL, all);
    QuietIsLost(Run(INITIAL, all).value);
    LostForGood(Run(INITIAL, all).value);
  }

  // ------------------------------------------------------------ stored states

  /** The state an action writes. */
  function WrittenBy(s: State, a: Action): Option<RunState>
  {
    match a
    case Submit(_, _, _, _) => Some(RunQueued)
    case Start(_) => Some(RunRunning)
    case Finish(to, _) => Some(to)
    case CancelWrite(_, _) => Some(RunCancelled)
    case Recover(_) =>
      if s.entry.record.Some? && !s.entry.record.value.state.Terminal() then Some(RunFailed) else None
    case _ => None
  }

  ghost function LastWritten(actions: seq<Action>): Option<RunState>
  {
    if actions == [] then None else
      var n := |actions| - 1;
      var before := Run(INITIAL, actions[..n]);
      var now := if before.Some? then WrittenBy(before.value, actions[n]) else None;
      if now.Some? then now else LastWritten(actions[..n])
  }

  lemma NextWrites(s: State, a: Action)
    requires Next(s, a).Some?
    ensures var t := Next(s, a).value;
      if WrittenBy(s, a).Some? then t.entry.record.Some? && t.entry.record.value.state == WrittenBy(s, a).value
      else t.entry == s.entry
  {
  }

  /** The stored state is the one written last: by the submission, by the start or the
      end of an execution, by a canceller, or by the recovery of a live run. */
  lemma {:induction false} StateIsLastWritten(actions: seq<Action>, s: State)
    requires Reached(actions, s)
    ensures LastWritten(actions) == if s.entry.record.Some? then Some(s.entry.record.value.state) else None
    decreases |actions|
  {
    if actions != [] {
      var n := |actions| - 1;
      var before := Run(INITIAL, actions[..n]).value;
      StateIsLastWritten(actions[..n], before);
      NextWrites(before, actions[n]);
    }
  }

  // ------------------------------------------------- undisturbed executions

  /** The execution is registered, nobody else is at the record, and what it holds is
      what is stored. */
  ghost predicate Undisturbed(s: State)
  {
    && Inv(s) && Truthful(s.entry) && !s.executor.Absent? && s.cancellers == map[]
    && (s.executor.Claimed? || s.executor.Started? ==> s.entry.record == Some(s.executor.copy))
  }

  lemma UndisturbedStep(s: State, a: Action)
    requires Undisturbed(s) && Next(s, a).Some? && !a.Leave? && !a.Restart?
    ensures Undisturbed(Next(s, a).value)
  {
    NextOk(s, a);
    FreshStep(s, a);
  }

  /** An execution that registers while no canceller is under way keeps the record and
      its log to itself until it leaves: whoever asks to cancel only signals it, every
      write is its own, and the log stays true. */
  lemma {:induction false} ExecutionIsUndisturbed(actions: seq<Action>, s: State, more: seq<Action>)
    requires Reached(actions, s) && s.executor.Entered? && s.cancellers == map[] && Truthful(s.entry)
    requires Run(s, more).Some? && Leave !in more && Restart !in more
    ensures Undisturbed(Run(s, more).value)
    decreases |more|
  {
    if more == [] {
      RunOk(INITIAL, actions);
    } else {
      var n := |more| - 1;
      ExecutionIsUndisturbed(actions, s, more[..n]);
      UndisturbedStep(Run(s, more[..n]).value, more[n]);
    }
  }
}
