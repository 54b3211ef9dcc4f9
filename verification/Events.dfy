/** The lifecycle event log and the store that couples it to task records.

    Every accepted task write appends the events that tell the new part of the
    task's history.  The log numbers events from one, in 64 bits. */
module Events {
  import opened Keys
  import opened Workspaces
  import opened TaskLifecycle

  const MAX_SEQUENCE: nat := 0xFFFF_FFFF_FFFF_FFFF
  const MAX_EVENT_PAGE := 1000

  /** An event before it is numbered.  Events about anything but tasks are kept
      only as such. */
  datatype Body =
    | TaskCreated(task: nat, principal: string, at: nat)
    | TaskStateChanged(task: nat, from: TaskState, to: TaskState, digest: Option<nat>, at: nat)
    | Elsewhere(detail: nat)
  {
    predicate About(id: nat)
    {
      !Elsewhere? && task == id
    }
  }

  datatype Event = Event(sequence: nat, body: Body)

  datatype LogError = Exhausted | BadLimit | Rejected

  /** The numbered form of a log. */
  ghost function Numbered(bodies: seq<Body>): seq<Event>
  {
    seq(|bodies|, i requires 0 <= i < |bodies| => Event(i + 1, bodies[i]))
  }

  /** Appends as many of `more` as there are numbers left. */
  function Extended(bodies: seq<Body>, more: seq<Body>): seq<Body>
  {
    if |bodies| + |more| <= MAX_SEQUENCE then bodies + more
    else if |bodies| <= MAX_SEQUENCE then bodies + more[..MAX_SEQUENCE - |bodies|]
    else bodies
  }

  class EventLog {
    var nextSequence: nat
    var events: seq<Event>
    ghost var bodies: seq<Body>

    ghost predicate Valid()
      reads this
    {
      nextSequence == |bodies| <= MAX_SEQUENCE && events == Numbered(bodies)
    }

    constructor ()
      ensures Valid() && bodies == []
    {
      nextSequence := 0;
      events := [];
      bodies := [];
    }

    method Record(body: Body) returns (r: Result<Event, LogError>)
      requires Valid()
      modifies this
      ensures Valid()
      ensures r == if |old(bodies)| < MAX_SEQUENCE then Ok(Event(|old(bodies)| + 1, body)) else Err(Exhausted)
      ensures bodies == if r.Ok? then old(bodies) + [body] else old(bodies)
    {
      if nextSequence == MAX_SEQUENCE { return Err(Exhausted); }
      nextSequence := nextSequence + 1;
      var stored := Event(nextSequence, body);
      events := events + [stored];
      bodies := bodies + [body];
      return Ok(stored);
    }

    method RecordAll(more: seq<Body>) returns (r: Result<(), LogError>)
      requires Valid()
      modifies this
      ensures Valid() && bodies == Extended(old(bodies), more)
      ensures r == if |old(bodies)| + |more| <= MAX_SEQUENCE then Ok(()) else Err(Exhausted)
    {
      for k := 0 to |more|
        invariant Valid() && bodies == old(bodies) + more[..k]
      {
        var one := Record(more[k]);
        if one.Err? { return Err(Exhausted); }
        assert more[..k + 1] == more[..k] + [more[k]];
      }
      assert more[..|more|] == more;
      return Ok(());
    }

    /** The events after a sequence number, oldest first, at most `limit`. */
    method ListAfter(after: nat, limit: nat) returns (r: Result<seq<Event>, LogError>)
      requires Valid()
      ensures r == Page(events, after, limit)
    {
      if !(1 <= limit <= MAX_EVENT_PAGE) { return Err(BadLimit); }
      var page: seq<Event> := [];
      var k := 0;
      while k < |events| && |page| < limit
        invariant 0 <= k <= |events|
        invariant page == if k <= after then [] else events[after..k]
        invariant |page| <= limit
        decreases |events| - k
      {
        if events[k].sequence > after { page := page + [events[k]]; }
        k := k + 1;
      }
      assert AtMost(after + limit, |events|) == if k <= after then |events| else k;
      assert page == events[AtMost(after, |events|)..AtMost(after + limit, |events|)];
      return Ok(page);
    }
  }

  // ------------------------------------------------------------------ paging

  /** The slice of the log that one read returns. */
  function Page(events: seq<Event>, after: nat, limit: nat): Result<seq<Event>, LogError>
  {
    if !(1 <= limit <= MAX_EVENT_PAGE) then Err(BadLimit)
    else Ok(events[AtMost(after, |events|)..AtMost(after + limit, |events|)])
  }

  function NextAfter(page: seq<Event>, after: nat): nat
  {
    if page == [] then after else page[|page| - 1].sequence
  }

  /** A client reads pages while the log grows. */
  datatype WalkStep = Append(body: Body) | Read(limit: nat)

  datatype Walk = Walk(bodies: seq<Body>, cursor: nat, collected: seq<Event>)

  ghost function Step(w: Walk, step: WalkStep): Walk
  {
    match step
    case Append(body) => w.(bodies := Extended(w.bodies, [body]))
    case Read(limit) =>
      (match Page(Numbered(w.bodies), w.cursor, limit)
       case Err(_) => w
       case Ok(page) => w.(cursor := NextAfter(page, w.cursor), collected := w.collected + page))
  }

  ghost function Walked(w: Walk, steps: seq<WalkStep>): Walk
  {
    if steps == [] then w else Step(Walked(w, steps[..|steps| - 1]), steps[|steps| - 1])
  }

  /** The client holds exactly the events from its starting point to its cursor. */
  ghost predicate Following(w: Walk, start: nat)
  {
    && (w.cursor == start || start <= w.cursor <= |w.bodies|)
    && w.collected == Numbered(w.bodies)[AtMost(start, |w.bodies|)..AtMost(w.cursor, |w.bodies|)]
  }

  lemma StepFollows(w: Walk, step: WalkStep, start: nat)
    requires Following(w, start)
    ensures Following(Step(w, step), start)
  {
    match step
    case Append(body) => GrowthFollows(w, Extended(w.bodies, [body]), start);
    case Read(limit) => ReadFollows(w, limit, start);
  }

  lemma GrowthFollows(w: Walk, longer: seq<Body>, start: nat)
    requires Following(w, start) && w.bodies <= longer && |longer| <= |w.bodies| + 1
    ensures Following(w.(bodies := longer), start)
  {
    assert Numbered(longer)[..|w.bodies|] == Numbered(w.bodies);
    if start <= |w.bodies| {
      var hi := AtMost(w.cursor, |w.bodies|);
      assert AtMost(w.cursor, |longer|) == hi;
      assert Numbered(longer)[start..hi] == Numbered(w.bodies)[start..hi];
    }
  }

  lemma ReadFollows(w: Walk, limit: nat, start: nat)
    requires Following(w, start)
    ensures Following(Step(w, Read(limit)), start)
  {
    var all, n := Numbered(w.bodies), |w.bodies|;
    if 1 <= limit <= MAX_EVENT_PAGE && w.cursor < n {
      var hi := AtMost(w.cursor + limit, n);
      PageEnds(w.bodies, w.cursor, hi);
      SlicesJoin(all, start, w.cursor, hi);
    }
  }

  /** A page that is not empty ends with the event whose number is its end. */
  lemma PageEnds(bodies: seq<Body>, lo: nat, hi: nat)
    requires lo < hi <= |bodies|
    ensures NextAfter(Numbered(bodies)[lo..hi], lo) == hi
  {
    var page := Numbered(bodies)[lo..hi];
    assert page[|page| - 1] == Numbered(bodies)[hi - 1];
  }

  lemma SlicesJoin(all: seq<Event>, a: nat, b: nat, c: nat)
    requires a <= b <= c <= |all|
    ensures all[a..b] + all[b..c] == all[a..c]
  {
  }

  lemma {:induction false} WalkFollows(w: Walk, steps: seq<WalkStep>, start: nat)
    requires Following(w, start)
    ensures Following(Walked(w, steps), start)
    decreases |steps|
  {
    if steps != [] {
      WalkFollows(w, steps[..|steps| - 1], start);
      StepFollows(Walked(w, steps[..|steps| - 1]), steps[|steps| - 1], start);
    }
  }

  /** Whatever mix of legal limits is used and however the log grows between reads,
      the pages read so far, put together, are the events that follow the starting
      point up to the cursor, each exactly once and in order; and a legal read that
      comes back empty means that nothing was missed. */
  lemma PagesAreExact(bodies: seq<Body>, start: nat, steps: seq<WalkStep>, limit: nat)
    requires 1 <= limit <= MAX_EVENT_PAGE
    ensures var w := Walked(Walk(bodies, start, []), steps);
      var all := Numbered(w.bodies);
      var from := AtMost(start, |all|);
      && w.collected <= all[from..]
      && (Page(all, w.cursor, limit) == Ok([]) <==> w.collected == all[from..])
  {
    var w := Walked(Walk(bodies, start, []), steps);
    WalkFollows(Walk(bodies, start, []), steps, start);
    var all := Numbered(w.bodies);
    var from, to := AtMost(start, |all|), AtMost(w.cursor, |all|);
    assert all[from..] == all[from..to] + all[to..];
  }

  // ------------------------------------------------------------- task events

  function Changed(s: Snapshot, t: Transition): Body
  {
    TaskStateChanged(s.spec.id, t.from, t.to,
                     if t.to == Admitted && s.evidence.Some? then Some(s.evidence.value.digest) else None, t.at)
  }

  function Changes(s: Snapshot, from: nat): (r: seq<Body>)
  {
    if from >= |s.transitions| then [] else
      seq(|s.transitions| - from, i requires 0 <= i < |s.transitions| - from => Changed(s, s.transitions[from + i]))
  }

  function Creation(s: Snapshot): Body
  {
    TaskCreated(s.spec.id, s.spec.principal, s.createdAt)
  }

  /** The events an accepted write appends. */
  function Derived(previous: Option<Snapshot>, s: Snapshot): seq<Body>
  {
    match previous
    case None => [Creation(s)] + Changes(s, 0)
    case Some(p) => Changes(s, |p.transitions|)
  }

  method DeriveTaskEvents(previous: Option<Snapshot>, s: Snapshot) returns (r: seq<Body>)
    ensures r == Derived(previous, s)
  {
    r := [];
    if previous.None? { r := [Creation(s)]; }
    var skip := if previous.Some? then |previous.value.transitions| else 0;
    ghost var head := r;
    for k := skip to AtLeast(skip, |s.transitions|)
      invariant r == head + Changes(s, skip)[..k - skip]
    {
      r := r + [Changed(s, s.transitions[k])];
    }
  }

  function AtLeast(a: nat, b: nat): nat
  {
    if a < b then b else a
  }

  /** The whole story of a task, told from its record. */
  ghost function History(s: Snapshot): seq<Body>
  {
    Derived(None, s)
  }

  ghost function TaskEvents(bodies: seq<Body>, id: nat): seq<Body>
  {
    if bodies == [] then [] else
      var n := |bodies| - 1;
      TaskEvents(bodies[..n], id) + if bodies[n].About(id) then [bodies[n]] else []
  }

  // --------------------------------------------------------------- the store

  datatype Store = Store(tasks: map<nat, Snapshot>, bodies: seq<Body>)

  ghost predicate Admissible(digest: Digester, tasks: map<nat, Snapshot>, s: Snapshot)
  {
    Valid(digest, s) && (s.spec.id in tasks ==> AcceptsUpdate(digest, tasks[s.spec.id], s))
  }

  function Lookup(tasks: map<nat, Snapshot>, id: nat): Option<Snapshot>
  {
    if id in tasks then Some(tasks[id]) else None
  }

  ghost function Put(digest: Digester, store: Store, s: Snapshot): (Store, Result<(), LogError>)
  {
    if !Admissible(digest, store.tasks, s) then (store, Err(Rejected)) else
      var more := Derived(Lookup(store.tasks, s.spec.id), s);
      (Store(store.tasks[s.spec.id := s], Extended(store.bodies, more)),
       if |store.bodies| + |more| <= MAX_SEQUENCE then Ok(()) else Err(Exhausted))
  }

  class HubStore {
    var tasks: map<nat, Snapshot>
    const log: EventLog

    ghost predicate Valid()
      reads this, log
    {
      log.Valid()
    }

    ghost function Contents(): Store
      reads this, log
    {
      Store(tasks, log.bodies)
    }

    constructor ()
      ensures Valid() && Contents() == Store(map[], []) && fresh(log)
    {
      tasks := map[];
      log := new EventLog();
    }

    method PutTask(digest: Digester, s: Snapshot) returns (r: Result<(), LogError>)
      requires Valid()
      modifies this, log
      ensures Valid()
      ensures (Contents(), r) == Put(digest, old(Contents()), s)
    {
      var previous := Lookup(tasks, s.spec.id);
      var valid := Validate(digest, s);
      if !valid { return Err(Rejected); }
      if previous.Some? {
        var follows := CheckUpdate(digest, previous.value, s);
        if !follows { return Err(Rejected); }
      }
      tasks := tasks[s.spec.id := s];
      var more := DeriveTaskEvents(previous, s);
      r := log.RecordAll(more);
    }
  }

  // --------------------------------------------------- the log tells the truth

  lemma {:induction false} TaskEventsConcat(a: seq<Body>, b: seq<Body>, id: nat)
    ensures TaskEvents(a + b, id) == TaskEvents(a, id) + TaskEvents(b, id)
    decreases |b|
  {
    if b == [] {
      assert a + b == a;
    } else {
      var n := |b| - 1;
      TaskEventsConcat(a, b[..n], id);
      assert (a + b)[..|a + b| - 1] == a + b[..n];
    }
  }

  lemma {:induction false} TaskEventsAll(b: seq<Body>, id: nat, mine: bool)
    requires forall i :: 0 <= i < |b| ==> b[i].About(id) == mine
    ensures TaskEvents(b, id) == if mine then b else []
    decreases |b|
  {
    if b != [] { TaskEventsAll(b[..|b| - 1], id, mine); }
  }

  lemma DerivedAbout(previous: Option<Snapshot>, s: Snapshot, id: nat)
    ensures forall i :: 0 <= i < |Derived(previous, s)| ==> Derived(previous, s)[i].About(id) == (id == s.spec.id)
  {
    var k := if previous.Some? then |previous.value.transitions| else 0;
    var changes := Changes(s, k);
    forall i | 0 <= i < |changes|
      ensures changes[i].About(id) == (id == s.spec.id)
    {
      assert changes[i] == Changed(s, s.transitions[k + i]);
    }
  }

  lemma DerivedEvents(previous: Option<Snapshot>, s: Snapshot, id: nat)
    ensures TaskEvents(Derived(previous, s), id) == if id == s.spec.id then Derived(previous, s) else []
  {
    DerivedAbout(previous, s, id);
    TaskEventsAll(Derived(previous, s), id, id == s.spec.id);
  }

  /** Every stored task is valid, under its own name. */
  ghost predicate Sound(digest: Digester, store: Store)
  {
    forall id :: id in store.tasks ==> Valid(digest, store.tasks[id]) && store.tasks[id].spec.id == id
  }

  /** For every task the log holds its history, whole and in order, and it holds
      nothing about tasks that are not stored. */
  ghost predicate Truthful(store: Store)
  {
    forall id :: TaskEvents(store.bodies, id) == Recorded(store.tasks, id)
  }

  ghost function Recorded(tasks: map<nat, Snapshot>, id: nat): seq<Body>
  {
    if id in tasks then History(tasks[id]) else []
  }

  /** What was already told stays as it was told: evidence cannot change under a
      retained admission. */
  lemma ToldChangesStay(digest: Digester, p: Snapshot, s: Snapshot, i: nat)
    requires AcceptsUpdate(digest, p, s) && i < |p.transitions|
    ensures Changed(s, s.transitions[i]) == Changed(p, p.transitions[i])
  {
    CreatedIsFresh(p.createdAt, p.transitions);
  }

  lemma HistoryAppends(p: Snapshot, s: Snapshot)
    requires p.spec == s.spec && p.createdAt == s.createdAt && |p.transitions| <= |s.transitions|
    requires forall i :: 0 <= i < |p.transitions| ==> Changed(s, s.transitions[i]) == Changed(p, p.transitions[i])
    ensures History(p) + Changes(s, |p.transitions|) == History(s)
  {
  }

  lemma HistoryGrows(digest: Digester, p: Snapshot, s: Snapshot)
    requires AcceptsUpdate(digest, p, s)
    ensures History(p) + Changes(s, |p.transitions|) == History(s)
  {
    forall i | 0 <= i < |p.transitions|
      ensures Changed(s, s.transitions[i]) == Changed(p, p.transitions[i])
    {
      ToldChangesStay(digest, p, s, i);
    }
    HistoryAppends(p, s);
  }

  lemma PutTells(digest: Digester, store: Store, s: Snapshot, id: nat)
    requires Sound(digest, store) && Admissible(digest, store.tasks, s)
    requires TaskEvents(store.bodies, id) == Recorded(store.tasks, id)
    ensures TaskEvents(store.bodies + Derived(Lookup(store.tasks, s.spec.id), s), id)
         == Recorded(store.tasks[s.spec.id := s], id)
  {
    var previous := Lookup(store.tasks, s.spec.id);
    TaskEventsConcat(store.bodies, Derived(previous, s), id);
    DerivedEvents(previous, s, id);
    if id == s.spec.id && previous.Some? { HistoryGrows(digest, previous.value, s); }
  }

  /** There are numbers left for all the events of a write. */
  ghost predicate HasRoom(store: Store, s: Snapshot)
  {
    |store.bodies| + |Derived(Lookup(store.tasks, s.spec.id), s)| <= MAX_SEQUENCE
  }

  /** One write keeps the log truthful exactly when it is not admissible or there is
      room for all its events. */
  lemma PutKeepsTruthIff(digest: Digester, store: Store, s: Snapshot)
    requires Sound(digest, store) && Truthful(store) && |store.bodies| <= MAX_SEQUENCE
    ensures Truthful(Put(digest, store, s).0) <==> !Admissible(digest, store.tasks, s) || HasRoom(store, s)
  {
    if Admissible(digest, store.tasks, s) {
      WholePutTells(digest, store, s);
      if !HasRoom(store, s) {
        PutCutsShort(digest, store, s);
        CutShortLies(Put(digest, store, s).0);
      }
    }
  }

  /** The store a write leaves when all its events fit. */
  ghost function Told(store: Store, s: Snapshot): Store
  {
    Store(store.tasks[s.spec.id := s], store.bodies + Derived(Lookup(store.tasks, s.spec.id), s))
  }

  lemma WholePutTells(digest: Digester, store: Store, s: Snapshot)
    requires Sound(digest, store) && Truthful(store) && Admissible(digest, store.tasks, s)
    ensures Truthful(Told(store, s))
  {
    forall id: nat
      ensures TaskEvents(Told(store, s).bodies, id) == Recorded(Told(store, s).tasks, id)
    {
      PutTells(digest, store, s, id);
    }
  }

  lemma CutIsShorter(bodies: seq<Body>, more: seq<Body>, k: nat, id: nat)
    requires k < |more| && forall i :: 0 <= i < |more| ==> more[i].About(id)
    ensures |TaskEvents(bodies + more[..k], id)| < |TaskEvents(bodies + more, id)|
  {
    TaskEventsConcat(bodies, more[..k], id);
    TaskEventsConcat(bodies, more, id);
    TaskEventsAll(more[..k], id, true);
    TaskEventsAll(more, id, true);
  }

  /** A step of the store: a task write, or an event of some other repository. */
  datatype StoreStep = Write(s: Snapshot) | Other(detail: nat)

  ghost function After(digest: Digester, store: Store, step: StoreStep): Store
  {
    match step
    case Write(s) => Put(digest, store, s).0
    case Other(detail) => store.(bodies := Extended(store.bodies, [Elsewhere(detail)]))
  }

  ghost function AfterAll(digest: Digester, steps: seq<StoreStep>): Store
  {
    if steps == [] then Store(map[], []) else After(digest, AfterAll(digest, steps[..|steps| - 1]), steps[|steps| - 1])
  }

  lemma AfterKeeps(digest: Digester, store: Store, step: StoreStep)
    requires Sound(digest, store) && |store.bodies| <= MAX_SEQUENCE
    ensures var next := After(digest, store, step);
      && Sound(digest, next)
      && |store.bodies| <= |next.bodies| <= MAX_SEQUENCE
      && (Truthful(store) && |next.bodies| < MAX_SEQUENCE ==> Truthful(next))
  {
    match step
    case Write(s) =>
      if Truthful(store) { PutKeepsTruthIff(digest, store, s); }
    case Other(detail) =>
      if Truthful(store) { OtherKeepsTruth(store, detail); }
  }

  lemma OtherKeepsTruth(store: Store, detail: nat)
    requires Truthful(store)
    ensures Truthful(store.(bodies := store.bodies + [Elsewhere(detail)]))
  {
    var longer := store.bodies + [Elsewhere(detail)];
    assert longer[..|longer| - 1] == store.bodies;
    forall id: nat
      ensures TaskEvents(longer, id) == TaskEvents(store.bodies, id)
    {
    }
  }

  /** Whatever writes are made, accepted or rejected, with other events in between,
      the stored tasks are valid; and until the numbers run out the log tells each
      stored task's history exactly: its creation, then its transitions in order. */
  lemma {:induction false} LogMatchesRecords(digest: Digester, steps: seq<StoreStep>)
    ensures var store := AfterAll(digest, steps);
      && Sound(digest, store)
      && |store.bodies| <= MAX_SEQUENCE
      && (|store.bodies| < MAX_SEQUENCE ==> Truthful(store))
    decreases |steps|
  {
    if steps != [] {
      LogMatchesRecords(digest, steps[..|steps| - 1]);
      AfterKeeps(digest, AfterAll(digest, steps[..|steps| - 1]), steps[|steps| - 1]);
    }
  }

  /** An event tells one transition of a record, and the evidence with an admission. */
  ghost predicate Tells(e: Body, s: Snapshot, t: Transition)
  {
    && e.TaskStateChanged? && e.task == s.spec.id && e.from == t.from && e.to == t.to && e.at == t.at
    && (e.digest.Some? <==> t.to == Admitted && s.evidence.Some?)
    && (e.digest.Some? ==> e.digest.value == s.evidence.value.digest)
  }

  // ------------------------------------------------------ when numbers run out

  /** All numbers are used up and some record has more history than the log tells. */
  ghost predicate CutShort(store: Store)
  {
    && |store.bodies| == MAX_SEQUENCE
    && exists id :: id in store.tasks && |TaskEvents(store.bodies, id)| < |History(store.tasks[id])|
  }

  lemma CutShortLies(store: Store)
    requires CutShort(store)
    ensures !Truthful(store)
  {
    var id :| id in store.tasks && |TaskEvents(store.bodies, id)| < |History(store.tasks[id])|;
    assert TaskEvents(store.bodies, id) != Recorded(store.tasks, id);
  }

  /** A write without room leaves the log cut short. */
  lemma PutCutsShort(digest: Digester, store: Store, s: Snapshot)
    requires Sound(digest, store) && Truthful(store) && |store.bodies| <= MAX_SEQUENCE
    requires Admissible(digest, store.tasks, s) && !HasRoom(store, s)
    ensures CutShort(Put(digest, store, s).0)
  {
    WholePutTells(digest, store, s);
    CutPutIsShort(store, s);
    assert Put(digest, store, s).0 == Cut(store, s);
  }

  /** The store a write leaves when its events do not fit. */
  ghost function Cut(store: Store, s: Snapshot): Store
  {
    Told(store, s).(bodies := Extended(store.bodies, Derived(Lookup(store.tasks, s.spec.id), s)))
  }

  lemma CutPutIsShort(store: Store, s: Snapshot)
    requires Truthful(Told(store, s)) && |store.bodies| <= MAX_SEQUENCE && !HasRoom(store, s)
    ensures CutShort(Cut(store, s))
  {
    var id, more := s.spec.id, Derived(Lookup(store.tasks, s.spec.id), s);
    DerivedAbout(Lookup(store.tasks, id), s, id);
    CutIsShorter(store.bodies, more, MAX_SEQUENCE - |store.bodies|, id);
    assert TaskEvents(store.bodies + more, id) == Recorded(Told(store, s).tasks, id);
    assert id in Cut(store, s).tasks;
  }

  lemma CutStaysCut(digest: Digester, store: Store, step: StoreStep)
    requires CutShort(store)
    ensures CutShort(After(digest, store, step))
  {
    var id :| id in store.tasks && |TaskEvents(store.bodies, id)| < |History(store.tasks[id])|;
    if step.Write? && Admissible(digest, store.tasks, step.s) {
      assert After(digest, store, step).bodies == store.bodies;
      if step.s.spec.id == id { HistoryGrows(digest, store.tasks[id], step.s); }
      assert |History(After(digest, store, step).tasks[id])| >= |History(store.tasks[id])|;
    } else {
      assert After(digest, store, step).bodies == store.bodies;
    }
  }

  /** The step is not an admissible write for whose events there is no room. */
  ghost predicate Fits(digest: Digester, store: Store, step: StoreStep)
  {
    step.Write? && Admissible(digest, store.tasks, step.s) ==> HasRoom(store, step.s)
  }

  ghost predicate AllFit(digest: Digester, steps: seq<StoreStep>)
  {
    forall k :: 0 <= k < |steps| ==> Fits(digest, AfterAll(digest, steps[..k]), steps[k])
  }

  lemma AllFitSnoc(digest: Digester, steps: seq<StoreStep>)
    requires steps != []
    ensures var n := |steps| - 1;
      AllFit(digest, steps) <==> AllFit(digest, steps[..n]) && Fits(digest, AfterAll(digest, steps[..n]), steps[n])
  {
    var n := |steps| - 1;
    forall k | 0 <= k < n
      ensures steps[..n][..k] == steps[..k]
    {
    }
  }

  ghost predicate TruthfulIff(store: Store, fit: bool)
  {
    if fit then Truthful(store) else CutShort(store)
  }

  lemma StepTruthfulIff(digest: Digester, store: Store, step: StoreStep, fit: bool)
    requires Sound(digest, store) && |store.bodies| <= MAX_SEQUENCE && TruthfulIff(store, fit)
    ensures TruthfulIff(After(digest, store, step), fit && Fits(digest, store, step))
  {
    if !fit {
      CutStaysCut(digest, store, step);
    } else if !Fits(digest, store, step) {
      PutCutsShort(digest, store, step.s);
    } else if step.Write? {
      PutKeepsTruthIff(digest, store, step.s);
    } else if |store.bodies| < MAX_SEQUENCE {
      OtherKeepsTruth(store, step.detail);
    } else {
      assert After(digest, store, step).bodies == store.bodies;
    }
  }

  lemma {:induction false} TruthfulOrCut(digest: Digester, steps: seq<StoreStep>)
    ensures TruthfulIff(AfterAll(digest, steps), AllFit(digest, steps))
    decreases |steps|
  {
    if steps != [] {
      var n := |steps| - 1;
      AllFitSnoc(digest, steps);
      TruthfulOrCut(digest, steps[..n]);
      LogMatchesRecords(digest, steps[..n]);
      StepTruthfulIff(digest, AfterAll(digest, steps[..n]), steps[n], AllFit(digest, steps[..n]));
    }
  }

  /** After any history the log tells the truth exactly when every admissible write
      found room for its events; one that did not spoils the log for good. */
  lemma LogIsTruthfulIff(digest: Digester, steps: seq<StoreStep>)
    ensures Truthful(AfterAll(digest, steps)) <==> AllFit(digest, steps)
  {
    TruthfulOrCut(digest, steps);
    if !AllFit(digest, steps) { CutShortLies(AfterAll(digest, steps)); }
  }

  /** A history that uses up `n` numbers. */
  function Filling(n: nat): seq<StoreStep>
  {
    seq(n, _ => Other(0))
  }

  lemma {:induction false} FilledStore(digest: Digester, n: nat)
    requires n <= MAX_SEQUENCE
    ensures AfterAll(digest, Filling(n)).tasks == map[] && |AfterAll(digest, Filling(n)).bodies| == n
    ensures forall i :: 0 <= i < n ==> AfterAll(digest, Filling(n)).bodies[i] == Elsewhere(0)
    decreases n
  {
    if n > 0 {
      FilledStore(digest, n - 1);
      assert Filling(n)[..n - 1] == Filling(n - 1) && Filling(n)[n - 1] == Other(0);
      var before := AfterAll(digest, Filling(n - 1));
      assert AfterAll(digest, Filling(n)) == before.(bodies := before.bodies + [Elsewhere(0)]);
    }
  }

  /** With no number left, writing any valid new record stores it, reports an error
      and logs nothing; writing it again is reported as a success, and the log stays
      silent about it. */
  lemma ExhaustedLogGoesSilent(digest: Digester, n: nat, s: Snapshot)
    requires n == MAX_SEQUENCE && Valid(digest, s)
    ensures var full := AfterAll(digest, Filling(n));
      var (once, r) := Put(digest, full, s);
      var (twice, q) := Put(digest, once, s);
      && r == Err(Exhausted) && q == Ok(()) && twice == once
      && s.spec.id in once.tasks && once.tasks[s.spec.id] == s
      && once.bodies == full.bodies && TaskEvents(once.bodies, s.spec.id) == [] && !Truthful(once)
  {
    FilledStore(digest, n);
    var full := AfterAll(digest, Filling(n));
    TaskEventsAll(full.bodies, s.spec.id, false);
    var once := Put(digest, full, s).0;
    assert once.bodies == full.bodies;
    assert Recorded(once.tasks, s.spec.id) == History(s) != [];
    UpdatesArePartialOrder(digest, s, s, s);
    assert Derived(Some(s), s) == [];
    assert once.tasks[s.spec.id := s] == once.tasks;
    assert Extended(once.bodies, []) == once.bodies;
  }

  // ------------------------------------------------------------ what is written

  /** A write changes the store exactly when it is accepted and new. */
  lemma OnlyNewsIsWritten(digest: Digester, store: Store, s: Snapshot)
    requires Sound(digest, store) && |store.bodies| <= MAX_SEQUENCE
    ensures Put(digest, store, s).0 == store
       <==> !Admissible(digest, store.tasks, s) || Lookup(store.tasks, s.spec.id) == Some(s)
  {
    if Lookup(store.tasks, s.spec.id) == Some(s) {
      assert Derived(Some(s), s) == [];
      assert store.tasks[s.spec.id := s] == store.tasks;
      assert Extended(store.bodies, []) == store.bodies;
    } else if Admissible(digest, store.tasks, s) {
      assert Put(digest, store, s).0.tasks[s.spec.id] == s;
    }
  }

  /** The step is a write that is rejected or repeats what is stored. */
  ghost predicate Idle(digest: Digester, store: Store, step: StoreStep)
  {
    step.Write? && (!Admissible(digest, store.tasks, step.s) || Lookup(store.tasks, step.s.spec.id) == Some(step.s))
  }

  /** A history without its idle writes. */
  ghost function News(digest: Digester, steps: seq<StoreStep>): seq<StoreStep>
  {
    if steps == [] then [] else
      var n := |steps| - 1;
      News(digest, steps[..n]) + if Idle(digest, AfterAll(digest, steps[..n]), steps[n]) then [] else [steps[n]]
  }

  /** Rejected and repeated writes leave no trace: a history and the same history
      without them end in the same store. */
  lemma {:induction false} IdleWritesLeaveNoTrace(digest: Digester, steps: seq<StoreStep>)
    ensures AfterAll(digest, News(digest, steps)) == AfterAll(digest, steps)
    decreases |steps|
  {
    if steps != [] {
      var n := |steps| - 1;
      IdleWritesLeaveNoTrace(digest, steps[..n]);
      var store := AfterAll(digest, steps[..n]);
      if Idle(digest, store, steps[n]) {
        LogMatchesRecords(digest, steps[..n]);
        OnlyNewsIsWritten(digest, store, steps[n].s);
        assert News(digest, steps) == News(digest, steps[..n]);
      } else {
        assert News(digest, steps)[..|News(digest, steps)| - 1] == News(digest, steps[..n]);
      }
    }
  }

  /** As long as every admissible write found room, the events of a stored task are
      first its creation, with principal and time, and then one event per transition,
      with its states and its time, and the evidence digest with an admission. */
  lemma LogTellsFields(digest: Digester, steps: seq<StoreStep>, id: nat)
    requires AllFit(digest, steps) && id in AfterAll(digest, steps).tasks
    ensures var store := AfterAll(digest, steps);
      var s, events := store.tasks[id], TaskEvents(store.bodies, id);
      && |events| == 1 + |s.transitions|
      && events[0].TaskCreated? && events[0].task == id
      && events[0].principal == s.spec.principal && events[0].at == s.createdAt
      && forall i :: 0 <= i < |s.transitions| ==> Tells(events[1 + i], s, s.transitions[i])
  {
    StoredIsTold(digest, steps, id);
    HistoryTells(AfterAll(digest, steps).tasks[id]);
  }

  lemma StoredIsTold(digest: Digester, steps: seq<StoreStep>, id: nat)
    requires AllFit(digest, steps) && id in AfterAll(digest, steps).tasks
    ensures var store := AfterAll(digest, steps);
      TaskEvents(store.bodies, id) == History(store.tasks[id]) && store.tasks[id].spec.id == id
  {
    LogMatchesRecords(digest, steps);
    LogIsTruthfulIff(digest, steps);
  }

  /** What the story of a record consists of. */
  lemma HistoryTells(s: Snapshot)
    ensures |History(s)| == 1 + |s.transitions|
    ensures History(s)[0].TaskCreated? && History(s)[0].task == s.spec.id
      && History(s)[0].principal == s.spec.principal && History(s)[0].at == s.createdAt
    ensures forall i :: 0 <= i < |s.transitions| ==> Tells(History(s)[1 + i], s, s.transitions[i])
  {
    forall i | 0 <= i < |s.transitions|
      ensures Tells(History(s)[1 + i], s, s.transitions[i])
    {
      assert History(s)[1 + i] == Changed(s, s.transitions[i]);
    }
  }

  // -------------------------------------------------------- replaying the log

  /** The state a reader of a task's events arrives at. */
  ghost function ReplayEvents(events: seq<Body>): Option<TaskState>
  {
    if events == [] then None else
      var n := |events| - 1;
      match events[n]
      case TaskCreated(_, _, _) => if n == 0 then Some(Created) else None
      case TaskStateChanged(_, from, to, _, _) => if ReplayEvents(events[..n]) == Some(from) then Some(to) else None
      case Elsewhere(_) => None
  }

  lemma {:induction false} HistoryReplays(s: Snapshot, k: nat)
    requires k <= |s.transitions| && Replay(s.createdAt, s.transitions[..k]).Some?
    ensures ReplayEvents(History(s)[..k + 1]) == Some(Replay(s.createdAt, s.transitions[..k]).value.state)
    decreases k
  {
    if k == 0 {
      assert History(s)[..1] == [Creation(s)];
    } else {
      assert s.transitions[..k][..k - 1] == s.transitions[..k - 1];
      HistoryReplays(s, k - 1);
      assert History(s)[..k + 1][..k] == History(s)[..k];
      assert History(s)[k] == Changed(s, s.transitions[k - 1]);
    }
  }

  /** As long as every admissible write found room, reading a stored task's events
      back gives its stored state. */
  lemma ReplayGivesState(digest: Digester, steps: seq<StoreStep>, id: nat)
    requires AllFit(digest, steps) && id in AfterAll(digest, steps).tasks
    ensures var store := AfterAll(digest, steps);
      ReplayEvents(TaskEvents(store.bodies, id)) == Some(store.tasks[id].state)
  {
    LogMatchesRecords(digest, steps);
    LogIsTruthfulIff(digest, steps);
    var s := AfterAll(digest, steps).tasks[id];
    assert s.transitions[..|s.transitions|] == s.transitions;
    HistoryReplays(s, |s.transitions|);
    assert History(s)[..|s.transitions| + 1] == History(s);
  }
}
