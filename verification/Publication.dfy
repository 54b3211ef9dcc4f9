/** Publication fencing: which attempt of a workflow step may make its outputs
    authoritative.  Every attempt takes a fresh generation; only the holder of
    the current one can publish, and only once. */
module Publications {
  import opened Keys
  import opened Workflows

  type WorkflowId = nat
  type AttemptId = nat
  type Outputs = map<string, ArtifactId>

  const FENCE_SCHEMA_VERSION: nat := 1
  const MAX_PUBLICATION_OUTPUTS: nat := 256
  const MAX_GENERATION: nat := 0xFFFF_FFFF_FFFF_FFFF

  /** Fences are kept per workflow and step. */
  type Slot = (WorkflowId, Key)

  datatype Fence = Fence(schemaVersion: nat, workflow: WorkflowId, stepKey: Key, attempt: AttemptId, generation: nat)
  {
    function Slot(): Slot
    {
      (workflow, stepKey)
    }

    predicate Valid()
    {
      schemaVersion == FENCE_SCHEMA_VERSION && ValidKey(stepKey) && generation >= 1
    }
  }

  datatype Publication = Publication(fence: Fence, outputs: Outputs)
  {
    predicate Valid()
    {
      fence.Valid() && |outputs| <= MAX_PUBLICATION_OUTPUTS && forall name <- outputs :: OutputName(name)
    }
  }

  datatype Entry = Entry(fence: Fence, publication: Option<Publication>)

  type Entries = map<Slot, Entry>

  datatype FenceError = InvalidKey | GenerationOverflow | InvalidPublication | NoIssuedFence | StaleFence
      | ConflictingOutputs

  datatype Commit = Published | Idempotent

  // ---------------------------------------------- the two state changes

  function NextGeneration(entries: Entries, slot: Slot): nat
  {
    if slot in entries then entries[slot].fence.generation + 1 else 1
  }

  function Advance(entries: Entries, workflow: WorkflowId, stepKey: Key,
                   attempt: AttemptId): (r: Result<(Entries, Fence), FenceError>)
  {
    var slot := (workflow, stepKey);
    var generation := NextGeneration(entries, slot);
    if !ValidKey(stepKey) then Err(InvalidKey)
    else if generation > MAX_GENERATION then Err(GenerationOverflow)
    else
      var fence := Fence(FENCE_SCHEMA_VERSION, workflow, stepKey, attempt, generation);
      Ok((entries[slot := Entry(fence, None)], fence))
  }

  function Publish(entries: Entries, publication: Publication): (r: Result<(Entries, Commit), FenceError>)
  {
    var slot := publication.fence.Slot();
    if !publication.Valid() then Err(InvalidPublication)
    else if slot !in entries then Err(NoIssuedFence)
    else if entries[slot].fence != publication.fence then Err(StaleFence)
    else
      match entries[slot].publication
      case None => Ok((entries[slot := Entry(publication.fence, Some(publication))], Published))
      case Some(existing) => if existing == publication then Ok((entries, Idempotent)) else Err(ConflictingOutputs)
  }

  function Authoritative(entries: Entries, workflow: WorkflowId, stepKey: Key): Option<Publication>
  {
    if (workflow, stepKey) in entries then entries[(workflow, stepKey)].publication else None
  }

  // ------------------------------------------------------- the repository

  class InMemoryPublicationFences {
    var entries: Entries

    constructor ()
      ensures entries == map[]
    {
      entries := map[];
    }

    method AdvanceFence(workflow: WorkflowId, stepKey: Key, attempt: AttemptId) returns (r: Result<Fence, FenceError>)
      modifies this
      ensures match Advance(old(entries), workflow, stepKey, attempt)
              case Ok((after, fence)) => entries == after && r == Ok(fence)
              case Err(e) => entries == old(entries) && r == Err(e)
    {
      if !ValidKey(stepKey) {
        return Err(InvalidKey);
      }
      var slot := (workflow, stepKey);
      var generation := 1;
      if slot in entries {
        if entries[slot].fence.generation >= MAX_GENERATION {
          return Err(GenerationOverflow);
        }
        generation := entries[slot].fence.generation + 1;
      }
      var fence := Fence(FENCE_SCHEMA_VERSION, workflow, stepKey, attempt, generation);
      entries := entries[slot := Entry(fence, None)];
      return Ok(fence);
    }

    method PublishOutputs(publication: Publication) returns (r: Result<Commit, FenceError>)
      modifies this
      ensures match Publish(old(entries), publication)
              case Ok((after, commit)) => entries == after && r == Ok(commit)
              case Err(e) => entries == old(entries) && r == Err(e)
    {
      if !publication.Valid() {
        return Err(InvalidPublication);
      }
      var slot := publication.fence.Slot();
      if slot !in entries {
        return Err(NoIssuedFence);
      }
      var entry := entries[slot];
      if entry.fence != publication.fence {
        return Err(StaleFence);
      }
      match entry.publication {
        case None =>
          entries := entries[slot := entry.(publication := Some(publication))];
          return Ok(Published);
        case Some(existing) =>
          if existing == publication {
            return Ok(Idempotent);
          }
          return Err(ConflictingOutputs);
      }
    }
  }

  // ------------------------------------------------------------ histories

  datatype Call = CallAdvance(workflow: WorkflowId, stepKey: Key, attempt: AttemptId)
      | CallPublish(publication: Publication)

  /** What a successful call leaves in the history. */
  datatype Event = Advanced(fence: Fence) | Committed(publication: Publication, commit: Commit)
  {
    function Fenced(): Fence
    {
      match this
      case Advanced(f) => f
      case Committed(p, _) => p.fence
    }
  }

  /** The entries and events after a sequence of calls; failures leave neither. */
  function History(calls: seq<Call>): (Entries, seq<Event>)
  {
    if calls == [] then (map[], []) else
      var n := |calls| - 1;
      var (entries, events) := History(calls[..n]);
      After(entries, events, calls[n])
  }

  function After(entries: Entries, events: seq<Event>, call: Call): (Entries, seq<Event>)
  {
    match call
    case CallAdvance(w, k, a) =>
      (match Advance(entries, w, k, a)
       case Ok((after, fence)) => (after, events + [Advanced(fence)])
       case Err(_) => (entries, events))
    case CallPublish(p) =>
      (match Publish(entries, p)
       case Ok((after, commit)) => (after, events + [Committed(p, commit)])
       case Err(_) => (entries, events))
  }

  /** The repository agrees with one event of its history: the event's fence is
      not newer than the current one, and if it is the current generation it is
      the current fence, and a commit on it is what is stored. */
  ghost predicate Reflects(entries: Entries, e: Event)
  {
    var f := e.Fenced();
    && f.Slot() in entries
    && 1 <= f.generation <= entries[f.Slot()].fence.generation
    && (f.generation == entries[f.Slot()].fence.generation ==>
          && f == entries[f.Slot()].fence
          && (e.Committed? ==> entries[f.Slot()].publication == Some(e.publication)))
  }

  /** How two events on one slot, the first before the second, are related. */
  ghost predicate Ordered(a: Event, b: Event)
  {
    var f, g := a.Fenced(), b.Fenced();
    f.Slot() == g.Slot() ==>
      && f.generation <= g.generation
      && (b.Advanced? ==> f.generation < g.generation)
      && (f.generation == g.generation ==> f == g)
      && (f.generation == g.generation && a.Committed? && b.Committed? ==>
            a.publication == b.publication && b.commit == Idempotent)
  }

  ghost predicate Coherent(entries: Entries, events: seq<Event>)
  {
    && (forall s :: s in entries ==> EntryCoherent(entries, s))
    && (forall i :: 0 <= i < |events| ==> Reflects(entries, events[i]))
    && (forall i, j :: 0 <= i < j < |events| ==> Ordered(events[i], events[j]))
  }

  ghost predicate EntryCoherent(entries: Entries, s: Slot)
    requires s in entries
  {
    && entries[s].fence.Slot() == s
    && entries[s].fence.generation >= 1
    && (entries[s].publication.Some? ==> entries[s].publication.value.fence == entries[s].fence)
  }

  lemma AdvanceKeepsReflecting(entries: Entries, w: WorkflowId, k: Key, a: AttemptId, e: Event)
    requires Advance(entries, w, k, a).Ok? && Reflects(entries, e)
    ensures var (after, fence) := Advance(entries, w, k, a).value;
            Reflects(after, e) && Ordered(e, Advanced(fence))
  {
  }

  lemma PublishKeepsReflecting(entries: Entries, p: Publication, e: Event)
    requires Publish(entries, p).Ok? && Reflects(entries, e)
    ensures var (after, commit) := Publish(entries, p).value;
            Reflects(after, e) && Ordered(e, Committed(p, commit))
  {
  }

  lemma AppendCoherent(entries: Entries, events: seq<Event>, after: Entries, e: Event)
    requires Coherent(entries, events)
    requires forall s :: s in after ==> EntryCoherent(after, s)
    requires forall i :: 0 <= i < |events| ==> Reflects(after, events[i]) && Ordered(events[i], e)
    requires Reflects(after, e)
    ensures Coherent(after, events + [e])
  {
    var more := events + [e];
    forall i, j | 0 <= i < j < |more|
      ensures Ordered(more[i], more[j])
    {
      if j < |events| { assert Ordered(events[i], events[j]); }
    }
  }

  lemma StepCoherent(entries: Entries, events: seq<Event>, call: Call)
    requires Coherent(entries, events)
    ensures Coherent(After(entries, events, call).0, After(entries, events, call).1)
  {
    match call
    case CallAdvance(w, k, a) =>
      if Advance(entries, w, k, a).Ok? {
        var (after, fence) := Advance(entries, w, k, a).value;
        forall i | 0 <= i < |events|
          ensures Reflects(after, events[i]) && Ordered(events[i], Advanced(fence))
        {
          AdvanceKeepsReflecting(entries, w, k, a, events[i]);
        }
        forall s | s in after
          ensures EntryCoherent(after, s)
        {
          if s != (w, k) { assert EntryCoherent(entries, s); }
        }
        AppendCoherent(entries, events, after, Advanced(fence));
      }
    case CallPublish(p) =>
      if Publish(entries, p).Ok? {
        var (after, commit) := Publish(entries, p).value;
        forall i | 0 <= i < |events|
          ensures Reflects(after, events[i]) && Ordered(events[i], Committed(p, commit))
        {
          PublishKeepsReflecting(entries, p, events[i]);
        }
        forall s | s in after
          ensures EntryCoherent(after, s)
        {
          if s != p.fence.Slot() { assert EntryCoherent(entries, s); }
        }
        assert EntryCoherent(entries, p.fence.Slot());
        AppendCoherent(entries, events, after, Committed(p, commit));
      }
  }

  lemma {:induction false} HistoryCoherent(calls: seq<Call>)
    ensures Coherent(History(calls).0, History(calls).1)
    decreases |calls|
  {
    if calls != [] {
      var n := |calls| - 1;
      HistoryCoherent(calls[..n]);
      var (entries, events) := History(calls[..n]);
      StepCoherent(entries, events, calls[n]);
    }
  }

  ghost predicate SameSlot(a: Event, b: Event)
  {
    a.Fenced().Slot() == b.Fenced().Slot()
  }

  ghost predicate GenerationsIncrease(events: seq<Event>)
  {
    forall i, j :: 0 <= i < j < |events| && events[i].Advanced? && events[j].Advanced? && SameSlot(events[i], events[j])
      ==> events[i].fence.generation < events[j].fence.generation
  }

  /** Nothing commits under a fence older than one already issued. */
  ghost predicate SupersededNeverCommit(events: seq<Event>)
  {
    forall i, j ::
      0 <= i < j < |events| && events[i].Advanced? && events[j].Committed? && SameSlot(events[i], events[j])
      ==> events[i].fence.generation <= events[j].publication.fence.generation
  }

  /** One fence, one output map, one first commit. */
  ghost predicate CommittedOnce(events: seq<Event>)
  {
    forall i, j ::
      0 <= i < j < |events| && events[i].Committed? && events[j].Committed? && events[i].Fenced() == events[j].Fenced()
      ==> events[i].publication == events[j].publication && events[j].commit == Idempotent
  }

  ghost predicate IssuedAt(events: seq<Event>, i: int, fence: Fence)
  {
    0 <= i < |events| && events[i] == Advanced(fence)
  }

  ghost predicate CommitsWereIssued(events: seq<Event>)
  {
    forall j :: 0 <= j < |events| && events[j].Committed? ==> exists i :: IssuedAt(events[..j], i, events[j].Fenced())
  }

  ghost predicate ReadsAreCurrent(entries: Entries)
  {
    forall w, k :: Authoritative(entries, w, k).Some? ==>
      Authoritative(entries, w, k).value.fence == entries[(w, k)].fence
  }

  /** Over every history of calls, successful or not, and on every slot:
      generations strictly increase; a superseded fence never commits; a fence is
      committed with one output map and first published at most once, after having
      been issued; and whatever is readable carries the current fence. */
  lemma FencingIsSafe(calls: seq<Call>)
    ensures
      var (entries, events) := History(calls);
      && GenerationsIncrease(events)
      && SupersededNeverCommit(events)
      && CommittedOnce(events)
      && CommitsWereIssued(events)
      && ReadsAreCurrent(entries)
  {
    HistoryCoherent(calls);
    HistoryIssued(calls);
    var (entries, events) := History(calls);
    forall i, j | 0 <= i < j < |events|
      ensures Ordered(events[i], events[j])
    {
    }
    forall w, k | Authoritative(entries, w, k).Some?
      ensures Authoritative(entries, w, k).value.fence == entries[(w, k)].fence
    {
      assert EntryCoherent(entries, (w, k));
    }
  }

  ghost predicate CurrentWereIssued(entries: Entries, events: seq<Event>)
  {
    forall s :: s in entries ==> exists i :: IssuedAt(events, i, entries[s].fence)
  }

  lemma {:induction false} HistoryIssued(calls: seq<Call>)
    ensures CommitsWereIssued(History(calls).1)
    ensures CurrentWereIssued(History(calls).0, History(calls).1)
    decreases |calls|
  {
    if calls != [] {
      var n := |calls| - 1;
      HistoryIssued(calls[..n]);
      var (entries, events) := History(calls[..n]);
      StepIssued(entries, events, calls[n]);
    }
  }

  lemma IssuedStays(events: seq<Event>, e: Event, fence: Fence)
    requires exists i :: IssuedAt(events, i, fence)
    ensures exists i :: IssuedAt(events + [e], i, fence)
  {
    var i :| IssuedAt(events, i, fence);
    assert IssuedAt(events + [e], i, fence);
  }

  lemma CommitsIssuedGrow(events: seq<Event>, e: Event)
    requires CommitsWereIssued(events)
    requires e.Committed? ==> exists i :: IssuedAt(events, i, e.Fenced())
    ensures CommitsWereIssued(events + [e])
  {
    var more := events + [e];
    forall j | 0 <= j < |more| && more[j].Committed?
      ensures exists i :: IssuedAt(more[..j], i, more[j].Fenced())
    {
      if j < |events| {
        assert more[..j] == events[..j];
        assert exists i :: IssuedAt(events[..j], i, events[j].Fenced());
      } else {
        assert more[..j] == events;
      }
    }
  }

  lemma StepIssued(entries: Entries, events: seq<Event>, call: Call)
    requires CommitsWereIssued(events) && CurrentWereIssued(entries, events)
    ensures CommitsWereIssued(After(entries, events, call).1)
    ensures CurrentWereIssued(After(entries, events, call).0, After(entries, events, call).1)
  {
    var (after, more) := After(entries, events, call);
    if more != events {
      var e := more[|events|];
      assert e.Committed? ==> e.Fenced().Slot() in entries && e.Fenced() == entries[e.Fenced().Slot()].fence;
      CommitsIssuedGrow(events, e);
      forall s | s in after
        ensures exists i :: IssuedAt(more, i, after[s].fence)
      {
        if s in entries && entries[s].fence == after[s].fence {
          IssuedStays(events, e, after[s].fence);
        } else {
          assert IssuedAt(more, |events|, after[s].fence);
        }
      }
    }
  }

  /** Once a publication has been committed, whatever is called in between: as long as
      its fence is current, committing it again answers that it is there already and
      any other valid outputs are refused as conflicting; once another fence is
      issued, both are refused as stale.  None of these changes anything. */
  lemma CommitIsFinal(calls: seq<Call>, i: nat, p: Publication)
    requires i < |History(calls).1| && History(calls).1[i].Committed? && p.Valid()
    requires p.fence == History(calls).1[i].publication.fence
    ensures
      var (entries, events) := History(calls);
      var q := events[i].publication;
      && p.fence.Slot() in entries
      && (entries[p.fence.Slot()].fence != p.fence ==> Publish(entries, p) == Err(StaleFence))
      && (entries[p.fence.Slot()].fence == p.fence && p == q ==> Publish(entries, p) == Ok((entries, Idempotent)))
      && (entries[p.fence.Slot()].fence == p.fence && p != q ==> Publish(entries, p) == Err(ConflictingOutputs))
  {
    HistoryCoherent(calls);
    var (entries, events) := History(calls);
    assert Reflects(entries, events[i]);
  }
}
