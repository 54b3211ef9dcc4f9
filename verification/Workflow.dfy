/** Workflow specifications: what validation accepts, the dependency sets the
    scheduler works from and the deterministic execution order. */
module Workflows {
  import opened Keys
  import opened Graph
  import opened Dags

  const WORKFLOW_SCHEMA_VERSION: nat := 1
  const MAX_WORKFLOW_CONCURRENCY: nat := 64
  const MAX_ATTEMPTS: nat := 32
  const MAX_BACKOFF_MS: nat := 3_600_000

  type ArtifactId = nat

  datatype InputSource = Artifact(artifact: ArtifactId) | FromStep(key: Key, output: string)

  datatype FailureCategory =
    | TimedOut | StartFailure | NonZeroExit | Signaled | MissingRequiredOutput
    | CategoryCancelled | ExecutionError
  {
    predicate MayRetry()
    {
      !CategoryCancelled? && !ExecutionError?
    }
  }

  datatype RetryPolicy = RetryPolicy(maxAttempts: nat, backoffMs: Option<nat>, retryOn: set<FailureCategory>)
  {
    predicate Valid()
    {
      && 1 <= maxAttempts <= MAX_ATTEMPTS
      && (backoffMs.Some? ==> backoffMs.value <= MAX_BACKOFF_MS)
      && (maxAttempts > 1 ==> retryOn != {})
      && forall c <- retryOn :: c.MayRetry()
    }

    predicate Allows(category: FailureCategory)
    {
      category.MayRetry() && category in retryOn
    }
  }

  datatype Step = Step(key: Key, inputs: map<string, InputSource>, timeoutMs: nat, after: seq<Key>,
                       retry: Option<RetryPolicy>)
  {
    /** Explicit barriers and data-flow sources together. */
    function Dependencies(): set<Key>
    {
      (set d | d in after) + set n | n in inputs && inputs[n].FromStep? :: inputs[n].key
    }

    /** Attempts a step may make; without a policy exactly one. */
    function AttemptLimit(): nat
    {
      match retry
      case None => 1
      case Some(policy) => policy.maxAttempts
    }
  }

  datatype WorkflowSpec = WorkflowSpec(schemaVersion: nat, name: string, maxConcurrency: nat, steps: seq<Step>)

  // ------------------------------------------------------- string checks

  predicate LowerOrDigit(c: char)
  {
    'a' <= c <= 'z' || '0' <= c <= '9'
  }

  /** `[a-z0-9][a-z0-9_-]{0,63}` */
  predicate ValidKey(key: Key)
  {
    && 1 <= |key| <= 64
    && LowerOrDigit(key[0])
    && forall c <- key :: LowerOrDigit(c) || c == '_' || c == '-'
  }

  /** Labels of outputs: short and printable, without white space. */
  predicate OutputName(name: string)
  {
    1 <= Utf8Length(name) <= 128 && forall c <- name :: !WhiteSpace(c) && !Control(c)
  }

  predicate ValidName(name: string)
  {
    1 <= Utf8Length(name) <= 128 && '\0' !in name
  }

  // ------------------------------------------------------- the step graph

  function StepKeys(steps: seq<Step>): (keys: set<Key>)
  {
    set i | 0 <= i < |steps| :: steps[i].key
  }

  /** One pair per dependency, dependency first. */
  ghost function StepPairs(steps: seq<Step>): set<(Key, Key)>
  {
    set i, d | 0 <= i < |steps| && d in steps[i].Dependencies() :: (d, steps[i].key)
  }

  ghost function Sources(pairs: set<(Key, Key)>): set<Key>
  {
    set p | p in pairs :: p.0
  }

  ghost function TargetsOf(pairs: set<(Key, Key)>, u: Key): set<Key>
  {
    set p | p in pairs && p.0 == u :: p.1
  }

  /** The edge map holding exactly the given pairs. */
  ghost function EdgesOf(pairs: set<(Key, Key)>): Edges
  {
    map u | u in Sources(pairs) :: TargetsOf(pairs, u)
  }

  lemma TargetsOfHas(pairs: set<(Key, Key)>, u: Key, v: Key)
    ensures v in TargetsOf(pairs, u) <==> (u, v) in pairs
  {
    if v in TargetsOf(pairs, u) {
      var p :| p in pairs && p.0 == u && p.1 == v;
      assert p == (u, v);
    }
    if (u, v) in pairs {
      assert (u, v).0 == u && (u, v).1 == v;
    }
  }

  lemma EdgesOfHas(pairs: set<(Key, Key)>, u: Key, v: Key)
    ensures HasEdge(EdgesOf(pairs), u, v) <==> (u, v) in pairs
  {
    TargetsOfHas(pairs, u, v);
    if (u, v) in pairs {
      assert (u, v).0 in Sources(pairs);
    }
  }

  lemma EdgesOfPairs(pairs: set<(Key, Key)>)
    ensures Pairs(EdgesOf(pairs)) == pairs
  {
    var edges := EdgesOf(pairs);
    forall p
      ensures p in Pairs(edges) <==> p in pairs
    {
      EdgesOfHas(pairs, p.0, p.1);
      assert p == (p.0, p.1);
      if p in pairs { assert p.0 in edges && p.1 in edges[p.0]; }
    }
  }

  lemma EdgesOfGrows(pairs: set<(Key, Key)>, u: Key, v: Key)
    ensures WithEdge(EdgesOf(pairs), u, v) == EdgesOf(pairs + {(u, v)})
  {
    var a, b := WithEdge(EdgesOf(pairs), u, v), EdgesOf(pairs + {(u, v)});
    assert Sources(pairs + {(u, v)}) == Sources(pairs) + {u} by {
      assert (u, v).0 == u;
    }
    forall x | x in a
      ensures a[x] == b[x]
    {
      forall y
        ensures y in a[x] <==> y in b[x]
      {
        WithEdgeHas(EdgesOf(pairs), u, v, x, y);
        EdgesOfHas(pairs, x, y);
        EdgesOfHas(pairs + {(u, v)}, x, y);
      }
    }
  }

  ghost function SpecNodes(spec: WorkflowSpec): set<Key>
  {
    StepKeys(spec.steps)
  }

  ghost function SpecEdges(spec: WorkflowSpec): Edges
  {
    EdgesOf(StepPairs(spec.steps))
  }

  /** The step graph can be built: endpoints known, within the limits, acyclic. */
  ghost predicate Buildable(steps: seq<Step>)
  {
    var pairs := StepPairs(steps);
    && |StepKeys(steps)| <= DEFAULT_LIMITS.maxNodes
    && (forall p :: p in pairs ==> p.0 in StepKeys(steps) && p.0 != p.1)
    && |pairs| <= DEFAULT_LIMITS.maxEdges
    && Acyclic(EdgesOf(pairs))
  }

  // --------------------------------------------------- building the graph

  lemma StepKeysGrow(steps: seq<Step>, n: nat)
    requires n < |steps|
    ensures StepKeys(steps[..n + 1]) == StepKeys(steps[..n]) + {steps[n].key}
  {
    assert steps[..n + 1] == steps[..n] + [steps[n]];
    forall k | k in StepKeys(steps[..n]) + {steps[n].key}
      ensures k in StepKeys(steps[..n + 1])
    {
      if k == steps[n].key {
        assert steps[..n + 1][n].key == k;
      } else {
        var i :| 0 <= i < n && steps[..n][i].key == k;
        assert steps[..n + 1][i].key == k;
      }
    }
  }

  lemma StepKeysWithin(steps: seq<Step>, n: nat)
    requires n <= |steps|
    ensures StepKeys(steps[..n]) <= StepKeys(steps)
  {
  }

  /** The pairs of one step. */
  ghost function PairsInto(deps: set<Key>, key: Key): set<(Key, Key)>
  {
    set d | d in deps :: (d, key)
  }

  lemma StepPairsGrow(steps: seq<Step>, n: nat)
    requires n < |steps|
    ensures StepPairs(steps[..n + 1]) == StepPairs(steps[..n]) + PairsInto(steps[n].Dependencies(), steps[n].key)
    ensures StepPairs(steps[..n + 1]) <= StepPairs(steps)
  {
    var longer := steps[..n + 1];
    assert longer == steps[..n] + [steps[n]];
    forall p | p in StepPairs(steps[..n]) + PairsInto(steps[n].Dependencies(), steps[n].key)
      ensures p in StepPairs(longer)
    {
      if p in StepPairs(steps[..n]) {
        var i :| 0 <= i < n && p.0 in steps[..n][i].Dependencies() && p.1 == steps[..n][i].key;
        assert longer[i] == steps[..n][i];
      } else {
        assert longer[n] == steps[n];
      }
    }
    forall p | p in StepPairs(longer)
      ensures p in StepPairs(steps[..n]) + PairsInto(steps[n].Dependencies(), steps[n].key)
      ensures p in StepPairs(steps)
    {
      var i :| 0 <= i < |longer| && p.0 in longer[i].Dependencies() && p.1 == longer[i].key;
      assert longer[i] == steps[i];
      if i < n { assert steps[..n][i] == steps[i]; }
    }
  }

  /** Why an insertion can be refused without the step graph being at fault:
      never. */
  lemma RefusalMeansUnbuildable(steps: seq<Step>, done: set<(Key, Key)>, from: Key, to: Key)
    requires done <= StepPairs(steps) && (from, to) in StepPairs(steps)
    requires
      || from !in StepKeys(steps) || from == to
      || ((from, to) !in done && |done| >= DEFAULT_LIMITS.maxEdges)
      || !Acyclic(EdgesOf(done + {(from, to)}))
    ensures !Buildable(steps)
  {
    var pairs, more := StepPairs(steps), done + {(from, to)};
    SubsetCardinality(more, pairs);
    if Acyclic(EdgesOf(pairs)) {
      forall u, v | HasEdge(EdgesOf(more), u, v)
        ensures HasEdge(EdgesOf(pairs), u, v)
      {
        EdgesOfHas(more, u, v);
        EdgesOfHas(pairs, u, v);
      }
      SubgraphAcyclic(EdgesOf(more), EdgesOf(pairs));
    }
  }

  /** Adds every step as a node. */
  method AddSteps(dag: Dag<()>, steps: seq<Step>) returns (r: Result<(), DagError>)
    requires dag.Valid() && dag.nodes == map[]
    modifies dag
    ensures dag.Valid() && dag.edges == old(dag.edges)
    ensures r.Ok? <==> |StepKeys(steps)| <= DEFAULT_LIMITS.maxNodes
    ensures r.Ok? ==> dag.nodes.Keys == StepKeys(steps)
  {
    for i := 0 to |steps|
      invariant dag.Valid() && dag.edges == old(dag.edges)
      invariant dag.nodes.Keys == StepKeys(steps[..i])
      invariant |dag.nodes.Keys| <= DEFAULT_LIMITS.maxNodes
    {
      StepKeysGrow(steps, i);
      assert |dag.nodes| == |dag.nodes.Keys|;
      var added := dag.AddNode(steps[i].key, (), DEFAULT_LIMITS);
      if added.Err? {
        StepKeysWithin(steps, i + 1);
        SubsetCardinality(StepKeys(steps[..i + 1]), StepKeys(steps));
        return Err(added.error);
      }
      if steps[i].key !in StepKeys(steps[..i]) {
        assert |StepKeys(steps[..i + 1])| == |StepKeys(steps[..i])| + 1;
      } else {
        assert StepKeys(steps[..i + 1]) == StepKeys(steps[..i]);
      }
    }
    assert steps[..|steps|] == steps;
    return Ok(());
  }

  lemma GrowsByOne(done: set<(Key, Key)>, p: (Key, Key))
    ensures |done + {p}| == |done| + (if p in done then 0 else 1)
  {
    if p in done { assert done + {p} == done; }
  }

  /** Adds one dependency edge of the step graph. */
  method AddDependency(dag: Dag<()>, steps: seq<Step>, ghost done: set<(Key, Key)>, from: Key, to: Key)
    returns (r: Result<(), DagError>)
    requires done <= StepPairs(steps) && (from, to) in StepPairs(steps) && to in StepKeys(steps)
    requires dag.Valid() && dag.nodes.Keys == StepKeys(steps) && dag.edges == EdgesOf(done)
    modifies dag
    ensures dag.Valid() && dag.nodes == old(dag.nodes)
    ensures r.Err? ==> !Buildable(steps)
    ensures r.Ok? ==> dag.edges == EdgesOf(done + {(from, to)}) && from in StepKeys(steps) && from != to
    ensures r.Ok? && |done| <= DEFAULT_LIMITS.maxEdges ==> |done + {(from, to)}| <= DEFAULT_LIMITS.maxEdges
  {
    EdgesOfPairs(done);
    EdgesOfGrows(done, from, to);
    GrowsByOne(done, (from, to));
    r := dag.AddEdge(from, to, DEFAULT_LIMITS);
    if r.Err? {
      RefusalMeansUnbuildable(steps, done, from, to);
    }
  }

  /** Progress inside step `n`: the edges from all but `left` are in. */
  ghost predicate Linked(steps: seq<Step>, n: nat, left: set<Key>, done: set<(Key, Key)>)
    requires n < |steps|
  {
    var all, key := steps[n].Dependencies(), steps[n].key;
    && left <= all
    && done == StepPairs(steps[..n]) + PairsInto(all - left, key)
    && |done| <= DEFAULT_LIMITS.maxEdges
    && forall d :: d in all - left ==> d in StepKeys(steps) && d != key
  }

  lemma LinkedStart(steps: seq<Step>, n: nat)
    requires n < |steps| && |StepPairs(steps[..n])| <= DEFAULT_LIMITS.maxEdges
    ensures Linked(steps, n, steps[n].Dependencies(), StepPairs(steps[..n]))
  {
    var all, key := steps[n].Dependencies(), steps[n].key;
    assert all - all == {};
    assert PairsInto({}, key) == {};
    assert StepPairs(steps[..n]) + {} == StepPairs(steps[..n]);
  }

  lemma LinkedNext(steps: seq<Step>, n: nat, left: set<Key>, done: set<(Key, Key)>, d: Key)
    requires n < |steps| && Linked(steps, n, left, done) && d in left
    ensures done <= StepPairs(steps) && (d, steps[n].key) in StepPairs(steps) && steps[n].key in StepKeys(steps)
    ensures
      var more := done + {(d, steps[n].key)};
      |more| <= DEFAULT_LIMITS.maxEdges && d in StepKeys(steps) && d != steps[n].key ==>
        Linked(steps, n, left - {d}, more)
  {
    StepPairsGrow(steps, n);
    var all, key := steps[n].Dependencies(), steps[n].key;
    PairsIntoGrows(all, left, d, key);
    assert (d, key) in StepPairs(steps[..n + 1]) by {
      assert (d, key) in PairsInto(all, key);
    }
    assert PairsInto(all - left, key) <= PairsInto(all, key);
  }

  lemma LinkedDone(steps: seq<Step>, n: nat, done: set<(Key, Key)>)
    requires n < |steps| && Linked(steps, n, {}, done)
    ensures done == StepPairs(steps[..n + 1]) && SourcesKnown(steps, n) && |done| <= DEFAULT_LIMITS.maxEdges
  {
    StepPairsGrow(steps, n);
    assert steps[n].Dependencies() - {} == steps[n].Dependencies();
  }

  /** Adds the edges into one step, least dependency first. */
  method AddDependencies(dag: Dag<()>, steps: seq<Step>, n: nat) returns (r: Result<(), DagError>)
    requires n < |steps|
    requires dag.Valid() && dag.nodes.Keys == StepKeys(steps) && dag.edges == EdgesOf(StepPairs(steps[..n]))
    requires |StepPairs(steps[..n])| <= DEFAULT_LIMITS.maxEdges
    modifies dag
    ensures dag.Valid() && dag.nodes == old(dag.nodes)
    ensures r.Err? ==> !Buildable(steps)
    ensures r.Ok? ==> dag.edges == EdgesOf(StepPairs(steps[..n + 1])) && SourcesKnown(steps, n)
    ensures r.Ok? ==> |StepPairs(steps[..n + 1])| <= DEFAULT_LIMITS.maxEdges
  {
    var left := steps[n].Dependencies();
    ghost var done := StepPairs(steps[..n]);
    LinkedStart(steps, n);
    while left != {}
      invariant Linked(steps, n, left, done)
      invariant dag.Valid() && dag.nodes == old(dag.nodes) && dag.edges == EdgesOf(done)
      decreases |left|
    {
      var d := Least(left);
      LinkedNext(steps, n, left, done, d);
      r := AddDependency(dag, steps, done, d, steps[n].key);
      if r.Err? {
        return;
      }
      done := done + {(d, steps[n].key)};
      left := left - {d};
    }
    LinkedDone(steps, n, done);
    return Ok(());
  }

  lemma PairsIntoGrows(all: set<Key>, left: set<Key>, d: Key, key: Key)
    requires d in left && left <= all
    ensures PairsInto(all - (left - {d}), key) == PairsInto(all - left, key) + {(d, key)}
  {
    assert all - (left - {d}) == (all - left) + {d};
  }

  /** The edges of the first `n` steps are in. */
  ghost predicate LinkedUpTo(steps: seq<Step>, n: nat, edges: Edges)
    requires n <= |steps|
  {
    && edges == EdgesOf(StepPairs(steps[..n]))
    && |StepPairs(steps[..n])| <= DEFAULT_LIMITS.maxEdges
    && forall j :: 0 <= j < n ==> SourcesKnown(steps, j)
  }

  lemma NoneLinked(steps: seq<Step>)
    ensures LinkedUpTo(steps, 0, map[])
  {
    assert StepPairs(steps[..0]) == {};
    assert Sources({}) == {};
    assert EdgesOf({}) == map[];
  }

  lemma AllLinked(steps: seq<Step>, edges: Edges)
    requires LinkedUpTo(steps, |steps|, edges) && |StepKeys(steps)| <= DEFAULT_LIMITS.maxNodes && Acyclic(edges)
    ensures Buildable(steps) && edges == EdgesOf(StepPairs(steps))
  {
    assert steps[..|steps|] == steps;
    AllSourcesKnown(steps);
  }

  /** Adds the edges of every step. */
  method LinkSteps(dag: Dag<()>, steps: seq<Step>) returns (r: Result<(), DagError>)
    requires dag.Valid() && dag.nodes.Keys == StepKeys(steps) && dag.edges == map[]
    modifies dag
    ensures dag.Valid() && dag.nodes == old(dag.nodes)
    ensures r.Err? ==> !Buildable(steps)
    ensures r.Ok? ==> LinkedUpTo(steps, |steps|, dag.edges)
  {
    NoneLinked(steps);
    for i := 0 to |steps|
      invariant dag.Valid() && dag.nodes == old(dag.nodes)
      invariant LinkedUpTo(steps, i, dag.edges)
    {
      r := AddDependencies(dag, steps, i);
      if r.Err? {
        return;
      }
    }
    return Ok(());
  }

  /** Builds the step graph, or reports that it cannot be built. */
  method BuildDag(steps: seq<Step>) returns (r: Result<Dag<()>, DagError>)
    ensures r.Ok? <==> Buildable(steps)
    ensures r.Ok? ==>
      && fresh(r.value) && r.value.Valid()
      && r.value.nodes.Keys == StepKeys(steps)
      && r.value.edges == EdgesOf(StepPairs(steps))
  {
    var dag := new Dag<()>();
    var added := AddSteps(dag, steps);
    if added.Err? {
      return Err(added.error);
    }
    var linked := LinkSteps(dag, steps);
    if linked.Err? {
      return Err(linked.error);
    }
    AllLinked(steps, dag.edges);
    return Ok(dag);
  }

  ghost predicate SourcesKnown(steps: seq<Step>, j: nat)
    requires j < |steps|
  {
    forall d :: d in steps[j].Dependencies() ==> d in StepKeys(steps) && d != steps[j].key
  }

  lemma AllSourcesKnown(steps: seq<Step>)
    requires forall j :: 0 <= j < |steps| ==> SourcesKnown(steps, j)
    ensures forall p :: p in StepPairs(steps) ==> p.0 in StepKeys(steps) && p.0 != p.1
  {
    forall p | p in StepPairs(steps)
      ensures p.0 in StepKeys(steps) && p.0 != p.1
    {
      var i :| 0 <= i < |steps| && p.0 in steps[i].Dependencies() && p.1 == steps[i].key;
      assert SourcesKnown(steps, i);
    }
  }

  // ------------------------------------------------------------ validation

  datatype SpecError =
    | BadSchema | BadName | BadConcurrency | TooManySteps | NoSteps
    | BadKey(key: Key) | DuplicateKey(key: Key) | BadTimeout(key: Key) | BadRetry(key: Key)
    | DependsOnItself(key: Key) | UnknownDependency(key: Key) | BadInput(key: Key)
    | GraphRefused(reason: DagError)

  predicate StepWellFormed(step: Step)
  {
    && ValidKey(step.key)
    && step.timeoutMs > 0
    && (step.retry.Some? ==> step.retry.value.Valid())
    && step.key !in step.after
  }

  /** Every dependency and every data source is another declared step. */
  predicate ReferencesKnown(step: Step, keys: set<Key>)
  {
    && (forall d <- step.after :: d in keys)
    && forall n <- step.inputs :: InputKnown(step, keys, n)
  }

  predicate InputKnown(step: Step, keys: set<Key>, n: string)
    requires n in step.inputs
  {
    step.inputs[n].FromStep? ==>
      step.inputs[n].key != step.key && step.inputs[n].key in keys && OutputName(step.inputs[n].output)
  }

  ghost predicate DistinctKeys(steps: seq<Step>)
  {
    forall i, j :: 0 <= i < j < |steps| ==> steps[i].key != steps[j].key
  }

  /** What a specification must satisfy, independently of how it is checked. */
  ghost predicate WellFormed(spec: WorkflowSpec)
  {
    && spec.schemaVersion == WORKFLOW_SCHEMA_VERSION
    && ValidName(spec.name)
    && 1 <= spec.maxConcurrency <= MAX_WORKFLOW_CONCURRENCY
    && 1 <= |spec.steps| <= DEFAULT_LIMITS.maxNodes
    && DistinctKeys(spec.steps)
    && (forall i :: 0 <= i < |spec.steps| ==> StepWellFormed(spec.steps[i]))
    && (forall i :: 0 <= i < |spec.steps| ==> ReferencesKnown(spec.steps[i], StepKeys(spec.steps)))
    && |StepPairs(spec.steps)| <= DEFAULT_LIMITS.maxEdges
    && Acyclic(SpecEdges(spec))
  }

  ghost predicate HasStep(spec: WorkflowSpec, i: int, key: Key)
  {
    0 <= i < |spec.steps| && spec.steps[i].key == key
  }

  /** The rule an error names really is broken. */
  ghost predicate Breaks(spec: WorkflowSpec, e: SpecError)
  {
    match e
    case BadSchema => spec.schemaVersion != WORKFLOW_SCHEMA_VERSION
    case BadName => !ValidName(spec.name)
    case BadConcurrency => spec.maxConcurrency == 0 || spec.maxConcurrency > MAX_WORKFLOW_CONCURRENCY
    case TooManySteps => |spec.steps| > DEFAULT_LIMITS.maxNodes
    case NoSteps => spec.steps == []
    case BadKey(k) => !ValidKey(k) && exists i :: HasStep(spec, i, k)
    case DuplicateKey(k) => exists i, j :: HasStep(spec, i, k) && HasStep(spec, j, k) && i < j
    case BadTimeout(k) => exists i :: HasStep(spec, i, k) && spec.steps[i].timeoutMs == 0
    case BadRetry(k) => exists i ::
      HasStep(spec, i, k) && spec.steps[i].retry.Some? && !spec.steps[i].retry.value.Valid()
    case DependsOnItself(k) => exists i :: HasStep(spec, i, k) && k in spec.steps[i].after
    case UnknownDependency(k) => exists i :: HasStep(spec, i, k) && exists d ::
      d in spec.steps[i].after && d !in StepKeys(spec.steps)
    case BadInput(k) => exists i :: HasStep(spec, i, k) && !ReferencesKnown(spec.steps[i], StepKeys(spec.steps))
    case GraphRefused(_) => |StepPairs(spec.steps)| > DEFAULT_LIMITS.maxEdges || !Acyclic(SpecEdges(spec))
  }

  /** The checks on one step, in their order. */
  function StepFault(step: Step, seen: set<Key>): (fault: Option<SpecError>)
    ensures fault.None? <==> StepWellFormed(step) && step.key !in seen
  {
    if !ValidKey(step.key) then Some(BadKey(step.key))
    else if step.key in seen then Some(DuplicateKey(step.key))
    else if step.timeoutMs == 0 then Some(BadTimeout(step.key))
    else if step.retry.Some? && !step.retry.value.Valid() then Some(BadRetry(step.key))
    else if step.key in step.after then Some(DependsOnItself(step.key))
    else None
  }

  /** First pass: every step by itself, and no key twice. */
  method CheckSteps(spec: WorkflowSpec) returns (fault: Option<SpecError>, seen: set<Key>)
    ensures fault.None? <==> DistinctKeys(spec.steps) && forall i :: 0 <= i < |spec.steps| ==>
      StepWellFormed(spec.steps[i])
    ensures fault.None? ==> seen == StepKeys(spec.steps)
    ensures fault.Some? ==> Breaks(spec, fault.value)
  {
    seen := {};
    for i := 0 to |spec.steps|
      invariant seen == StepKeys(spec.steps[..i])
      invariant DistinctKeys(spec.steps[..i])
      invariant forall j :: 0 <= j < i ==> StepWellFormed(spec.steps[j])
    {
      fault := StepFault(spec.steps[i], seen);
      if fault.Some? {
        FaultIsReal(spec, i);
        return;
      }
      StepKeysGrow(spec.steps, i);
      DistinctGrows(spec.steps, i);
      seen := seen + {spec.steps[i].key};
    }
    assert spec.steps[..|spec.steps|] == spec.steps;
    return None, seen;
  }

  lemma DistinctGrows(steps: seq<Step>, i: nat)
    requires i < |steps| && DistinctKeys(steps[..i]) && steps[i].key !in StepKeys(steps[..i])
    ensures DistinctKeys(steps[..i + 1])
  {
    var longer := steps[..i + 1];
    forall a, b | 0 <= a < b < |longer|
      ensures longer[a].key != longer[b].key
    {
      if b == i {
        assert steps[..i][a].key in StepKeys(steps[..i]);
      } else {
        assert steps[..i][a].key != steps[..i][b].key;
      }
    }
  }

  lemma FaultIsReal(spec: WorkflowSpec, i: nat)
    requires i < |spec.steps|
    requires StepFault(spec.steps[i], StepKeys(spec.steps[..i])).Some?
    ensures Breaks(spec, StepFault(spec.steps[i], StepKeys(spec.steps[..i])).value)
    ensures !DistinctKeys(spec.steps) || !StepWellFormed(spec.steps[i])
  {
    var key := spec.steps[i].key;
    assert HasStep(spec, i, key);
    if key in StepKeys(spec.steps[..i]) {
      var j :| 0 <= j < i && spec.steps[..i][j].key == key;
      assert HasStep(spec, j, key);
    }
  }

  /** Second pass: references name other declared steps. */
  method CheckReferences(spec: WorkflowSpec, keys: set<Key>) returns (fault: Option<SpecError>)
    requires keys == StepKeys(spec.steps)
    ensures fault.None? <==> forall i :: 0 <= i < |spec.steps| ==> ReferencesKnown(spec.steps[i], keys)
    ensures fault.Some? ==> Breaks(spec, fault.value)
  {
    for i := 0 to |spec.steps|
      invariant forall j :: 0 <= j < i ==> ReferencesKnown(spec.steps[j], keys)
    {
      var step := spec.steps[i];
      assert HasStep(spec, i, step.key);
      if exists d <- step.after :: d !in keys {
        return Some(UnknownDependency(step.key));
      }
      if exists n <- step.inputs :: !InputKnown(step, keys, n) {
        return Some(BadInput(step.key));
      }
    }
    return None;
  }

  /** With the two passes done, building the graph decides the rest. */
  lemma BuildableIff(spec: WorkflowSpec)
    requires |spec.steps| <= DEFAULT_LIMITS.maxNodes
    requires forall i :: 0 <= i < |spec.steps| ==> StepWellFormed(spec.steps[i])
    requires forall i :: 0 <= i < |spec.steps| ==> ReferencesKnown(spec.steps[i], StepKeys(spec.steps))
    ensures Buildable(spec.steps) <==> |StepPairs(spec.steps)| <= DEFAULT_LIMITS.maxEdges && Acyclic(SpecEdges(spec))
  {
    StepKeysBounded(spec.steps);
    forall i | 0 <= i < |spec.steps|
      ensures SourcesKnown(spec.steps, i)
    {
      var step := spec.steps[i];
      assert StepWellFormed(step) && ReferencesKnown(step, StepKeys(spec.steps));
      forall d | d in step.Dependencies()
        ensures d in StepKeys(spec.steps) && d != step.key
      {
        if d !in step.after {
          var n :| n in step.inputs && step.inputs[n].FromStep? && step.inputs[n].key == d;
          assert InputKnown(step, StepKeys(spec.steps), n);
        }
      }
    }
    AllSourcesKnown(spec.steps);
  }

  lemma {:induction false} StepKeysBounded(steps: seq<Step>)
    ensures |StepKeys(steps)| <= |steps|
    decreases |steps|
  {
    if steps == [] {
      assert StepKeys(steps) == {};
    } else {
      var n := |steps| - 1;
      StepKeysBounded(steps[..n]);
      StepKeysGrow(steps, n);
      assert steps[..n + 1] == steps;
    }
  }

  /** Validation accepts exactly the well-formed specifications, and an error
      always names a rule that is broken. */
  method Validate(spec: WorkflowSpec) returns (r: Result<(), SpecError>)
    ensures r.Ok? <==> WellFormed(spec)
    ensures r.Err? ==> Breaks(spec, r.error)
  {
    if spec.schemaVersion != WORKFLOW_SCHEMA_VERSION {
      return Err(BadSchema);
    }
    if !ValidName(spec.name) {
      return Err(BadName);
    }
    if spec.maxConcurrency == 0 || spec.maxConcurrency > MAX_WORKFLOW_CONCURRENCY {
      return Err(BadConcurrency);
    }
    if |spec.steps| > DEFAULT_LIMITS.maxNodes {
      return Err(TooManySteps);
    }
    if |spec.steps| == 0 {
      return Err(NoSteps);
    }
    var fault, seen := CheckSteps(spec);
    if fault.Some? {
      return Err(fault.value);
    }
    fault := CheckReferences(spec, seen);
    if fault.Some? {
      return Err(fault.value);
    }
    BuildableIff(spec);
    var built := BuildDag(spec.steps);
    if built.Err? {
      return Err(GraphRefused(built.error));
    }
    var ordered := built.value.TopologicalOrder();
    match ordered
    case Ok(_) => return Ok(());
    case Err(e) => return Err(GraphRefused(e));
  }

  lemma WellFormedGraph(spec: WorkflowSpec)
    requires WellFormed(spec)
    ensures Closed(SpecNodes(spec), SpecEdges(spec)) && Acyclic(SpecEdges(spec)) && Buildable(spec.steps)
  {
    BuildableIff(spec);
    BuildableClosed(spec.steps);
  }

  lemma BuildableClosed(steps: seq<Step>)
    requires Buildable(steps)
    ensures Closed(StepKeys(steps), EdgesOf(StepPairs(steps)))
  {
    var pairs := StepPairs(steps);
    forall u, v | u in EdgesOf(pairs) && v in EdgesOf(pairs)[u]
      ensures v in StepKeys(steps)
    {
      TargetsOfHas(pairs, u, v);
      var i :| 0 <= i < |steps| && u in steps[i].Dependencies() && v == steps[i].key;
    }
  }

  /** The deterministic execution order of a specification. */
  ghost function ExecutionOrder(spec: WorkflowSpec): (order: seq<Key>)
    requires Buildable(spec.steps)
    ensures IsTopological(SpecNodes(spec), SpecEdges(spec), order)
    ensures LeastFirst(SpecNodes(spec), SpecEdges(spec), order)
  {
    BuildableClosed(spec.steps);
    Graph.TopologicalOrder(SpecNodes(spec), SpecEdges(spec))
  }

  /** Computes the execution order, exactly when the step graph can be built. */
  method TopoKeys(spec: WorkflowSpec) returns (r: Result<seq<Key>, DagError>)
    ensures r.Ok? <==> Buildable(spec.steps)
    ensures r.Ok? ==> r.value == ExecutionOrder(spec)
  {
    var built := BuildDag(spec.steps);
    if built.Err? {
      return Err(built.error);
    }
    BuildableClosed(spec.steps);
    var ordered := built.value.TopologicalOrder();
    return Ok(Names(ordered.value));
  }

  /** No topological order of the steps is lexicographically smaller. */
  lemma ExecutionOrderIsLeast(spec: WorkflowSpec, other: seq<Key>)
    requires WellFormed(spec) && IsTopological(SpecNodes(spec), SpecEdges(spec), other)
    ensures Buildable(spec.steps) && LexicographicallyAtMost(ExecutionOrder(spec), other)
  {
    WellFormedGraph(spec);
    LeastFirstIsLeast(SpecNodes(spec), SpecEdges(spec), ExecutionOrder(spec), other);
  }

  // ---------------------------------------------------------- dependencies

  function FindStep(steps: seq<Step>, key: Key): (found: Option<Step>)
    ensures found.None? <==> key !in StepKeys(steps)
    ensures found.Some? ==> found.value in steps && found.value.key == key
  {
    if steps == [] then None
    else if steps[0].key == key then
      Some(steps[0])
    else
      var found := FindStep(steps[1..], key);
      assert key in StepKeys(steps) <==> key in StepKeys(steps[1..]) by { StepKeysTail(steps, key); }
      found
  }

  lemma StepKeysTail(steps: seq<Step>, key: Key)
    requires steps != [] && steps[0].key != key
    ensures key in StepKeys(steps) <==> key in StepKeys(steps[1..])
  {
    if key in StepKeys(steps) {
      var i :| 0 <= i < |steps| && steps[i].key == key;
      assert steps[1..][i - 1].key == key;
    }
    if key in StepKeys(steps[1..]) {
      var i :| 0 <= i < |steps[1..]| && steps[1..][i].key == key;
      assert steps[i + 1].key == key;
    }
  }

  /** The dependency sets by key. */
  function DependencyMap(steps: seq<Step>): map<Key, set<Key>>
  {
    if steps == [] then map[] else
      var n := |steps| - 1;
      DependencyMap(steps[..n])[steps[n].key := steps[n].Dependencies()]
  }

  lemma {:induction false} DependencyMapKeys(steps: seq<Step>)
    ensures DependencyMap(steps).Keys == StepKeys(steps)
    decreases |steps|
  {
    if steps == [] {
      assert StepKeys(steps) == {};
    } else {
      var n := |steps| - 1;
      DependencyMapKeys(steps[..n]);
      StepKeysGrow(steps, n);
      assert steps[..n + 1] == steps;
    }
  }

  lemma {:induction false} DependencyMapAt(steps: seq<Step>, i: nat)
    requires i < |steps| && DistinctKeys(steps)
    ensures steps[i].key in DependencyMap(steps) && DependencyMap(steps)[steps[i].key] == steps[i].Dependencies()
    decreases |steps|
  {
    var n := |steps| - 1;
    if i < n {
      assert steps[..n][i] == steps[i];
      DependencyMapAt(steps[..n], i);
      assert steps[i].key != steps[n].key;
    }
  }

  /** The step waits for `d`: an explicit barrier, or an input taken from it. */
  ghost predicate WaitsFor(step: Step, d: Key)
  {
    d in step.after || exists n :: n in step.inputs && step.inputs[n].FromStep? && step.inputs[n].key == d
  }

  /** The step graph has an edge exactly where a step names another, as a barrier or
      as the source of an input. */
  lemma EdgesAreReferences(spec: WorkflowSpec, d: Key, k: Key)
    ensures HasEdge(SpecEdges(spec), d, k) <==> exists i :: HasStep(spec, i, k) && WaitsFor(spec.steps[i], d)
  {
    var steps := spec.steps;
    EdgesOfHas(StepPairs(steps), d, k);
    if (d, k) in StepPairs(steps) {
      var i :| 0 <= i < |steps| && d in steps[i].Dependencies() && (d, k) == (d, steps[i].key);
      assert HasStep(spec, i, k) && WaitsFor(steps[i], d);
    }
    if i :| HasStep(spec, i, k) && WaitsFor(steps[i], d) {
      assert d in steps[i].Dependencies();
    }
  }

  /** With distinct keys, a step's dependency set is the set of its predecessors
      in the step graph. */
  lemma DependenciesArePredecessors(spec: WorkflowSpec, key: Key)
    requires WellFormed(spec) && key in SpecNodes(spec)
    ensures key in DependencyMap(spec.steps)
    ensures DependencyMap(spec.steps)[key] == Predecessors(SpecEdges(spec), key)
    ensures FindStep(spec.steps, key).Some?
      && FindStep(spec.steps, key).value.Dependencies() == Predecessors(SpecEdges(spec), key)
  {
    var steps := spec.steps;
    var step := FindStep(steps, key).value;
    var i :| 0 <= i < |steps| && steps[i] == step;
    DependencyMapAt(steps, i);
    PredecessorsAreEdges(SpecEdges(spec), key);
    forall d
      ensures d in step.Dependencies() <==> HasEdge(SpecEdges(spec), d, key)
    {
      EdgesOfHas(StepPairs(steps), d, key);
      if (d, key) in StepPairs(steps) {
        var j :| 0 <= j < |steps| && d in steps[j].Dependencies() && key == steps[j].key;
        assert i == j;
      }
    }
  }
}
