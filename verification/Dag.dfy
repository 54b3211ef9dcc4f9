/** The mutable directed acyclic graph behind workflow composition: checked
    insertion of nodes and edges, a depth-first reachability test and Kahn's
    algorithm with a least-first frontier. */
module Dags {
  import opened Keys
  import opened Graph

  datatype Limits = Limits(maxNodes: nat, maxEdges: nat)

  const DEFAULT_LIMITS := Limits(1024, 4096)

  datatype DagError = TooManyNodes | UnknownNodes | SelfEdge | TooManyEdges | WouldCycle | CycleDetected

  // ------------------------------------------------------- reachability

  /** What the depth-first search keeps: everything on the stack or seen is
      reachable, and every successor of a seen node is seen or stacked. */
  ghost predicate SearchState(edges: Edges, start: Key, target: Key, seen: set<Key>, stacked: set<Key>)
  {
    && start in seen + stacked
    && target !in seen
    && (forall x {:trigger Reaches(edges, start, x)} :: x in seen + stacked ==> Reaches(edges, start, x))
    && (forall u, v :: u in seen && HasEdge(edges, u, v) ==> v in seen + stacked)
  }

  lemma SearchStarts(edges: Edges, start: Key, target: Key)
    ensures SearchState(edges, start, target, {}, {start})
  {
    assert Connects(edges, [start], start, start);
  }

  lemma SearchExpands(edges: Edges, start: Key, target: Key, seen: set<Key>, stacked: set<Key>, rest: set<Key>,
                      current: Key)
    requires SearchState(edges, start, target, seen, stacked)
    requires stacked == rest + {current} && current != target
    ensures SearchState(edges, start, target, seen + {current}, rest + Successors(edges, current))
  {
    assert Reaches(edges, start, current);
    var p :| Connects(edges, p, start, current);
    forall x | x in Successors(edges, current)
      ensures Reaches(edges, start, x)
    {
      PathThenEdge(edges, p, start, current, x);
    }
  }

  lemma SearchSkips(edges: Edges, start: Key, target: Key, seen: set<Key>, stacked: set<Key>, rest: set<Key>,
                    current: Key)
    requires SearchState(edges, start, target, seen, stacked)
    requires stacked == rest + {current} && current in seen
    ensures SearchState(edges, start, target, seen, rest)
  {
  }

  lemma SearchExhausted(edges: Edges, start: Key, target: Key, seen: set<Key>)
    requires SearchState(edges, start, target, seen, {})
    ensures !Reaches(edges, start, target)
  {
    forall p | Connects(edges, p, start, target)
      ensures false
    {
      PathStaysInside(edges, seen, p);
    }
  }

  /** The start node and everything an edge mentions. */
  ghost function Universe(edges: Edges, start: Key): set<Key>
  {
    {start} + edges.Keys + set u, v | u in edges && v in edges[u] :: v
  }

  lemma PopElements(stack: seq<Key>, nexts: seq<Key>)
    requires |stack| > 0
    ensures var last := stack[|stack| - 1];
            var rest := Elements(stack[..|stack| - 1]);
            && Elements(stack) == rest + {last}
            && Elements(stack[..|stack| - 1] + nexts) == rest + Elements(nexts)
  {
    assert stack == stack[..|stack| - 1] + [stack[|stack| - 1]];
  }

  /** Depth-first search with an explicit stack. */
  method Reachable(edges: Edges, start: Key, target: Key) returns (found: bool)
    ensures found <==> Reaches(edges, start, target)
  {
    var stack := [start];
    var seen: set<Key> := {};
    ghost var all := Universe(edges, start);
    SearchStarts(edges, start, target);
    assert Elements(stack) == {start};
    while |stack| > 0
      invariant SearchState(edges, start, target, seen, Elements(stack))
      invariant seen <= all && Elements(stack) <= all
      decreases all - seen, |stack|
    {
      var current, rest := stack[|stack| - 1], stack[..|stack| - 1];
      if current == target {
        assert current in seen + Elements(stack);
        return true;
      }
      var nexts := Enumerate(Successors(edges, current));
      PopElements(stack, nexts);
      if current !in seen {
        SearchExpands(edges, start, target, seen, Elements(stack), Elements(rest), current);
        seen, stack := seen + {current}, rest + nexts;
      } else {
        SearchSkips(edges, start, target, seen, Elements(stack), Elements(rest), current);
        stack := rest;
      }
    }
    assert Elements(stack) == {};
    SearchExhausted(edges, start, target, seen);
    return false;
  }

  // --------------------------------------------------- counting indegrees

  /** How many predecessors of `n` are not done. */
  ghost function Waiting(edges: Edges, done: set<Key>, n: Key): nat
  {
    |Predecessors(edges, n) - done|
  }

  ghost predicate CountsMatch(nodes: set<Key>, edges: Edges, done: set<Key>, indegree: map<Key, nat>)
  {
    indegree.Keys == nodes && forall n :: n in nodes ==> indegree[n] == Waiting(edges, done, n)
  }

  lemma WaitingForNone(edges: Edges, done: set<Key>, n: Key)
    ensures Waiting(edges, done, n) == 0 <==> Predecessors(edges, n) <= done
  {
    var left := Predecessors(edges, n) - done;
    assert |left| == 0 <==> left == {};
    assert left == {} ==> forall u :: u in Predecessors(edges, n) ==> u !in left;
  }

  /** Finishing `k` shortens the wait of its targets by one and no other. */
  lemma WaitingDrops(edges: Edges, done: set<Key>, k: Key, n: Key)
    requires k !in done
    ensures HasEdge(edges, k, n) ==> Waiting(edges, done, n) >= 1
    ensures Waiting(edges, done + {k}, n) + (if HasEdge(edges, k, n) then 1 else 0) == Waiting(edges, done, n)
  {
    var left := Predecessors(edges, n) - done;
    assert k in left <==> HasEdge(edges, k, n);
    assert Predecessors(edges, n) - (done + {k}) == left - {k};
  }

  /** Adds one for every target. */
  method Increment(indegree: map<Key, nat>, targets: set<Key>) returns (after: map<Key, nat>)
    requires targets <= indegree.Keys
    ensures after.Keys == indegree.Keys
    ensures forall n :: n in after ==> after[n] == indegree[n] + (if n in targets then 1 else 0)
  {
    after := indegree;
    var left := targets;
    while left != {}
      invariant left <= targets && after.Keys == indegree.Keys
      invariant forall n :: n in after ==> after[n] == indegree[n] + (if n in targets - left then 1 else 0)
      decreases |left|
    {
      var t := Least(left);
      after := after[t := after[t] + 1];
      left := left - {t};
    }
  }

  /** Takes one off every target and frees those that reach zero.  The caller
      shows that no count underflows. */
  method Release(indegree: map<Key, nat>, ready: set<Key>, targets: set<Key>)
    returns (after: map<Key, nat>, freed: set<Key>)
    requires targets <= indegree.Keys
    requires forall t :: t in targets ==> indegree[t] >= 1
    ensures after.Keys == indegree.Keys
    ensures forall n :: n in after ==> after[n] + (if n in targets then 1 else 0) == indegree[n]
    ensures forall t :: t in freed <==> t in ready || (t in targets && indegree[t] == 1)
  {
    after, freed := indegree, ready;
    var left := targets;
    while left != {}
      invariant left <= targets && after.Keys == indegree.Keys
      invariant forall n :: n in after ==> after[n] + (if n in targets - left then 1 else 0) == indegree[n]
      invariant forall t :: t in freed <==> t in ready || (t in targets - left && indegree[t] == 1)
      decreases |left|
    {
      var t := Least(left);
      after := after[t := after[t] - 1];
      if after[t] == 0 {
        freed := freed + {t};
      }
      left := left - {t};
    }
  }

  lemma NoneCounted(nodes: set<Key>, edges: Edges)
    ensures CountsMatch(nodes, edges, edges.Keys, map n | n in nodes :: 0)
  {
    forall n | n in nodes
      ensures Waiting(edges, edges.Keys, n) == 0
    {
      WaitingForNone(edges, edges.Keys, n);
    }
  }

  lemma SourceCounted(nodes: set<Key>, edges: Edges, left: set<Key>, u: Key, before: map<Key, nat>,
                      after: map<Key, nat>)
    requires CountsMatch(nodes, edges, left, before) && u in left && u in edges
    requires after.Keys == nodes
    requires forall n :: n in nodes ==> after[n] == before[n] + (if n in edges[u] then 1 else 0)
    ensures CountsMatch(nodes, edges, left - {u}, after)
  {
    assert left - {u} + {u} == left;
    forall n | n in nodes
      ensures after[n] == Waiting(edges, left - {u}, n)
    {
      WaitingDrops(edges, left - {u}, u, n);
    }
  }

  /** The number of incoming edges of every node. */
  method CountIndegrees(nodes: set<Key>, edges: Edges) returns (indegree: map<Key, nat>)
    requires Closed(nodes, edges)
    ensures CountsMatch(nodes, edges, {}, indegree)
  {
    indegree := map n | n in nodes :: 0;
    NoneCounted(nodes, edges);
    var left := edges.Keys;
    while left != {}
      invariant left <= edges.Keys
      invariant CountsMatch(nodes, edges, left, indegree)
      decreases |left|
    {
      var u := Least(left);
      var counted := Increment(indegree, edges[u]);
      SourceCounted(nodes, edges, left, u, indegree, counted);
      indegree, left := counted, left - {u};
    }
  }

  // ------------------------------------------------------ Kahn's algorithm

  /** Only nodes all of whose predecessors are done get done. */
  ghost predicate PredecessorClosed(edges: Edges, done: set<Key>)
  {
    forall u, v :: v in done && HasEdge(edges, u, v) ==> u in done
  }

  /** What the main loop of Kahn's algorithm keeps. */
  ghost predicate Frontier(nodes: set<Key>, edges: Edges, done: set<Key>, indegree: map<Key, nat>, ready: set<Key>)
  {
    && CountsMatch(nodes, edges, done, indegree)
    && ready == Ready(nodes, edges, done)
    && PredecessorClosed(edges, done)
  }

  lemma FrontierStarts(nodes: set<Key>, edges: Edges, indegree: map<Key, nat>, ready: set<Key>)
    requires CountsMatch(nodes, edges, {}, indegree)
    requires ready == set n | n in nodes && indegree[n] == 0
    ensures Frontier(nodes, edges, {}, indegree, ready)
  {
    forall n | n in nodes
      ensures n in ready <==> n in Ready(nodes, edges, {})
    {
      assert indegree[n] == Waiting(edges, {}, n);
      WaitingForNone(edges, {}, n);
    }
  }

  /** The indegree of a target of a ready node is positive, so taking one off
      never underflows. */
  lemma TargetsWait(nodes: set<Key>, edges: Edges, done: set<Key>, indegree: map<Key, nat>, ready: set<Key>, k: Key)
    requires Closed(nodes, edges) && Frontier(nodes, edges, done, indegree, ready) && k in ready
    ensures Successors(edges, k) <= nodes
    ensures forall t :: t in Successors(edges, k) ==> indegree[t] >= 1
  {
    forall t | t in Successors(edges, k)
      ensures t in nodes && indegree[t] >= 1
    {
      WaitingDrops(edges, done, k, t);
    }
  }

  lemma ReadyIff(nodes: set<Key>, edges: Edges, done: set<Key>, n: Key)
    ensures n in Ready(nodes, edges, done) <==> n in nodes && n !in done && Waiting(edges, done, n) == 0
  {
    WaitingForNone(edges, done, n);
  }

  /** A node is ready after `k` exactly when it was before or `k` was the last
      predecessor it waited for. */
  lemma ReadyAfter(nodes: set<Key>, edges: Edges, done: set<Key>, k: Key, n: Key)
    requires n in nodes && k !in done
    requires HasEdge(edges, k, n) ==> n !in done && n != k
    ensures n in Ready(nodes, edges, done + {k}) <==>
            (n in Ready(nodes, edges, done) && n != k) || (HasEdge(edges, k, n) && Waiting(edges, done, n) == 1)
  {
    ReadyIff(nodes, edges, done, n);
    ReadyIff(nodes, edges, done + {k}, n);
    WaitingDrops(edges, done, k, n);
  }

  lemma ReadyAdvances(nodes: set<Key>, edges: Edges, done: set<Key>, indegree: map<Key, nat>, ready: set<Key>, k: Key,
                      ready': set<Key>)
    requires Frontier(nodes, edges, done, indegree, ready) && k in ready && Successors(edges, k) <= nodes
    requires forall t :: t in ready' <==> (t in ready && t != k) || (t in Successors(edges, k) && indegree[t] == 1)
    ensures ready' == Ready(nodes, edges, done + {k})
  {
    forall n
      ensures n in ready' <==> n in Ready(nodes, edges, done + {k})
    {
      if n in nodes { ReadyAfter(nodes, edges, done, k, n); }
    }
  }

  lemma CountsAdvance(nodes: set<Key>, edges: Edges, done: set<Key>, indegree: map<Key, nat>, k: Key,
                      indegree': map<Key, nat>)
    requires CountsMatch(nodes, edges, done, indegree) && k !in done
    requires indegree'.Keys == nodes
    requires forall n :: n in nodes ==> indegree'[n] + (if n in Successors(edges, k) then 1 else 0) == indegree[n]
    ensures CountsMatch(nodes, edges, done + {k}, indegree')
  {
    forall n | n in nodes
      ensures indegree'[n] == Waiting(edges, done + {k}, n)
    {
      WaitingDrops(edges, done, k, n);
    }
  }

  /** Taking `k` and releasing its targets re-establishes the frontier. */
  lemma FrontierAdvances(nodes: set<Key>, edges: Edges, done: set<Key>, indegree: map<Key, nat>, ready: set<Key>,
                         k: Key,
                         indegree': map<Key, nat>, ready': set<Key>)
    requires Successors(edges, k) <= nodes
    requires Frontier(nodes, edges, done, indegree, ready) && k in ready
    requires indegree'.Keys == nodes
    requires forall n :: n in nodes ==> indegree'[n] + (if n in Successors(edges, k) then 1 else 0) == indegree[n]
    requires forall t :: t in ready' <==> (t in ready && t != k) || (t in Successors(edges, k) && indegree[t] == 1)
    ensures Frontier(nodes, edges, done + {k}, indegree', ready')
  {
    ReadyAdvances(nodes, edges, done, indegree, ready, k, ready');
    CountsAdvance(nodes, edges, done, indegree, k, indegree');
    ClosedAdvances(nodes, edges, done, k);
  }

  lemma ClosedAdvances(nodes: set<Key>, edges: Edges, done: set<Key>, k: Key)
    requires PredecessorClosed(edges, done) && k in Ready(nodes, edges, done)
    ensures PredecessorClosed(edges, done + {k})
  {
    PredecessorsAreEdges(edges, k);
  }

  /** The loop invariant: the frontier is exact and the order least-first. */
  ghost predicate KahnState(nodes: set<Key>, edges: Edges, order: seq<Key>, indegree: map<Key, nat>, ready: set<Key>)
  {
    Frontier(nodes, edges, Elements(order), indegree, ready) && LeastFirst(nodes, edges, order)
  }

  lemma KahnStep(nodes: set<Key>, edges: Edges, order: seq<Key>, indegree: map<Key, nat>, ready: set<Key>, k: Key,
                 indegree': map<Key, nat>, ready': set<Key>)
    requires KahnState(nodes, edges, order, indegree, ready) && IsLeast(ready, k)
    requires Successors(edges, k) <= nodes && indegree'.Keys == nodes
    requires forall n :: n in nodes ==> indegree'[n] + (if n in Successors(edges, k) then 1 else 0) == indegree[n]
    requires forall t :: t in ready' <==> (t in ready && t != k) || (t in Successors(edges, k) && indegree[t] == 1)
    ensures KahnState(nodes, edges, order + [k], indegree', ready')
    ensures Elements(order) < Elements(order + [k]) <= Elements(order) + nodes
  {
    LeastFirstExtend(nodes, edges, order, k);
    FrontierAdvances(nodes, edges, Elements(order), indegree, ready, k, indegree', ready');
  }

  lemma KahnDone(nodes: set<Key>, edges: Edges, order: seq<Key>, indegree: map<Key, nat>)
    requires Closed(nodes, edges) && KahnState(nodes, edges, order, indegree, {})
    ensures |order| == |nodes| <==> Acyclic(edges)
    ensures Acyclic(edges) ==> order == Graph.TopologicalOrder(nodes, edges)
    ensures Elements(order) <= nodes
  {
    LeastFirstSound(nodes, edges, order);
    StuckMeansCycle(nodes, edges, order);
    if Acyclic(edges) {
      LeastFirstAgree(nodes, edges, order, Graph.TopologicalOrder(nodes, edges));
    }
  }

  /** An order that stops early proves a cycle. */
  lemma StuckMeansCycle(nodes: set<Key>, edges: Edges, order: seq<Key>)
    requires Closed(nodes, edges) && LeastFirst(nodes, edges, order)
    requires Ready(nodes, edges, Elements(order)) == {}
    ensures |order| == |nodes| <==> Acyclic(edges)
  {
    LeastFirstSound(nodes, edges, order);
    DistinctLength(order);
    if |order| == |nodes| {
      LeastFirstIsTopological(nodes, edges, order);
      OrderedIsAcyclic(nodes, edges, order);
    } else if Acyclic(edges) {
      assert Elements(order) != nodes;
      SomethingReady(nodes, edges, Elements(order));
    }
  }

  /** Kahn's algorithm: as many nodes as can be ordered, least ready first. */
  method Kahn(nodes: set<Key>, edges: Edges) returns (order: seq<Key>)
    requires Closed(nodes, edges)
    ensures |order| == |nodes| <==> Acyclic(edges)
    ensures Acyclic(edges) ==> order == Graph.TopologicalOrder(nodes, edges)
    ensures Elements(order) <= nodes
  {
    var indegree := CountIndegrees(nodes, edges);
    var ready := set n | n in nodes && indegree[n] == 0;
    FrontierStarts(nodes, edges, indegree, ready);
    order := [];
    assert Elements(order) == {};
    while ready != {}
      invariant KahnState(nodes, edges, order, indegree, ready)
      invariant Elements(order) <= nodes
      decreases nodes - Elements(order)
    {
      var k := Least(ready);
      TargetsWait(nodes, edges, Elements(order), indegree, ready, k);
      var indegree', ready' := Release(indegree, ready - {k}, Successors(edges, k));
      KahnStep(nodes, edges, order, indegree, ready, k, indegree', ready');
      order, indegree, ready := order + [k], indegree', ready';
    }
    KahnDone(nodes, edges, order, indegree);
  }

  class Dag<T> {
    var nodes: map<Key, T>
    var edges: Edges

    /** The state every sequence of checked insertions keeps. */
    ghost predicate Valid()
      reads this
    {
      Closed(nodes.Keys, edges) && Acyclic(edges)
    }

    ghost predicate Within(limits: Limits)
      reads this
    {
      |nodes| <= limits.maxNodes && |Pairs(edges)| <= limits.maxEdges
    }

    constructor ()
      ensures Valid() && nodes == map[] && edges == map[]
    {
      nodes, edges := map[], map[];
      new;
      NoEdgesAcyclic();
    }

    /** Rejected exactly when the node is new and the graph is full. */
    method AddNode(key: Key, payload: T, limits: Limits) returns (r: Result<(), DagError>)
      requires Valid()
      modifies this
      ensures Valid() && edges == old(edges)
      ensures r.Err? <==> key !in old(nodes) && |old(nodes)| >= limits.maxNodes
      ensures r.Err? ==> r.error == TooManyNodes && nodes == old(nodes)
      ensures r.Ok? ==> nodes == old(nodes)[key := payload]
      ensures old(Within(limits)) ==> Within(limits)
    {
      if key !in nodes && |nodes| >= limits.maxNodes {
        return Err(TooManyNodes);
      }
      ghost var before := nodes;
      nodes := nodes[key := payload];
      assert nodes.Keys == before.Keys + {key};
      return Ok(());
    }

    /** The sizes of the target sets, summed. */
    method EdgeCount() returns (count: nat)
      ensures count == |Pairs(edges)|
    {
      count := 0;
      var left := edges.Keys;
      ghost var counted: set<(Key, Key)> := {};
      while left != {}
        invariant left <= edges.Keys
        invariant counted == set u, v | u in edges.Keys - left && v in edges[u] :: (u, v)
        invariant count == |counted|
        decreases |left|
      {
        var u := Least(left);
        RowCardinality(u, edges[u]);
        ghost var row := set v | v in edges[u] :: (u, v);
        assert counted !! row;
        counted := counted + row;
        count := count + |edges[u]|;
        left := left - {u};
      }
      assert counted == Pairs(edges);
    }

    /** Among known, distinct nodes and below the edge limit, an edge is
        rejected exactly when it would close a cycle; no edge is ever lost. */
    method AddEdge(from: Key, to: Key, limits: Limits) returns (r: Result<(), DagError>)
      requires Valid()
      modifies this
      ensures Valid() && nodes == old(nodes)
      ensures r.Err? ==> edges == old(edges)
      ensures r.Ok? ==> edges == WithEdge(old(edges), from, to)
      ensures r.Ok? <==>
        && from in nodes && to in nodes && from != to
        && ((from, to) in Pairs(old(edges)) || |Pairs(old(edges))| < limits.maxEdges)
        && Acyclic(WithEdge(old(edges), from, to))
      ensures r == Err(WouldCycle) ==> Reaches(old(edges), to, from)
      ensures old(Within(limits)) ==> Within(limits)
    {
      if from !in nodes || to !in nodes {
        return Err(UnknownNodes);
      }
      if from == to {
        return Err(SelfEdge);
      }
      var count := EdgeCount();
      var already := from in edges && to in edges[from];
      assert already <==> (from, to) in Pairs(edges);
      if !already && count >= limits.maxEdges {
        return Err(TooManyEdges);
      }
      WithEdgeAcyclic(edges, from, to);
      var cycle := Reachable(edges, to, from);
      if cycle {
        return Err(WouldCycle);
      }
      WithEdgePairs(edges, from, to);
      edges := WithEdge(edges, from, to);
      return Ok(());
    }

    /** Kahn's algorithm.  It succeeds exactly on acyclic graphs, and then
        yields the lexicographically least topological order with payloads. */
    method TopologicalOrder() returns (r: Result<seq<(Key, T)>, DagError>)
      requires Closed(nodes.Keys, edges)
      ensures r.Ok? <==> Acyclic(edges)
      ensures r.Err? ==> r.error == CycleDetected
      ensures r.Ok? ==> |r.value| == |nodes| && Names(r.value) == Graph.TopologicalOrder(nodes.Keys, edges)
      ensures r.Ok? ==> forall i :: 0 <= i < |r.value| ==> r.value[i].0 in nodes && r.value[i].1 == nodes[r.value[i].0]
    {
      var order := Kahn(nodes.Keys, edges);
      assert |nodes| == |nodes.Keys|;
      if |order| != |nodes| {
        return Err(CycleDetected);
      }
      r := Ok(WithPayloads(order, nodes));
    }
  }

  /** The nodes in the given order, each with its payload. */
  function WithPayloads<T>(order: seq<Key>, nodes: map<Key, T>): (entries: seq<(Key, T)>)
    requires Elements(order) <= nodes.Keys
    ensures Names(entries) == order
    ensures forall i :: 0 <= i < |entries| ==> entries[i].0 in nodes && entries[i].1 == nodes[entries[i].0]
  {
    assert forall i :: 0 <= i < |order| ==> order[i] in Elements(order);
    seq(|order|, i requires 0 <= i < |order| => (order[i], nodes[order[i]]))
  }

  lemma CycleHasEdge(edges: Edges, a: Key)
    requires Precedes(edges, a, a)
    ensures edges != map[]
  {
    var p :| Connects(edges, p, a, a) && |p| >= 2;
    assert HasEdge(edges, p[0], p[1]);
  }

  lemma NoEdgesAcyclic()
    ensures Acyclic(map[])
  {
    forall a
      ensures !Precedes(map[], a, a)
    {
      if Precedes(map[], a, a) { CycleHasEdge(map[], a); }
    }
  }

  function Names<T>(entries: seq<(Key, T)>): seq<Key>
  {
    seq(|entries|, i requires 0 <= i < |entries| => entries[i].0)
  }

  lemma {:induction false} RowCardinality(u: Key, targets: set<Key>)
    ensures |set v | v in targets :: (u, v)| == |targets|
    decreases |targets|
  {
    var row := set v | v in targets :: (u, v);
    if targets != {} {
      var t :| t in targets;
      RowCardinality(u, targets - {t});
      assert row == (set v | v in targets - {t} :: (u, v)) + {(u, t)};
    }
  }
}
