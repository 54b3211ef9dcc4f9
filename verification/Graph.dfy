/** Directed graphs over keys: paths, cycles and the least-first topological
    order.  Everything here is independent of how the graph is computed with;
    the algorithms in `Dags` are proved against these definitions. */
module Graph {
  import opened Keys

  /** `edges[u]` is the set of nodes that must come after `u`. */
  type Edges = map<Key, set<Key>>

  function Successors(edges: Edges, u: Key): set<Key>
  {
    if u in edges then edges[u] else {}
  }

  ghost predicate HasEdge(edges: Edges, u: Key, v: Key)
  {
    v in Successors(edges, u)
  }

  /** The edges as pairs. */
  ghost function Pairs(edges: Edges): set<(Key, Key)>
  {
    set u, v | u in edges && v in edges[u] :: (u, v)
  }

  ghost predicate IsPath(edges: Edges, p: seq<Key>)
  {
    |p| > 0 && forall i :: 0 <= i < |p| - 1 ==> HasEdge(edges, p[i], p[i + 1])
  }

  ghost predicate Connects(edges: Edges, p: seq<Key>, a: Key, b: Key)
  {
    IsPath(edges, p) && p[0] == a && p[|p| - 1] == b
  }

  /** There is a path, possibly of no edges. */
  ghost predicate Reaches(edges: Edges, a: Key, b: Key)
  {
    exists p :: Connects(edges, p, a, b)
  }

  /** There is a path of at least one edge. */
  ghost predicate Precedes(edges: Edges, a: Key, b: Key)
  {
    exists p :: Connects(edges, p, a, b) && |p| >= 2
  }

  ghost predicate Acyclic(edges: Edges)
  {
    forall a :: !Precedes(edges, a, a)
  }

  /** Every endpoint of an edge is a node. */
  ghost predicate Closed(nodes: set<Key>, edges: Edges)
  {
    forall u :: u in edges ==> u in nodes && edges[u] <= nodes
  }

  // ---------------------------------------------------------------- paths

  lemma JoinPaths(edges: Edges, p: seq<Key>, q: seq<Key>, a: Key, b: Key, c: Key)
    requires Connects(edges, p, a, b) && Connects(edges, q, b, c)
    ensures Connects(edges, p + q[1..], a, c)
  {
    var r := p + q[1..];
    forall i | 0 <= i < |r| - 1
      ensures HasEdge(edges, r[i], r[i + 1])
    {
      if i < |p| - 1 {
        assert HasEdge(edges, p[i], p[i + 1]);
      } else {
        var j := i - (|p| - 1);
        assert HasEdge(edges, q[j], q[j + 1]);
      }
    }
  }

  lemma EdgeIsPath(edges: Edges, u: Key, v: Key)
    requires HasEdge(edges, u, v)
    ensures Connects(edges, [u, v], u, v)
    ensures Precedes(edges, u, v)
  {
    assert Connects(edges, [u, v], u, v);
  }

  lemma PrecedesTransitive(edges: Edges, a: Key, b: Key, c: Key)
    requires Precedes(edges, a, b) && Precedes(edges, b, c)
    ensures Precedes(edges, a, c)
  {
    var p :| Connects(edges, p, a, b) && |p| >= 2;
    var q :| Connects(edges, q, b, c) && |q| >= 2;
    JoinPaths(edges, p, q, a, b, c);
  }

  lemma PathThenEdge(edges: Edges, p: seq<Key>, a: Key, b: Key, c: Key)
    requires Connects(edges, p, a, b) && HasEdge(edges, b, c)
    ensures Connects(edges, p + [c], a, c)
    ensures Precedes(edges, a, c)
  {
    EdgeIsPath(edges, b, c);
    JoinPaths(edges, p, [b, c], a, b, c);
    assert p + [b, c][1..] == p + [c];
  }

  /** A set closed under successors is never left by a path. */
  lemma {:induction false} PathStaysInside(edges: Edges, inside: set<Key>, p: seq<Key>)
    requires IsPath(edges, p) && p[0] in inside
    requires forall u, v :: u in inside && HasEdge(edges, u, v) ==> v in inside
    ensures p[|p| - 1] in inside
    decreases |p|
  {
    if |p| > 1 {
      var q := p[..|p| - 1];
      assert IsPath(edges, q);
      PathStaysInside(edges, inside, q);
      assert HasEdge(edges, p[|p| - 2], p[|p| - 1]);
    }
  }

  // ------------------------------------------------------- adding an edge

  function WithEdge(edges: Edges, u: Key, v: Key): Edges
  {
    edges[u := Successors(edges, u) + {v}]
  }

  lemma WithEdgeHas(edges: Edges, u: Key, v: Key, x: Key, y: Key)
    ensures HasEdge(WithEdge(edges, u, v), x, y) <==> HasEdge(edges, x, y) || (x == u && y == v)
  {
  }

  lemma WithEdgePairs(edges: Edges, u: Key, v: Key)
    ensures Pairs(WithEdge(edges, u, v)) == Pairs(edges) + {(u, v)}
  {
    var after := WithEdge(edges, u, v);
    forall x, y
      ensures (x, y) in Pairs(after) <==> (x, y) in Pairs(edges) + {(u, v)}
    {
      WithEdgeHas(edges, u, v, x, y);
    }
  }

  /** A path that uses a new edge splits there: the part before it already led
      to the edge's source, the part after it already led from its target. */
  lemma {:induction false} SplitAtNewEdge(edges: Edges, u: Key, v: Key, p: seq<Key>)
    requires IsPath(WithEdge(edges, u, v), p)
    ensures IsPath(edges, p) || (Reaches(edges, p[0], u) && Reaches(edges, v, p[|p| - 1]))
    decreases |p|
  {
    if |p| > 1 {
      var n := |p| - 1;
      var q := p[..n];
      assert IsPath(WithEdge(edges, u, v), q);
      SplitAtNewEdge(edges, u, v, q);
      assert HasEdge(WithEdge(edges, u, v), p[n - 1], p[n]);
      WithEdgeHas(edges, u, v, p[n - 1], p[n]);
      if HasEdge(edges, p[n - 1], p[n]) {
        if IsPath(edges, q) {
          forall i | 0 <= i < |p| - 1
            ensures HasEdge(edges, p[i], p[i + 1])
          {
            if i < n - 1 { assert HasEdge(edges, q[i], q[i + 1]); }
          }
        } else {
          var t :| Connects(edges, t, v, q[|q| - 1]);
          PathThenEdge(edges, t, v, p[n - 1], p[n]);
        }
      } else {
        assert Connects(edges, [v], v, p[n]);
        if IsPath(edges, q) {
          assert Connects(edges, q, p[0], u);
        }
      }
    }
  }

  /** Adding `u -> v` keeps the graph acyclic exactly when `v` did not already
      lead to `u`. */
  lemma WithEdgeAcyclic(edges: Edges, u: Key, v: Key)
    requires Acyclic(edges)
    ensures Acyclic(WithEdge(edges, u, v)) <==> !Reaches(edges, v, u)
  {
    var after := WithEdge(edges, u, v);
    if Reaches(edges, v, u) {
      var p :| Connects(edges, p, v, u);
      forall i | 0 <= i < |p| - 1
        ensures HasEdge(after, p[i], p[i + 1])
      {
        assert HasEdge(edges, p[i], p[i + 1]);
        WithEdgeHas(edges, u, v, p[i], p[i + 1]);
      }
      assert Connects(after, p, v, u);
      WithEdgeHas(edges, u, v, u, v);
      PathThenEdge(after, p, v, u, v);
    } else {
      forall a
        ensures !Precedes(after, a, a)
      {
        if Precedes(after, a, a) {
          var p :| Connects(after, p, a, a) && |p| >= 2;
          SplitAtNewEdge(edges, u, v, p);
          if IsPath(edges, p) {
            assert Precedes(edges, a, a);
          } else {
            var s :| Connects(edges, s, v, a);
            var t :| Connects(edges, t, a, u);
            JoinPaths(edges, s, t, v, a, u);
          }
        }
      }
    }
  }

  /** Fewer edges, fewer cycles. */
  lemma SubgraphAcyclic(small: Edges, big: Edges)
    requires Acyclic(big)
    requires forall u, v :: HasEdge(small, u, v) ==> HasEdge(big, u, v)
    ensures Acyclic(small)
  {
    forall a
      ensures !Precedes(small, a, a)
    {
      if Precedes(small, a, a) { SubgraphPrecedes(small, big, a, a); }
    }
  }

  lemma SubgraphPrecedes(small: Edges, big: Edges, a: Key, b: Key)
    requires Precedes(small, a, b)
    requires forall u, v :: HasEdge(small, u, v) ==> HasEdge(big, u, v)
    ensures Precedes(big, a, b)
  {
    var p :| Connects(small, p, a, b) && |p| >= 2;
    assert Connects(big, p, a, b);
  }

  // ------------------------------------------------------ minimal elements

  ghost function Ancestors(edges: Edges, within: set<Key>, x: Key): set<Key>
  {
    set u | u in within && Precedes(edges, u, x)
  }

  ghost predicate IsSource(edges: Edges, within: set<Key>, x: Key)
  {
    x in within && forall u :: u in within ==> !HasEdge(edges, u, x)
  }

  /** Walking backwards from `x` inside a finite set ends in a node of that set
      without predecessors in it. */
  lemma {:induction false} SourceFrom(edges: Edges, within: set<Key>, x: Key)
    requires Acyclic(edges) && x in within
    ensures exists y :: IsSource(edges, within, y)
    decreases |Ancestors(edges, within, x)|
  {
    if !IsSource(edges, within, x) {
      var u :| u in within && HasEdge(edges, u, x);
      EdgeIsPath(edges, u, x);
      var up, at := Ancestors(edges, within, u), Ancestors(edges, within, x);
      forall w | w in up
        ensures w in at
      {
        PrecedesTransitive(edges, w, u, x);
      }
      assert u in at && u !in up;
      SmallerCardinality(up, at);
      SourceFrom(edges, within, u);
    }
  }

  lemma {:induction false} SubsetCardinality<T>(a: set<T>, b: set<T>)
    requires a <= b
    ensures |a| <= |b|
  {
    if a != {} {
      var x :| x in a;
      SubsetCardinality(a - {x}, b - {x});
    }
  }

  lemma SmallerCardinality<T>(a: set<T>, b: set<T>)
    requires a < b
    ensures |a| < |b|
  {
    assert b - a != {};
    var x :| x in b - a;
    SubsetCardinality(a, b - {x});
  }

  // ---------------------------------------------------- topological orders

  /** Sources of the edges into `n`. */
  ghost function Predecessors(edges: Edges, n: Key): set<Key>
  {
    set u | u in edges && n in edges[u]
  }

  lemma PredecessorsAreEdges(edges: Edges, n: Key)
    ensures forall u :: u in Predecessors(edges, n) <==> HasEdge(edges, u, n)
  {
  }

  /** Nodes not yet done whose predecessors all are. */
  ghost function Ready(nodes: set<Key>, edges: Edges, done: set<Key>): set<Key>
  {
    set n | n in nodes && n !in done && Predecessors(edges, n) <= done
  }

  /** In an acyclic graph something is ready until everything is done. */
  lemma SomethingReady(nodes: set<Key>, edges: Edges, done: set<Key>)
    requires Closed(nodes, edges) && Acyclic(edges)
    requires done < nodes
    ensures Ready(nodes, edges, done) != {}
  {
    var left := nodes - done;
    var x :| x in nodes && x !in done;
    SourceFrom(edges, left, x);
    var y :| IsSource(edges, left, y);
    PredecessorsAreEdges(edges, y);
    assert y in Ready(nodes, edges, done);
  }

  /** Each element is the least node ready after the elements before it. */
  ghost predicate LeastFirst(nodes: set<Key>, edges: Edges, order: seq<Key>)
  {
    forall i :: 0 <= i < |order| ==> IsLeast(Ready(nodes, edges, Elements(order[..i])), order[i])
  }

  /** All the nodes once each, every edge pointing forwards. */
  ghost predicate IsTopological(nodes: set<Key>, edges: Edges, order: seq<Key>)
  {
    && NoDuplicates(order)
    && Elements(order) == nodes
    && forall i, j :: 0 <= i < |order| && 0 <= j < |order| && HasEdge(edges, order[i], order[j]) ==> i < j
  }

  lemma LeastFirstSound(nodes: set<Key>, edges: Edges, order: seq<Key>)
    requires LeastFirst(nodes, edges, order)
    ensures NoDuplicates(order) && Elements(order) <= nodes
    ensures forall i, j :: 0 <= i < |order| && 0 <= j < |order| && HasEdge(edges, order[i], order[j]) ==> i < j
  {
    forall i, j | 0 <= i < j < |order|
      ensures order[i] != order[j]
    {
      assert order[i] == order[..j][i];
      assert order[j] in Ready(nodes, edges, Elements(order[..j]));
    }
    forall i, j | 0 <= i < |order| && 0 <= j < |order| && HasEdge(edges, order[i], order[j])
      ensures i < j
    {
      assert order[j] in Ready(nodes, edges, Elements(order[..j]));
      assert order[i] in Elements(order[..j]);
      var k :| 0 <= k < j && order[..j][k] == order[i];
      if i != k { assert order[i] == order[k]; }
    }
  }

  /** Two least-first sequences agree as far as both go. */
  lemma {:induction false} LeastFirstAgree(nodes: set<Key>, edges: Edges, a: seq<Key>, b: seq<Key>)
    requires LeastFirst(nodes, edges, a) && LeastFirst(nodes, edges, b)
    requires |a| <= |b|
    ensures a == b[..|a|]
    decreases |a|
  {
    if |a| > 0 {
      var n := |a| - 1;
      LeastFirstPrefix(nodes, edges, a, n);
      LeastFirstAgree(nodes, edges, a[..n], b);
      assert a[..n] == b[..n];
      LeastUnique(Ready(nodes, edges, Elements(a[..n])), a[n], b[n]);
      assert a == a[..n] + [a[n]];
    }
  }

  lemma LeastFirstPrefix(nodes: set<Key>, edges: Edges, order: seq<Key>, n: nat)
    requires LeastFirst(nodes, edges, order) && n <= |order|
    ensures LeastFirst(nodes, edges, order[..n])
  {
    forall i | 0 <= i < n
      ensures IsLeast(Ready(nodes, edges, Elements(order[..n][..i])), order[..n][i])
    {
      assert order[..n][..i] == order[..i];
    }
  }

  /** A graph that has a topological order has no cycle. */
  lemma OrderedIsAcyclic(nodes: set<Key>, edges: Edges, order: seq<Key>)
    requires Closed(nodes, edges) && IsTopological(nodes, edges, order)
    ensures Acyclic(edges)
  {
    forall a
      ensures !Precedes(edges, a, a)
    {
      if Precedes(edges, a, a) {
        var p :| Connects(edges, p, a, a) && |p| >= 2;
        assert HasEdge(edges, p[0], p[1]);
        assert a in Elements(order);
        var i :| 0 <= i < |order| && order[i] == a;
        PathClimbs(nodes, edges, order, p, i, i);
      }
    }
  }

  lemma {:induction false} PathClimbs(nodes: set<Key>, edges: Edges, order: seq<Key>, p: seq<Key>, i: nat, j: nat)
    requires Closed(nodes, edges) && IsTopological(nodes, edges, order)
    requires IsPath(edges, p) && |p| >= 2
    requires i < |order| && j < |order| && order[i] == p[0] && order[j] == p[|p| - 1]
    ensures i < j
    decreases |p|
  {
    assert HasEdge(edges, p[0], p[1]);
    assert p[1] in nodes;
    assert p[1] in Elements(order);
    var k :| 0 <= k < |order| && order[k] == p[1];
    if |p| > 2 {
      var q := p[1..];
      forall m | 0 <= m < |q| - 1
        ensures HasEdge(edges, q[m], q[m + 1])
      {
        assert HasEdge(edges, p[m + 1], p[m + 2]);
      }
      PathClimbs(nodes, edges, order, q, k, j);
    } else if k != j {
      assert order[k] == order[j];
    }
  }

  /** The least-first order of all nodes is a topological order ... */
  lemma LeastFirstIsTopological(nodes: set<Key>, edges: Edges, order: seq<Key>)
    requires LeastFirst(nodes, edges, order) && |order| == |nodes|
    ensures IsTopological(nodes, edges, order)
  {
    LeastFirstSound(nodes, edges, order);
    DistinctLength(order);
    if Elements(order) != nodes {
      SmallerCardinality(Elements(order), nodes);
    }
  }

  /** `a` equals `b`, or is smaller where they first differ. */
  ghost predicate LexicographicallyAtMost(a: seq<Key>, b: seq<Key>)
  {
    a == b || exists i :: FirstSmallerAt(a, b, i)
  }

  ghost predicate FirstSmallerAt(a: seq<Key>, b: seq<Key>, i: nat)
  {
    i < |a| && i < |b| && a[..i] == b[..i] && Less(a[i], b[i])
  }

  /** ... and the lexicographically least of them. */
  lemma LeastFirstIsLeast(nodes: set<Key>, edges: Edges, order: seq<Key>, other: seq<Key>)
    requires Closed(nodes, edges)
    requires LeastFirst(nodes, edges, order) && |order| == |nodes|
    requires IsTopological(nodes, edges, other)
    ensures LexicographicallyAtMost(order, other)
  {
    DistinctLength(other);
    if order != other {
      var i := FirstDifference(order, other);
      var done := Elements(order[..i]);
      assert other[i] in Ready(nodes, edges, done) by {
        assert other[i] in Elements(other);
        forall u | HasEdge(edges, u, other[i])
          ensures u in done
        {
          assert u in nodes;
          assert u in Elements(other);
          var j :| 0 <= j < |other| && other[j] == u;
          assert other[..i][j] == u;
        }
      }
      assert IsLeast(Ready(nodes, edges, done), order[i]);
      assert FirstSmallerAt(order, other, i);
    }
  }

  lemma {:induction false} FirstDifference(a: seq<Key>, b: seq<Key>) returns (i: nat)
    requires |a| == |b| && a != b
    ensures i < |a| && a[..i] == b[..i] && a[i] != b[i]
    decreases |a|
  {
    if a[0] != b[0] {
      return 0;
    }
    assert a == [a[0]] + a[1..] && b == [b[0]] + b[1..];
    var j := FirstDifference(a[1..], b[1..]);
    assert a[..j + 1] == [a[0]] + a[1..][..j];
    assert b[..j + 1] == [b[0]] + b[1..][..j];
    return j + 1;
  }

  /** The least-first order of an acyclic graph, started by `done`. */
  ghost function CompleteOrder(nodes: set<Key>, edges: Edges, done: seq<Key>): (order: seq<Key>)
    requires Closed(nodes, edges) && Acyclic(edges)
    requires LeastFirst(nodes, edges, done)
    ensures LeastFirst(nodes, edges, order) && |order| == |nodes|
    decreases |nodes| - |Elements(done)|
  {
    LeastFirstSound(nodes, edges, done);
    DistinctLength(done);
    if Elements(done) == nodes then done else
      SomethingReady(nodes, edges, Elements(done));
      var k := Least(Ready(nodes, edges, Elements(done)));
      LeastFirstExtend(nodes, edges, done, k);
      SmallerCardinality(Elements(done), nodes);
      CompleteOrder(nodes, edges, done + [k])
  }

  lemma LeastFirstExtend(nodes: set<Key>, edges: Edges, done: seq<Key>, k: Key)
    requires LeastFirst(nodes, edges, done)
    requires IsLeast(Ready(nodes, edges, Elements(done)), k)
    ensures LeastFirst(nodes, edges, done + [k])
    ensures Elements(done + [k]) == Elements(done) + {k}
    ensures |Elements(done + [k])| == |Elements(done)| + 1
  {
    var longer := done + [k];
    forall i | 0 <= i < |longer|
      ensures IsLeast(Ready(nodes, edges, Elements(longer[..i])), longer[i])
    {
      if i < |done| {
        assert longer[..i] == done[..i];
      } else {
        assert longer[..i] == done;
      }
    }
    assert Elements(longer) == Elements(done) + {k};
  }

  /** The topological order that always takes the least ready node. */
  ghost function TopologicalOrder(nodes: set<Key>, edges: Edges): (order: seq<Key>)
    requires Closed(nodes, edges) && Acyclic(edges)
    ensures LeastFirst(nodes, edges, order) && |order| == |nodes|
    ensures IsTopological(nodes, edges, order)
  {
    var order := CompleteOrder(nodes, edges, []);
    LeastFirstIsTopological(nodes, edges, order);
    order
  }
}
