/** Directed graphs as lists of edges, the shape in which a workflow definition
    stores them.  Duplicate edges and self-loops are allowed; what matters for
    paths is only which edges occur. */
module Graph {

  type NodeId = string

  datatype Edge = Edge(from: NodeId, to: NodeId)

  ghost predicate IsPath(edges: seq<Edge>, path: seq<NodeId>) {
    && path != []
    && forall i, j :: 0 <= i < j < |path| && j == i + 1 ==> Edge(path[i], path[j]) in edges
  }

  ghost predicate PathBetween(edges: seq<Edge>, path: seq<NodeId>, a: NodeId, b: NodeId) {
    IsPath(edges, path) && |path| >= 2 && path[0] == a && path[|path| - 1] == b
  }

  /** There is a path of at least one edge from `a` to `b`. */
  ghost predicate Reaches(edges: seq<Edge>, a: NodeId, b: NodeId) {
    exists path :: PathBetween(edges, path, a, b)
  }

  ghost predicate ReachesOrSame(edges: seq<Edge>, a: NodeId, b: NodeId) {
    a == b || Reaches(edges, a, b)
  }

  ghost predicate Acyclic(edges: seq<Edge>) {
    forall n :: !Reaches(edges, n, n)
  }

  ghost predicate Distinct<T>(s: seq<T>) {
    forall i, j :: 0 <= i < j < |s| ==> s[i] != s[j]
  }

  /** `order` lists exactly the nodes of `ids`, each once, and every edge points forward. */
  ghost predicate Topological(ids: seq<NodeId>, edges: seq<Edge>, order: seq<NodeId>) {
    && multiset(order) == multiset(ids)
    && Distinct(order)
    && forall i, j {:trigger Edge(order[i], order[j])} ::
         0 <= i < |order| && 0 <= j < |order| && Edge(order[i], order[j]) in edges ==> i < j
  }

  ghost predicate EdgesWithin(ids: seq<NodeId>, edges: seq<Edge>) {
    forall e :: e in edges ==> e.from in ids && e.to in ids
  }

  // ----- the adjacency lists the source builds by comprehension -----

  function Children(edges: seq<Edge>, n: NodeId): (r: seq<NodeId>)
    ensures forall c :: c in r <==> Edge(n, c) in edges
  {
    if edges == [] then []
    else
      var rest := Children(edges[..|edges| - 1], n);
      var last := edges[|edges| - 1];
      if last.from == n then rest + [last.to] else rest
  }

  function Parents(edges: seq<Edge>, n: NodeId): (r: seq<NodeId>)
    ensures forall p :: p in r <==> Edge(p, n) in edges
  {
    if edges == [] then []
    else
      var rest := Parents(edges[..|edges| - 1], n);
      var last := edges[|edges| - 1];
      if last.to == n then rest + [last.from] else rest
  }

  // ----- paths -----

  lemma EdgeReaches(edges: seq<Edge>, a: NodeId, b: NodeId)
    requires Edge(a, b) in edges
    ensures Reaches(edges, a, b)
  {
    assert PathBetween(edges, [a, b], a, b);
  }

  lemma ReachesTransitive(edges: seq<Edge>, a: NodeId, b: NodeId, c: NodeId)
    requires Reaches(edges, a, b) && Reaches(edges, b, c)
    ensures Reaches(edges, a, c)
  {
    var p :| PathBetween(edges, p, a, b);
    var q :| PathBetween(edges, q, b, c);
    var joined := p + q[1..];
    assert PathBetween(edges, joined, a, c);
  }

  /** A path ends with an edge into its last node. */
  lemma ReachesLastEdge(edges: seq<Edge>, a: NodeId, b: NodeId) returns (c: NodeId)
    requires Reaches(edges, a, b)
    ensures Edge(c, b) in edges && ReachesOrSame(edges, a, c)
  {
    var p :| PathBetween(edges, p, a, b);
    c := p[|p| - 2];
    if |p| > 2 {
      assert PathBetween(edges, p[..|p| - 1], a, c);
    }
  }

  /** A path starts with an edge out of its first node. */
  lemma ReachesFirstEdge(edges: seq<Edge>, a: NodeId, b: NodeId) returns (c: NodeId)
    requires Reaches(edges, a, b)
    ensures Edge(a, c) in edges && ReachesOrSame(edges, c, b)
  {
    var p :| PathBetween(edges, p, a, b);
    c := p[1];
    if |p| > 2 {
      assert PathBetween(edges, p[1..], c, b);
    }
  }

  lemma EdgeThenReaches(edges: seq<Edge>, a: NodeId, b: NodeId, c: NodeId)
    requires Edge(a, b) in edges && ReachesOrSame(edges, b, c)
    ensures Reaches(edges, a, c)
  {
    EdgeReaches(edges, a, b);
    if b != c {
      ReachesTransitive(edges, a, b, c);
    }
  }

  lemma ReachesThenEdge(edges: seq<Edge>, a: NodeId, b: NodeId, c: NodeId)
    requires ReachesOrSame(edges, a, b) && Edge(b, c) in edges
    ensures Reaches(edges, a, c)
  {
    EdgeReaches(edges, b, c);
    if a != b {
      ReachesTransitive(edges, a, b, c);
    }
  }

  /** A set closed under outgoing edges contains everything reachable from its members. */
  lemma {:induction false} ClosedUnderPath(edges: seq<Edge>, closed: set<NodeId>, path: seq<NodeId>)
    requires IsPath(edges, path) && path[0] in closed
    requires forall e :: e in edges && e.from in closed ==> e.to in closed
    ensures forall i :: 0 <= i < |path| ==> path[i] in closed
    decreases |path|
  {
    if |path| > 1 {
      assert Edge(path[0], path[1]) in edges;
      assert IsPath(edges, path[1..]);
      ClosedUnderPath(edges, closed, path[1..]);
      forall i | 0 <= i < |path| ensures path[i] in closed {
        if i > 0 { assert path[i] == path[1..][i - 1]; }
      }
    }
  }

  lemma ClosedUnderReaches(edges: seq<Edge>, closed: set<NodeId>, a: NodeId, b: NodeId)
    requires a in closed && ReachesOrSame(edges, a, b)
    requires forall e :: e in edges && e.from in closed ==> e.to in closed
    ensures b in closed
  {
    if a != b {
      var p :| PathBetween(edges, p, a, b);
      ClosedUnderPath(edges, closed, p);
    }
  }

  // ----- acyclicity -----

  /** Along any path the position in a topological order strictly increases. */
  lemma {:induction false} PathGoesForward(ids: seq<NodeId>, edges: seq<Edge>, order: seq<NodeId>, path: seq<NodeId>)
    requires Topological(ids, edges, order) && EdgesWithin(ids, edges)
    requires IsPath(edges, path) && |path| >= 2
    ensures exists i, j :: 0 <= i < j < |order| && order[i] == path[0] && order[j] == path[|path| - 1]
    decreases |path|
  {
    var e := Edge(path[|path| - 2], path[|path| - 1]);
    assert e in edges;
    TopologicalCovers(ids, edges, order, e.from);
    TopologicalCovers(ids, edges, order, e.to);
    var k :| 0 <= k < |order| && order[k] == e.from;
    var l :| 0 <= l < |order| && order[l] == e.to;
    assert k < l;
    if |path| > 2 {
      var front := path[..|path| - 1];
      assert IsPath(edges, front);
      PathGoesForward(ids, edges, order, front);
      var i, j :| 0 <= i < j < |order| && order[i] == front[0] && order[j] == front[|front| - 1];
      assert j == k;
      assert order[i] == path[0] && i < l;
    }
  }

  lemma TopologicalCovers(ids: seq<NodeId>, edges: seq<Edge>, order: seq<NodeId>, n: NodeId)
    requires Topological(ids, edges, order)
    ensures n in order <==> n in ids
  {
    assert n in order <==> n in multiset(order);
    assert n in ids <==> n in multiset(ids);
  }

  lemma TopologicalImpliesAcyclic(ids: seq<NodeId>, edges: seq<Edge>, order: seq<NodeId>)
    requires Topological(ids, edges, order) && EdgesWithin(ids, edges)
    ensures Acyclic(edges)
  {
    forall n ensures !Reaches(edges, n, n) {
      if Reaches(edges, n, n) {
        var p :| PathBetween(edges, p, n, n);
        PathGoesForward(ids, edges, order, p);
      }
    }
  }

  ghost predicate HasPredecessorIn(edges: seq<Edge>, members: set<NodeId>, x: NodeId) {
    exists y :: y in members && Edge(y, x) in edges
  }

  ghost function Above(edges: seq<Edge>, members: set<NodeId>, r: NodeId): set<NodeId> {
    set x | x in members && Reaches(edges, x, r)
  }

  lemma AboveKeepsPredecessors(edges: seq<Edge>, members: set<NodeId>, r: NodeId, x: NodeId)
    requires HasPredecessorIn(edges, members, x) && ReachesOrSame(edges, x, r)
    ensures HasPredecessorIn(edges, Above(edges, members, r), x)
  {
    var z :| z in members && Edge(z, x) in edges;
    EdgeThenReaches(edges, z, x, r);
    assert z in Above(edges, members, r);
  }

  /** If every member of a finite non-empty set has a predecessor in the set, the graph has a cycle. */
  lemma {:induction false} NoSourceMeansCycle(edges: seq<Edge>, members: set<NodeId>)
    requires members != {}
    requires forall x {:trigger HasPredecessorIn(edges, members, x)} ::
      x in members ==> HasPredecessorIn(edges, members, x)
    ensures exists n :: Reaches(edges, n, n)
    decreases |members|
  {
    var r :| r in members;
    if !Reaches(edges, r, r) {
      var above := Above(edges, members, r);
      AboveKeepsPredecessors(edges, members, r, r);
      forall x | x in above ensures HasPredecessorIn(edges, above, x) {
        AboveKeepsPredecessors(edges, members, r, x);
      }
      ProperSubsetSize(above, members);
      NoSourceMeansCycle(edges, above);
    }
  }

  lemma ProperSubsetSize<T>(a: set<T>, b: set<T>)
    requires a < b
    ensures |a| < |b|
  {
    var rest := b - a;
    assert b == a + rest && a !! rest;
    var x :| x in b && x !in a;
    assert x in rest;
  }

  /** How reachability grows when one edge is added. */
  lemma {:induction false} ReachesAfterAdding(edges: seq<Edge>, e: Edge, path: seq<NodeId>)
    requires IsPath(edges + [e], path)
    ensures
      || ReachesOrSame(edges, path[0], path[|path| - 1])
      || (ReachesOrSame(edges, path[0], e.from) && ReachesOrSame(edges, e.to, path[|path| - 1]))
    decreases |path|
  {
    if |path| > 1 {
      var front := path[..|path| - 1];
      var a, b, c := path[0], path[|path| - 2], path[|path| - 1];
      assert IsPath(edges + [e], front);
      ReachesAfterAdding(edges, e, front);
      var last := Edge(b, c);
      assert last in edges + [e];
      if last in edges {
        if ReachesOrSame(edges, a, b) {
          ReachesThenEdge(edges, a, b, c);
        } else {
          ReachesThenEdge(edges, e.to, b, c);
        }
      } else {
        assert last == e;
      }
    }
  }

  /** Adding an edge keeps a graph acyclic exactly when it closes no path back to its source. */
  lemma AddEdgeAcyclic(edges: seq<Edge>, e: Edge)
    requires Acyclic(edges)
    ensures Acyclic(edges + [e]) <==> !ReachesOrSame(edges, e.to, e.from)
  {
    if ReachesOrSame(edges, e.to, e.from) {
      if e.to != e.from {
        ReachesMonotone(edges, edges + [e], e.to, e.from);
      }
      EdgeThenReaches(edges + [e], e.from, e.to, e.from);
    } else {
      forall n ensures !Reaches(edges + [e], n, n) {
        if Reaches(edges + [e], n, n) {
          var next := ReachesFirstEdge(edges + [e], n, n);
          AddedCycleUsesEdge(edges, e, n, next);
        }
      }
    }
  }

  lemma AddedCycleUsesEdge(edges: seq<Edge>, e: Edge, n: NodeId, next: NodeId)
    requires Acyclic(edges)
    requires Edge(n, next) in edges + [e] && ReachesOrSame(edges + [e], next, n)
    ensures ReachesOrSame(edges, e.to, e.from)
  {
    if next == n {
      assert IsPath(edges + [e], [n]);
      if Edge(n, n) in edges { EdgeReaches(edges, n, n); }
    } else {
      var p :| PathBetween(edges + [e], p, next, n);
      ReachesAfterAdding(edges, e, p);
      if ReachesOrSame(edges, next, n) {
        if Edge(n, next) in edges {
          EdgeThenReaches(edges, n, next, n);
        }
      } else if Edge(n, next) in edges {
        EdgeThenReaches(edges, n, next, e.from);
        if e.to != n { ReachesTransitive(edges, e.to, n, e.from); }
      }
    }
  }

  lemma ReachesMonotone(edges: seq<Edge>, more: seq<Edge>, a: NodeId, b: NodeId)
    requires forall e :: e in edges ==> e in more
    requires Reaches(edges, a, b)
    ensures Reaches(more, a, b)
  {
    var p :| PathBetween(edges, p, a, b);
    assert PathBetween(more, p, a, b);
  }

  // ----- sequences without repetition -----

  lemma {:induction false} DistinctOnce<T>(s: seq<T>, x: T)
    requires Distinct(s) && x in s
    ensures multiset(s)[x] == 1
    decreases |s|
  {
    var k := |s| - 1;
    var front := s[..k];
    assert s == front + [s[k]];
    if s[k] == x {
      assert x !in front;
      assert x !in multiset(front);
    } else {
      DistinctOnce(front, x);
    }
  }

  lemma SameElements<T>(a: seq<T>, b: seq<T>)
    requires Distinct(a) && Distinct(b) && forall x :: x in a <==> x in b
    ensures multiset(a) == multiset(b) && |a| == |b|
  {
    forall x ensures multiset(a)[x] == multiset(b)[x] {
      if x in a {
        DistinctOnce(a, x);
        DistinctOnce(b, x);
      } else {
        assert x !in multiset(a) && x !in multiset(b);
      }
    }
    assert |multiset(a)| == |a| && |multiset(b)| == |b|;
  }

  /** A repetition-free list of members of `b` is at most as long, and as long only if it lists them all. */
  lemma DistinctWithin<T>(a: seq<T>, b: seq<T>)
    requires Distinct(a) && forall x :: x in a ==> x in b
    ensures |a| <= |b|
    ensures |a| == |b| ==> multiset(a) == multiset(b)
  {
    forall x ensures multiset(a)[x] <= multiset(b)[x] {
      if x in a {
        DistinctOnce(a, x);
        assert x in multiset(b);
      } else {
        assert x !in multiset(a);
      }
    }
    assert multiset(a) <= multiset(b);
    var rest := multiset(b) - multiset(a);
    assert multiset(b) == multiset(a) + rest;
    assert |multiset(a)| == |a| && |multiset(b)| == |b|;
    if |a| == |b| { assert rest == multiset{}; }
  }

  // ----- an acyclic graph has a topological order -----

  /** A predecessor-closed beginning of a topological order. */
  ghost predicate Begins(ids: seq<NodeId>, edges: seq<Edge>, front: seq<NodeId>) {
    && Distinct(front)
    && (forall x :: x in front ==> x in ids)
    && (forall e :: e in edges && e.to in front ==> e.from in front)
    && (forall i, j {:trigger Edge(front[i], front[j])} ::
          0 <= i < |front| && 0 <= j < |front| && Edge(front[i], front[j]) in edges ==> i < j)
  }

  lemma SourceOutside(ids: seq<NodeId>, edges: seq<Edge>, front: seq<NodeId>, missing: NodeId) returns (n: NodeId)
    requires Acyclic(edges) && EdgesWithin(ids, edges) && missing in ids && missing !in front
    ensures n in ids && n !in front && forall e :: e in edges && e.to == n ==> e.from in front
  {
    var rest := set x | x in ids && x !in front;
    if forall x :: x in rest ==> HasPredecessorIn(edges, rest, x) {
      assert missing in rest;
      NoSourceMeansCycle(edges, rest);
    }
    n :| n in rest && !HasPredecessorIn(edges, rest, n);
    forall e | e in edges && e.to == n ensures e.from in front {
      assert Edge(e.from, n) == e;
      assert e.from in ids;
    }
  }

  lemma {:induction false} ExtendOrder(ids: seq<NodeId>, edges: seq<Edge>,
                                       front: seq<NodeId>) returns (order: seq<NodeId>)
    requires Distinct(ids) && EdgesWithin(ids, edges) && Acyclic(edges) && Begins(ids, edges, front)
    ensures Topological(ids, edges, order)
    decreases |ids| - |front|
  {
    DistinctWithin(front, ids);
    if missing :| missing in ids && missing !in front {
      var n := SourceOutside(ids, edges, front, missing);
      var longer := front + [n];
      assert Begins(ids, edges, longer) by { BeginsExtends(ids, edges, front, n); }
      DistinctWithin(longer, ids);
      order := ExtendOrder(ids, edges, longer);
    } else {
      order := front;
      SameElements(front, ids);
    }
  }

  lemma BeginsExtends(ids: seq<NodeId>, edges: seq<Edge>, front: seq<NodeId>, n: NodeId)
    requires Begins(ids, edges, front) && n in ids && n !in front
    requires forall e :: e in edges && e.to == n ==> e.from in front
    ensures Begins(ids, edges, front + [n])
  {
    var longer := front + [n];
    forall i, j | 0 <= i < |longer| && 0 <= j < |longer| && Edge(longer[i], longer[j]) in edges ensures i < j {
      var e := Edge(longer[i], longer[j]);
      assert e in edges;
      if j < |front| {
        assert longer[j] == front[j];
        assert e.from in front;
      }
    }
  }

  lemma AcyclicHasOrder(ids: seq<NodeId>, edges: seq<Edge>) returns (order: seq<NodeId>)
    requires Distinct(ids) && EdgesWithin(ids, edges) && Acyclic(edges)
    ensures Topological(ids, edges, order)
  {
    order := ExtendOrder(ids, edges, []);
  }
}
