/** The visual editor's own cycle check: a depth-first search with a shared
    visited set, and the edits it guards. */
module FlowEditor {
  import opened Graph
  import opened Model

  /** One search for `source`; `visited` is shared by all recursive calls. */
  class CycleSearch {
    const source: NodeId
    const edges: seq<Edge>
    const adj: map<NodeId, seq<NodeId>>
    var visited: set<NodeId>

    /** Every node the search can come across. */
    ghost const nodes: set<NodeId>

    ghost predicate Valid()
      reads this
    {
      && (forall e :: e in edges ==> e.from in adj && e.to in nodes)
      && (forall n :: n in adj ==> adj[n] == Children(edges, n))
    }

    constructor (source: NodeId, target: NodeId, edges: seq<Edge>, adj: map<NodeId, seq<NodeId>>)
      requires forall n :: n in adj ==> adj[n] == Children(edges, n)
      requires forall e :: e in edges ==> e.from in adj
      ensures Valid() && visited == {} && target in nodes
      ensures this.source == source && this.edges == edges
    {
      this.source, this.edges, this.adj := source, edges, adj;
      visited := {};
      nodes := {target} + set e | e in edges :: e.to;
    }

    /** Everything between `before` and `visited` is explored: it is not the source, and
        all its successors are visited. */
    ghost predicate Explored(before: set<NodeId>, except: set<NodeId>)
      reads this
    {
      && before <= visited
      && forall x :: x in visited && x !in before && x !in except ==>
           x != source && forall e :: e in edges && e.from == x ==> e.to in visited
    }

    method Dfs(n: NodeId) returns (found: bool)
      requires Valid() && n in nodes
      modifies this`visited
      ensures found ==> ReachesOrSame(edges, n, source)
      ensures !found ==> n in visited && Explored(old(visited), {})
      decreases nodes - visited
    {
      if n == source {
        return true;
      }
      if n in visited {
        return false;
      }
      ghost var before := visited;
      visited := visited + {n};
      var neighbors := if n in adj then adj[n] else [];
      assert forall c :: c in neighbors <==> Edge(n, c) in edges by {
        assert n !in adj ==> forall c :: Edge(n, c) !in edges by {
          forall c | Edge(n, c) in edges ensures n in adj { assert Edge(n, c).from == n; }
        }
      }
      for k := 0 to |neighbors|
        invariant n in visited && Explored(before, {n})
        invariant forall j :: 0 <= j < k ==> neighbors[j] in visited
      {
        var e := Edge(n, neighbors[k]);
        assert e in edges && e.to in nodes;
        var deeper := Dfs(neighbors[k]);
        if deeper {
          EdgeThenReaches(edges, n, neighbors[k], source);
          return true;
        }
      }
      forall e | e in edges && e.from == n ensures e.to in visited {
        assert Edge(n, e.to) == e;
      }
      found := false;
    }
  }

  /** `createsCycle`: would an edge from `source` to `target` close a cycle? */
  method CreatesCycle(source: NodeId, target: NodeId, edges: seq<Edge>) returns (cycle: bool)
    ensures cycle <==> ReachesOrSame(edges, target, source)
  {
    if source == target {
      return true;
    }
    var adj := BuildAdjacency(edges);
    var search := new CycleSearch(source, target, edges, adj);
    cycle := search.Dfs(target);
    if !cycle && ReachesOrSame(edges, target, source) {
      ClosedUnderReaches(edges, search.visited, target, source);
    }
  }

  method BuildAdjacency(edges: seq<Edge>) returns (adj: map<NodeId, seq<NodeId>>)
    ensures forall n :: n in adj ==> adj[n] == Children(edges, n)
    ensures forall e :: e in edges ==> e.from in adj
  {
    adj := map[];
    for i := 0 to |edges|
      invariant forall n :: n in adj ==> adj[n] == Children(edges[..i], n)
      invariant forall n :: n !in adj ==> Children(edges[..i], n) == []
      invariant forall e :: e in edges[..i] ==> e.from in adj
    {
      var e := edges[i];
      assert edges[..i + 1][..i] == edges[..i] && edges[..i + 1][i] == e;
      if e.from !in adj {
        adj := adj[e.from := []];
      }
      adj := adj[e.from := adj[e.from] + [e.to]];
    }
    assert edges[..|edges|] == edges;
  }

  // ----- edits -----

  datatype Canvas = Canvas(nodes: seq<NodeId>, edges: seq<Edge>)

  datatype Edit =
    | Connect(source: NodeId, target: NodeId)
    | AddNode(node: NodeId, parent: Option<NodeId>)

  /** The library's addEdge ignores an edge that is already there. */
  function WithEdge(edges: seq<Edge>, e: Edge): seq<Edge> {
    if e in edges then edges else edges + [e]
  }

  ghost predicate Possible(c: Canvas, edit: Edit) {
    match edit
    case Connect(s, t) => s in c.nodes && t in c.nodes
    case AddNode(n, parent) => n !in c.nodes && (parent.Some? ==> parent.value in c.nodes)
  }

  ghost function After(c: Canvas, edit: Edit): Canvas {
    match edit
    case Connect(s, t) =>
      if ReachesOrSame(c.edges, t, s) then c else c.(edges := WithEdge(c.edges, Edge(s, t)))
    case AddNode(n, parent) =>
      Canvas(c.nodes + [n], if parent.Some? then c.edges + [Edge(parent.value, n)] else c.edges)
  }

  /** `onConnect`: refuse an edge that closes a cycle, add any other. */
  method OnConnect(c: Canvas, source: NodeId, target: NodeId) returns (c': Canvas)
    ensures c' == After(c, Connect(source, target))
    ensures c'.nodes == c.nodes && c.edges <= c'.edges && |c'.edges| <= |c.edges| + 1
    ensures forall e :: e in c'.edges ==> e in c.edges || e == Edge(source, target)
    ensures Edge(source, target) in c'.edges <==>
      Edge(source, target) in c.edges || !ReachesOrSame(c.edges, target, source)
    ensures Edge(source, target) in c.edges ==> c' == c
  {
    var cycle := CreatesCycle(source, target, c.edges);
    if cycle {
      return c;
    }
    c' := c.(edges := WithEdge(c.edges, Edge(source, target)));
  }

  /** `addNode`: the new node hangs below the selected node, or else below the last one, if there is any. */
  method OnAddNode(c: Canvas, node: NodeId, selected: Option<NodeId>) returns (c': Canvas, parent: Option<NodeId>)
    ensures c' == After(c, AddNode(node, parent))
    ensures parent == if selected.Some? then selected else if c.nodes != [] then Some(c.nodes[|c.nodes| - 1]) else None
    ensures |c'.nodes| == |c.nodes| + 1 && c.nodes <= c'.nodes && c'.nodes[|c.nodes|] == node
    ensures parent.None? ==> c'.edges == c.edges
    ensures parent.Some? ==>
      |c'.edges| == |c.edges| + 1 && c.edges <= c'.edges && c'.edges[|c.edges|] == Edge(parent.value, node)
  {
    parent := selected;
    if parent.None? && |c.nodes| > 0 {
      parent := Some(c.nodes[|c.nodes| - 1]);
    }
    var edges := c.edges;
    if parent.Some? {
      edges := edges + [Edge(parent.value, node)];
    }
    c' := Canvas(c.nodes + [node], edges);
  }

  ghost predicate GoodCanvas(c: Canvas) {
    Distinct(c.nodes) && EdgesWithin(c.nodes, c.edges) && Acyclic(c.edges)
  }

  /** A connection is refused exactly when it would make the graph cyclic. */
  lemma RefusedIffCyclic(c: Canvas, source: NodeId, target: NodeId)
    requires Acyclic(c.edges)
    ensures Edge(source, target) !in After(c, Connect(source, target)).edges <==>
      !Acyclic(c.edges + [Edge(source, target)])
  {
    AddEdgeAcyclic(c.edges, Edge(source, target));
    if Edge(source, target) in c.edges && ReachesOrSame(c.edges, target, source) {
      EdgeThenReaches(c.edges, source, target, source);
    }
  }

  lemma PathStartsAtNode(c: Canvas, a: NodeId, b: NodeId)
    requires EdgesWithin(c.nodes, c.edges)
    ensures Reaches(c.edges, a, b) ==> a in c.nodes
  {
    if Reaches(c.edges, a, b) {
      var next := ReachesFirstEdge(c.edges, a, b);
      assert Edge(a, next).from in c.nodes;
    }
  }

  lemma EditKeepsGood(c: Canvas, edit: Edit)
    requires GoodCanvas(c) && Possible(c, edit)
    ensures GoodCanvas(After(c, edit))
  {
    match edit
    case Connect(s, t) => AddEdgeAcyclic(c.edges, Edge(s, t));
    case AddNode(n, parent) =>
      if parent.Some? {
        var e := Edge(parent.value, n);
        AddEdgeAcyclic(c.edges, e);
        PathStartsAtNode(c, n, parent.value);
      }
  }

  ghost predicate Drawn(c: Canvas, edit: Edit, c': Canvas) {
    Possible(c, edit) && c' == After(c, edit)
  }

  /** A session: canvases and the edits between them. */
  ghost predicate Session(canvases: seq<Canvas>, edits: seq<Edit>) {
    && |canvases| == |edits| + 1
    && forall i, j :: 0 <= i < j < |canvases| && j == i + 1 ==> Drawn(canvases[i], edits[i], canvases[j])
  }

  /** Any two nodes on the canvas may be connected next, and any new node added, below a node or alone. */
  lemma AnyEditMayFollow(canvases: seq<Canvas>, edits: seq<Edit>, edit: Edit) returns (longer: seq<Canvas>)
    requires Session(canvases, edits)
    requires edit.Connect? ==> edit.source in canvases[|edits|].nodes && edit.target in canvases[|edits|].nodes
    requires edit.AddNode? ==> edit.node !in canvases[|edits|].nodes
    requires edit.AddNode? && edit.parent.Some? ==> edit.parent.value in canvases[|edits|].nodes
    ensures Session(longer, edits + [edit]) && longer[..|canvases|] == canvases
    ensures longer[|canvases|] == After(canvases[|edits|], edit)
  {
    longer := canvases + [After(canvases[|edits|], edit)];
    var more := edits + [edit];
    assert Drawn(canvases[|edits|], edit, After(canvases[|edits|], edit));
    forall i, j | 0 <= i < j < |longer| && j == i + 1 ensures Drawn(longer[i], more[i], longer[j]) {
      if j < |canvases| { assert Drawn(canvases[i], edits[i], canvases[j]); }
    }
  }

  lemma {:induction false} SessionKeepsGood(canvases: seq<Canvas>, edits: seq<Edit>, i: nat)
    requires Session(canvases, edits) && GoodCanvas(canvases[0]) && i < |canvases|
    ensures GoodCanvas(canvases[i])
    decreases i
  {
    if i > 0 {
      SessionKeepsGood(canvases, edits, i - 1);
      EditKeepsGood(canvases[i - 1], edits[i - 1]);
    }
  }

  /** Whatever is drawn from an acyclic canvas passes the validator's duplicate, edge and cycle checks. */
  lemma EditorAgreesWithValidator(canvases: seq<Canvas>, edits: seq<Edit>, w: Workflow)
    requires Session(canvases, edits) && GoodCanvas(canvases[0])
    requires Ids(w.nodes) == canvases[|canvases| - 1].nodes && w.edges == canvases[|canvases| - 1].edges
    ensures ValidWorkflow(w)
  {
    SessionKeepsGood(canvases, edits, |canvases| - 1);
  }
}
