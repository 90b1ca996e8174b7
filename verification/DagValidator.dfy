/** Workflow validation: node and edge checks, then Kahn's algorithm. */
module DagValidator {
  import opened Graph
  import opened Model

  datatype ValidationError =
    | DuplicateNodeId(node: NodeId)
    | UnknownExecutorType(node: NodeId)
    | InvalidExecutorConfig(node: NodeId)
    | MissingEdgeReference(edge: Edge)
    | CycleDetected

  datatype Validation = Validation(roots: seq<NodeId>, order: seq<NodeId>)

  // ----- node and edge checks -----

  /** The first `k` nodes are distinct, of known types, and accepted by their executors. */
  ghost predicate NodesFine(nodes: seq<NodeDef>, kinds: set<string>, accepts: NodeDef -> bool, k: nat)
    requires k <= |nodes|
  {
    && (forall i, j :: 0 <= i < j < k ==> nodes[i].id != nodes[j].id)
    && (forall i :: 0 <= i < k ==> nodes[i].kind in kinds && accepts(nodes[i]))
  }

  /** Node `k` is the first that fails, and `err` says in what. */
  ghost predicate FirstBadNode(nodes: seq<NodeDef>, kinds: set<string>, accepts: NodeDef -> bool, k: nat,
                               err: ValidationError)
    requires k < |nodes|
  {
    && NodesFine(nodes, kinds, accepts, k)
    && var repeated := exists i :: 0 <= i < k && nodes[i].id == nodes[k].id;
       match err
       case DuplicateNodeId(x) => x == nodes[k].id && repeated
       case UnknownExecutorType(x) => x == nodes[k].id && !repeated && nodes[k].kind !in kinds
       case InvalidExecutorConfig(x) => x == nodes[k].id && !repeated && nodes[k].kind in kinds && !accepts(nodes[k])
       case _ => false
  }

  lemma FineNodes(nodes: seq<NodeDef>, kinds: set<string>, accepts: NodeDef -> bool)
    ensures NodesFine(nodes, kinds, accepts, |nodes|) <==>
      Distinct(Ids(nodes)) && forall d :: d in nodes ==> d.kind in kinds && accepts(d)
  {
    var ids := Ids(nodes);
    if NodesFine(nodes, kinds, accepts, |nodes|) {
      forall i, j | 0 <= i < j < |ids| ensures ids[i] != ids[j] { assert nodes[i].id != nodes[j].id; }
    }
    if Distinct(ids) && forall d :: d in nodes ==> d.kind in kinds && accepts(d) {
      forall i, j | 0 <= i < j < |nodes| ensures nodes[i].id != nodes[j].id { assert ids[i] != ids[j]; }
      forall i | 0 <= i < |nodes| ensures nodes[i].kind in kinds && accepts(nodes[i]) { assert nodes[i] in nodes; }
    }
  }

  predicate EdgeKnown(ids: seq<NodeId>, e: Edge) {
    e.from in ids && e.to in ids
  }

  /** `r` is the first edge with an endpoint that is no node. */
  ghost predicate FirstEdgeError(ids: seq<NodeId>, edges: seq<Edge>, r: Option<ValidationError>) {
    match r
    case None => EdgesWithin(ids, edges)
    case Some(err) =>
      exists i :: 0 <= i < |edges| && !EdgeKnown(ids, edges[i]) && err == MissingEdgeReference(edges[i]) &&
                        EdgesWithin(ids, edges[..i])
  }

  /** The loop over the nodes: duplicate id, then executor type, then configuration; the first failure is reported. */
  method CheckNodes(nodes: seq<NodeDef>, kinds: set<string>,
                    accepts: NodeDef -> bool) returns (r: Option<ValidationError>)
    ensures r.None? <==> NodesFine(nodes, kinds, accepts, |nodes|)
    ensures r.Some? ==> exists k :: 0 <= k < |nodes| && FirstBadNode(nodes, kinds, accepts, k, r.value)
  {
    var seen: set<NodeId> := {};
    for k := 0 to |nodes|
      invariant forall x :: x in seen <==> exists i :: 0 <= i < k && nodes[i].id == x
      invariant NodesFine(nodes, kinds, accepts, k)
    {
      if nodes[k].id in seen {
        r := Some(DuplicateNodeId(nodes[k].id));
        assert FirstBadNode(nodes, kinds, accepts, k, r.value);
        return;
      }
      seen := seen + {nodes[k].id};
      if nodes[k].kind !in kinds {
        r := Some(UnknownExecutorType(nodes[k].id));
        assert FirstBadNode(nodes, kinds, accepts, k, r.value);
        return;
      }
      if !accepts(nodes[k]) {
        r := Some(InvalidExecutorConfig(nodes[k].id));
        assert FirstBadNode(nodes, kinds, accepts, k, r.value);
        return;
      }
    }
    r := None;
  }

  // ----- in-degrees -----

  /** How many edges lead into `v` from nodes outside `done`, duplicates counted. */
  function Waiting(edges: seq<Edge>, done: set<NodeId>, v: NodeId): nat {
    if edges == [] then 0
    else
      var last := edges[|edges| - 1];
      Waiting(edges[..|edges| - 1], done, v) + if last.to == v && last.from !in done then 1 else 0
  }

  lemma {:induction false} WaitingZero(edges: seq<Edge>, done: set<NodeId>, v: NodeId)
    ensures Waiting(edges, done, v) == 0 <==> forall e :: e in edges && e.to == v ==> e.from in done
    decreases |edges|
  {
    if edges != [] {
      var front, last := edges[..|edges| - 1], edges[|edges| - 1];
      WaitingZero(front, done, v);
      assert forall e :: e in edges <==> e in front || e == last;
    }
  }

  /** Finishing `u` takes off one for each of its edges into `v`. */
  lemma {:induction false} WaitingSplit(edges: seq<Edge>, done: set<NodeId>, u: NodeId, v: NodeId)
    requires u !in done
    ensures Waiting(edges, done, v) == Waiting(edges, done + {u}, v) + multiset(Children(edges, u))[v]
    decreases |edges|
  {
    if edges != [] {
      var front, last := edges[..|edges| - 1], edges[|edges| - 1];
      WaitingSplit(front, done, u, v);
      if last.from == u {
        assert multiset(Children(edges, u)) == multiset(Children(front, u)) + multiset{last.to};
      }
    }
  }

  // ----- Kahn's algorithm -----

  ghost predicate Degrees(ids: seq<NodeId>, edges: seq<Edge>, done: set<NodeId>, degree: map<NodeId, nat>) {
    && (forall v :: v in degree <==> v in ids)
    && forall v :: v in degree ==> degree[v] == Waiting(edges, done, v)
  }

  ghost predicate Adjacency(ids: seq<NodeId>, edges: seq<Edge>, adj: map<NodeId, seq<NodeId>>) {
    && (forall v :: v in adj <==> v in ids)
    && forall v :: v in adj ==> adj[v] == Children(edges, v)
  }

  /** The nodes without incoming edges, each once. */
  ghost predicate AreRoots(ids: seq<NodeId>, edges: seq<Edge>, roots: seq<NodeId>) {
    && Distinct(roots)
    && (forall v :: v in roots <==> v in ids && forall e :: e in edges ==> e.to != v)
  }

  lemma OneMoreEdge(ids: seq<NodeId>, edges: seq<Edge>, e: Edge, adj: map<NodeId, seq<NodeId>>,
                    degree: map<NodeId, nat>)
    requires Adjacency(ids, edges, adj) && Degrees(ids, edges, {}, degree) && EdgeKnown(ids, e)
    ensures Adjacency(ids, edges + [e], adj[e.from := adj[e.from] + [e.to]])
    ensures Degrees(ids, edges + [e], {}, degree[e.to := degree[e.to] + 1])
  {
  }

  /** Adjacency lists and in-degrees, or the first edge that names a missing node. */
  method BuildGraph(ids: seq<NodeId>, edges: seq<Edge>)
    returns (adj: map<NodeId, seq<NodeId>>, degree: map<NodeId, nat>, err: Option<ValidationError>)
    ensures FirstEdgeError(ids, edges, err)
    ensures err.None? ==> Adjacency(ids, edges, adj) && Degrees(ids, edges, {}, degree)
  {
    adj := map v | v in ids :: [];
    degree := map v | v in ids :: 0;
    assert edges[..0] == [];
    for i := 0 to |edges|
      invariant EdgesWithin(ids, edges[..i])
      invariant Adjacency(ids, edges[..i], adj) && Degrees(ids, edges[..i], {}, degree)
    {
      var e := edges[i];
      if e.from !in ids || e.to !in ids {
        err := Some(MissingEdgeReference(e));
        return;
      }
      assert edges[..i + 1] == edges[..i] + [e];
      OneMoreEdge(ids, edges[..i], e, adj, degree);
      adj := adj[e.from := adj[e.from] + [e.to]];
      degree := degree[e.to := degree[e.to] + 1];
    }
    assert edges[..|edges|] == edges;
    err := None;
  }

  method FindRoots(ids: seq<NodeId>, edges: seq<Edge>, degree: map<NodeId, nat>) returns (roots: seq<NodeId>)
    requires Distinct(ids) && Degrees(ids, edges, {}, degree)
    ensures AreRoots(ids, edges, roots)
    ensures forall v :: v in roots <==> v in ids && degree[v] == 0
  {
    roots := [];
    for i := 0 to |ids|
      invariant Distinct(roots)
      invariant forall v :: v in roots <==> v in ids[..i] && degree[v] == 0
    {
      assert ids[..i + 1] == ids[..i] + [ids[i]];
      if degree[ids[i]] == 0 {
        assert ids[i] !in ids[..i];
        roots := roots + [ids[i]];
      }
    }
    assert ids[..|ids|] == ids;
    forall v ensures v in roots <==> v in ids && forall e :: e in edges ==> e.to != v {
      WaitingZero(edges, {}, v);
    }
  }

  function Elements(s: seq<NodeId>): set<NodeId> {
    set x | x in s
  }

  /** Nodes are queued exactly when they wait for nothing, and queued after everything they wait for. */
  ghost predicate Queued(ids: seq<NodeId>, edges: seq<Edge>, seen: seq<NodeId>, degree: map<NodeId, nat>) {
    && Distinct(seen)
    && (forall v :: v in degree <==> v in ids)
    && (forall v :: v in seen <==> v in degree && degree[v] == 0)
    && (forall i, j {:trigger Edge(seen[i], seen[j])} ::
          0 <= i < |seen| && 0 <= j < |seen| && Edge(seen[i], seen[j]) in edges ==> i < j)
  }

  /** In the middle of finishing `u`: `pending` are the edges of `u` not yet taken off. */
  ghost predicate PartDegrees(edges: seq<Edge>, done: set<NodeId>, pending: seq<NodeId>, degree: map<NodeId, nat>) {
    forall v :: v in degree ==> degree[v] == Waiting(edges, done, v) + multiset(pending)[v]
  }

  lemma QueueOneMore(ids: seq<NodeId>, edges: seq<Edge>, done: set<NodeId>, seen: seq<NodeId>, pending: seq<NodeId>,
                     degree: map<NodeId, nat>, v: NodeId)
    requires Queued(ids, edges, seen, degree) && PartDegrees(edges, done, [v] + pending, degree)
    requires v in degree && degree[v] > 0 && (forall x :: x in done ==> x in seen)
    ensures degree[v] == 1 ==> Queued(ids, edges, seen + [v], degree[v := degree[v] - 1])
    ensures degree[v] > 1 ==> Queued(ids, edges, seen, degree[v := degree[v] - 1])
  {
    if degree[v] == 1 { QueueLast(ids, edges, done, seen, pending, degree, v); }
  }

  lemma QueueLast(ids: seq<NodeId>, edges: seq<Edge>, done: set<NodeId>, seen: seq<NodeId>, pending: seq<NodeId>,
                  degree: map<NodeId, nat>, v: NodeId)
    requires Queued(ids, edges, seen, degree) && PartDegrees(edges, done, [v] + pending, degree)
    requires v in degree && degree[v] == 1 && (forall x :: x in done ==> x in seen)
    ensures Queued(ids, edges, seen + [v], degree[v := 0])
  {
    var longer := seen + [v];
    assert v in multiset([v] + pending);
    assert Waiting(edges, done, v) == 0;
    WaitingZero(edges, done, v);
    forall i, j | 0 <= i < |longer| && 0 <= j < |longer| && Edge(longer[i], longer[j]) in edges ensures i < j {
      var e := Edge(longer[i], longer[j]);
      if j < |seen| {
        assert degree[seen[j]] == 0;
        WaitingZero(edges, done, seen[j]);
        assert e.from in done;
        assert i < |seen|;
        assert Edge(seen[i], seen[j]) in edges;
      } else {
        assert e.from in done;
      }
    }
  }

  lemma TakeOff(edges: seq<Edge>, done: set<NodeId>, v: NodeId, pending: seq<NodeId>, degree: map<NodeId, nat>)
    requires PartDegrees(edges, done, [v] + pending, degree) && v in degree
    ensures degree[v] > 0 && PartDegrees(edges, done, pending, degree[v := degree[v] - 1])
  {
  }

  /** The state of Kahn's loop: `order` is finished, `queue` waits for nothing. */
  ghost predicate KahnInv(ids: seq<NodeId>, edges: seq<Edge>, roots: seq<NodeId>, order: seq<NodeId>,
                          queue: seq<NodeId>, degree: map<NodeId, nat>) {
    && Queued(ids, edges, order + queue, degree)
    && Degrees(ids, edges, Elements(order), degree)
    && roots <= order + queue
  }

  /** In the inner loop, `k` edges of the node just ordered have been taken off. */
  ghost predicate FinishInv(ids: seq<NodeId>, edges: seq<Edge>, roots: seq<NodeId>, order: seq<NodeId>,
                            queue: seq<NodeId>,
                            nbrs: seq<NodeId>, k: nat, degree: map<NodeId, nat>)
    requires k <= |nbrs|
  {
    && Queued(ids, edges, order + queue, degree)
    && PartDegrees(edges, Elements(order), nbrs[k..], degree)
    && (forall v :: v in nbrs ==> v in degree)
    && roots <= order + queue
  }

  lemma FinishStep(ids: seq<NodeId>, edges: seq<Edge>, roots: seq<NodeId>, order: seq<NodeId>, queue: seq<NodeId>,
                   nbrs: seq<NodeId>, k: nat, degree: map<NodeId, nat>)
    requires k < |nbrs| && FinishInv(ids, edges, roots, order, queue, nbrs, k, degree)
    ensures nbrs[k] in degree && degree[nbrs[k]] > 0
    ensures
      var v := nbrs[k];
      FinishInv(ids, edges, roots, order, if degree[v] == 1 then queue + [v] else queue,
                nbrs, k + 1, degree[v := degree[v] - 1])
  {
    var v, pending := nbrs[k], nbrs[k + 1..];
    assert nbrs[k..] == [v] + pending;
    TakeOff(edges, Elements(order), v, pending, degree);
    QueueOneMore(ids, edges, Elements(order), order + queue, pending, degree, v);
    assert order + (queue + [v]) == order + queue + [v];
  }

  lemma FinishStarts(ids: seq<NodeId>, edges: seq<Edge>, roots: seq<NodeId>, order: seq<NodeId>, queue: seq<NodeId>,
                     degree: map<NodeId, nat>)
    requires EdgesWithin(ids, edges) && KahnInv(ids, edges, roots, order, queue, degree) && queue != []
    ensures FinishInv(ids, edges, roots, order + [queue[0]], queue[1..], Children(edges, queue[0]), 0, degree)
  {
    var curr := queue[0];
    HeadIsNew(order, queue);
    assert order + queue == order + [curr] + queue[1..];
    assert Children(edges, curr)[0..] == Children(edges, curr);
    StartFinishing(ids, edges, order, curr, degree);
    forall c | c in Children(edges, curr) ensures c in ids {
      assert Edge(curr, c) in edges && Edge(curr, c).to == c;
    }
  }

  lemma FinishEnds(ids: seq<NodeId>, edges: seq<Edge>, roots: seq<NodeId>, order: seq<NodeId>, queue: seq<NodeId>,
                   nbrs: seq<NodeId>, degree: map<NodeId, nat>)
    requires FinishInv(ids, edges, roots, order, queue, nbrs, |nbrs|, degree)
    ensures KahnInv(ids, edges, roots, order, queue, degree)
  {
  }

  /** The inner loop: take the edges of the head off, queueing the neighbours that now wait for nothing. */
  method FinishNode(ids: seq<NodeId>, edges: seq<Edge>, nbrs: seq<NodeId>, ghost roots: seq<NodeId>,
                    ghost order: seq<NodeId>,
                    queue0: seq<NodeId>, degree0: map<NodeId, nat>)
    returns (queue: seq<NodeId>, degree: map<NodeId, nat>)
    requires EdgesWithin(ids, edges) && KahnInv(ids, edges, roots, order, queue0, degree0) && queue0 != []
    requires nbrs == Children(edges, queue0[0])
    ensures KahnInv(ids, edges, roots, order + [queue0[0]], queue, degree)
  {
    queue, degree := queue0[1..], degree0;
    ghost var ordered := order + [queue0[0]];
    FinishStarts(ids, edges, roots, order, queue0, degree0);
    for k := 0 to |nbrs|
      invariant FinishInv(ids, edges, roots, ordered, queue, nbrs, k, degree)
    {
      FinishStep(ids, edges, roots, ordered, queue, nbrs, k, degree);
      degree := degree[nbrs[k] := degree[nbrs[k]] - 1];
      if degree[nbrs[k]] == 0 {
        queue := queue + [nbrs[k]];
      }
    }
    FinishEnds(ids, edges, roots, ordered, queue, nbrs, degree);
  }

  lemma HeadIsNew(order: seq<NodeId>, queue: seq<NodeId>)
    requires Distinct(order + queue) && queue != []
    ensures queue[0] !in order
  {
    var seen := order + queue;
    assert seen[|order|] == queue[0];
    forall i | 0 <= i < |order| ensures order[i] != queue[0] { assert seen[i] == order[i]; }
  }

  lemma StartFinishing(ids: seq<NodeId>, edges: seq<Edge>, order: seq<NodeId>, u: NodeId, degree: map<NodeId, nat>)
    requires Degrees(ids, edges, Elements(order), degree) && u !in order
    ensures PartDegrees(edges, Elements(order + [u]), Children(edges, u), degree)
  {
    assert Elements(order + [u]) == Elements(order) + {u};
    forall v | v in degree
      ensures degree[v] == Waiting(edges, Elements(order + [u]), v) + multiset(Children(edges, u))[v]
    {
      WaitingSplit(edges, Elements(order), u, v);
    }
  }

  /** The queue drained before all nodes were ordered: what is left waits for itself. */
  lemma StuckMeansCycle(ids: seq<NodeId>, edges: seq<Edge>, order: seq<NodeId>, degree: map<NodeId, nat>,
                        missing: NodeId)
    requires EdgesWithin(ids, edges) && Degrees(ids, edges, Elements(order), degree)
    requires forall v :: v in order <==> v in degree && degree[v] == 0
    requires missing in ids && missing !in order
    ensures !Acyclic(edges)
  {
    var rest := set x | x in ids && x !in order;
    forall x | x in rest ensures HasPredecessorIn(edges, rest, x) {
      assert degree[x] != 0;
      WaitingZero(edges, Elements(order), x);
      var e :| e in edges && e.to == x && e.from !in Elements(order);
      assert Edge(e.from, x) == e && e.from in rest;
    }
    assert missing in rest;
    NoSourceMeansCycle(edges, rest);
  }

  /** Either all nodes were ordered, or there is a cycle. */
  lemma Outcome(ids: seq<NodeId>, edges: seq<Edge>, order: seq<NodeId>, degree: map<NodeId, nat>)
    requires Distinct(ids) && EdgesWithin(ids, edges) && Degrees(ids, edges, Elements(order), degree)
    requires Queued(ids, edges, order, degree)
    ensures |order| == |ids| ==> Topological(ids, edges, order)
    ensures |order| == |ids| <==> Acyclic(edges)
  {
    DistinctWithin(order, ids);
    if |order| == |ids| {
      TopologicalImpliesAcyclic(ids, edges, order);
    } else if missing :| missing in ids && missing !in order {
      StuckMeansCycle(ids, edges, order, degree, missing);
    } else {
      SameElements(order, ids);
    }
  }

  lemma RootsQueued(ids: seq<NodeId>, edges: seq<Edge>, roots: seq<NodeId>, degree: map<NodeId, nat>)
    requires Degrees(ids, edges, {}, degree) && AreRoots(ids, edges, roots)
    requires forall v :: v in roots <==> v in ids && degree[v] == 0
    ensures KahnInv(ids, edges, roots, [], roots, degree)
  {
    assert forall j :: 0 <= j < |roots| ==> roots[j] in roots;
    assert forall i, j :: 0 <= i < |roots| && 0 <= j < |roots| ==> Edge(roots[i], roots[j]) !in edges;
    assert [] + roots == roots && Elements([]) == {};
  }

  lemma QueueFits(ids: seq<NodeId>, edges: seq<Edge>, roots: seq<NodeId>, order: seq<NodeId>, queue: seq<NodeId>,
                  degree: map<NodeId, nat>)
    requires KahnInv(ids, edges, roots, order, queue, degree) && queue != []
    ensures |order| < |ids| && queue[0] in ids
  {
    var seen := order + queue;
    assert seen[|order|] == queue[0];
    assert forall x :: x in seen ==> x in ids;
    DistinctWithin(seen, ids);
  }

  lemma Drained(ids: seq<NodeId>, edges: seq<Edge>, roots: seq<NodeId>, order: seq<NodeId>, degree: map<NodeId, nat>)
    requires Distinct(ids) && EdgesWithin(ids, edges) && KahnInv(ids, edges, roots, order, [], degree)
    ensures |order| == |ids| <==> Acyclic(edges)
    ensures |order| == |ids| ==> Topological(ids, edges, order)
    ensures roots <= order
  {
    assert order + [] == order;
    Outcome(ids, edges, order, degree);
  }

  /** Kahn's loop: complete (every node ordered) exactly for acyclic graphs. */
  method Kahn(ids: seq<NodeId>, edges: seq<Edge>, adj: map<NodeId, seq<NodeId>>, roots: seq<NodeId>,
              degree0: map<NodeId, nat>)
    returns (order: seq<NodeId>)
    requires Distinct(ids) && EdgesWithin(ids, edges)
    requires Adjacency(ids, edges, adj) && KahnInv(ids, edges, roots, [], roots, degree0)
    ensures |order| == |ids| <==> Acyclic(edges)
    ensures |order| == |ids| ==> Topological(ids, edges, order)
    ensures roots <= order
  {
    var queue, degree := roots, degree0;
    order := [];
    while queue != []
      invariant KahnInv(ids, edges, roots, order, queue, degree)
      decreases |ids| - |order|
    {
      QueueFits(ids, edges, roots, order, queue, degree);
      var curr := queue[0];
      queue, degree := FinishNode(ids, edges, adj[curr], roots, order, queue, degree);
      order := order + [curr];
    }
    Drained(ids, edges, roots, order, degree);
  }

  // ----- the whole validation -----

  /** The checks run in order: nodes, edges, cycles; `err` is what the first failing one reports. */
  ghost predicate FirstFailure(w: Workflow, kinds: set<string>, accepts: NodeDef -> bool, err: ValidationError) {
    match err
    case CycleDetected =>
      && NodesFine(w.nodes, kinds, accepts, |w.nodes|)
      && EdgesWithin(Ids(w.nodes), w.edges) && !Acyclic(w.edges)
    case MissingEdgeReference(_) =>
      && NodesFine(w.nodes, kinds, accepts, |w.nodes|)
      && FirstEdgeError(Ids(w.nodes), w.edges, Some(err))
    case _ => exists k :: 0 <= k < |w.nodes| && FirstBadNode(w.nodes, kinds, accepts, k, err)
  }

  /** Validation succeeds exactly for well-formed acyclic workflows, and then returns
      the roots and a topological order that begins with them; otherwise it reports
      the first failing check. */
  method ValidateWorkflow(w: Workflow, kinds: set<string>, accepts: NodeDef -> bool)
    returns (r: Result<Validation, ValidationError>)
    ensures r.Ok? <==> ValidWorkflow(w) && forall d :: d in w.nodes ==> d.kind in kinds && accepts(d)
    ensures r.Ok? ==>
      && Topological(Ids(w.nodes), w.edges, r.value.order)
      && r.value.roots <= r.value.order
      && Distinct(r.value.roots) && (forall n :: n in r.value.roots <==> IsRoot(w, n))
    ensures r.Err? ==> FirstFailure(w, kinds, accepts, r.error)
  {
    FineNodes(w.nodes, kinds, accepts);
    var nodeError := CheckNodes(w.nodes, kinds, accepts);
    if nodeError.Some? {
      return Err(nodeError.value);
    }
    var ids := Ids(w.nodes);
    var adj, degree, edgeError := BuildGraph(ids, w.edges);
    if edgeError.Some? {
      EdgeErrorMeansInvalid(ids, w.edges, edgeError);
      return Err(edgeError.value);
    }
    var roots := FindRoots(ids, w.edges, degree);
    if roots == [] && w.nodes != [] {
      NoRootsMeansCycle(ids, w.edges, roots);
      return Err(CycleDetected);
    }
    RootsQueued(ids, w.edges, roots, degree);
    var order := Kahn(ids, w.edges, adj, roots, degree);
    if |order| != |w.nodes| {
      return Err(CycleDetected);
    }
    r := Ok(Validation(roots, order));
  }

  lemma EdgeErrorMeansInvalid(ids: seq<NodeId>, edges: seq<Edge>, err: Option<ValidationError>)
    requires FirstEdgeError(ids, edges, err) && err.Some?
    ensures !EdgesWithin(ids, edges) && err.value.MissingEdgeReference?
  {
  }

  lemma NoRootsMeansCycle(ids: seq<NodeId>, edges: seq<Edge>, roots: seq<NodeId>)
    requires EdgesWithin(ids, edges) && AreRoots(ids, edges, roots) && roots == [] && ids != []
    ensures !Acyclic(edges)
  {
    var all := Elements(ids);
    assert ids[0] in all;
    forall x | x in all ensures HasPredecessorIn(edges, all, x) {
      assert x !in roots;
      var e :| e in edges && e.to == x;
      assert Edge(e.from, x) == e && e.from in all;
    }
    NoSourceMeansCycle(edges, all);
  }
}
