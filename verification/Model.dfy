/** The workflow definition and the rows one execution keeps in the database. */
module Model {
  import opened Graph

  datatype Option<+T> = None | Some(value: T)

  datatype Result<+T, +E> = Ok(value: T) | Err(error: E)

  // ----- workflow definition -----

  /** A JSON object, as far as the engine looks into it. */
  type Payload = map<string, string>

  function Lookup(config: Payload, key: string): string {
    if key in config then config[key] else ""
  }

  /** `RetryPolicy.max_attempts`: between 1 and 10, 3 unless configured. */
  type MaxAttempts = n: nat | 1 <= n <= 10 witness 3

  datatype NodeDef = NodeDef(id: NodeId, kind: string, config: Payload, retry: Option<MaxAttempts>)

  datatype Workflow = Workflow(nodes: seq<NodeDef>, edges: seq<Edge>, defaultRetry: Option<MaxAttempts>)

  function Ids(nodes: seq<NodeDef>): (r: seq<NodeId>)
    ensures |r| == |nodes|
    ensures forall i :: 0 <= i < |nodes| ==> r[i] == nodes[i].id
  {
    seq(|nodes|, i requires 0 <= i < |nodes| => nodes[i].id)
  }

  function ResolveRetry(node: NodeDef, w: Workflow): MaxAttempts {
    match node.retry
    case Some(n) => n
    case None => match w.defaultRetry
      case Some(n) => n
      case None => 3
  }

  /** Where the attempt limit of a node comes from: its own policy, else the workflow's, else the default. */
  predicate LimitOf(w: Workflow, d: NodeDef, limit: nat) {
    && (d.retry.Some? ==> limit == d.retry.value)
    && (d.retry.None? && w.defaultRetry.Some? ==> limit == w.defaultRetry.value)
    && (d.retry.None? && w.defaultRetry.None? ==> limit == 3)
  }

  /** What the validator accepts (executor types and configurations aside). */
  ghost predicate ValidWorkflow(w: Workflow) {
    && Distinct(Ids(w.nodes))
    && EdgesWithin(Ids(w.nodes), w.edges)
    && Acyclic(w.edges)
  }

  predicate IsNode(w: Workflow, n: NodeId) {
    n in Ids(w.nodes)
  }

  /** The definition a node id resolves to. */
  function Def(nodes: seq<NodeDef>, n: NodeId): (d: NodeDef)
    requires n in Ids(nodes)
    ensures d in nodes && d.id == n
  {
    if nodes[|nodes| - 1].id == n then nodes[|nodes| - 1] else Def(nodes[..|nodes| - 1], n)
  }

  /** With distinct ids every node resolves to its own definition. */
  lemma {:induction false} DefIsOwn(nodes: seq<NodeDef>, d: NodeDef)
    requires Distinct(Ids(nodes)) && d in nodes
    ensures d.id in Ids(nodes) && Def(nodes, d.id) == d
    decreases |nodes|
  {
    var ids, last := Ids(nodes), nodes[|nodes| - 1];
    var k :| 0 <= k < |nodes| && nodes[k] == d;
    assert ids[k] == d.id;
    if last.id == d.id {
      assert ids[|nodes| - 1] == d.id;
    } else {
      var front := nodes[..|nodes| - 1];
      assert front[k] == d && Ids(front) == ids[..|nodes| - 1];
      DefIsOwn(front, d);
    }
  }

  lemma NodeHasDef(nodes: seq<NodeDef>, n: NodeId)
    ensures n in Ids(nodes) <==> exists d :: d in nodes && d.id == n
  {
    if n in Ids(nodes) {
      var k :| 0 <= k < |nodes| && Ids(nodes)[k] == n;
      assert nodes[k] in nodes && nodes[k].id == n;
    }
    if d :| d in nodes && d.id == n {
      var k :| 0 <= k < |nodes| && nodes[k] == d;
      assert Ids(nodes)[k] == n;
    }
  }

  ghost predicate IsRoot(w: Workflow, n: NodeId) {
    IsNode(w, n) && forall e :: e in w.edges ==> e.to != n
  }

  // ----- statuses and rows -----

  datatype ExecutionStatus = CREATED | EXEC_RUNNING | EXEC_SUCCEEDED | EXEC_FAILED

  datatype NodeStatus =
    | PENDING | QUEUED | RUNNING | SUCCEEDED | FAILED | RETRYING | SKIPPED | DEAD_LETTERED

  predicate Terminal(s: NodeStatus) {
    s in {SUCCEEDED, FAILED, SKIPPED, DEAD_LETTERED}
  }

  datatype NodeRow = NodeRow(status: NodeStatus, attempt: nat, maxAttempts: MaxAttempts, output: Option<Payload>)

  datatype DeadLetter = DeadLetter(node: NodeId, attempts: nat, resolved: bool)

  /** One entry per committed engine event, in commit order. */
  datatype Event =
    | NodeStarted(node: NodeId)
    | NodeSucceeded(node: NodeId)
    | NodeFailed(node: NodeId)
    | NodeDeadLettered(node: NodeId)
    | NodeReverted(node: NodeId)
    | NodeRetried(node: NodeId)

  /** The committed state of one execution. */
  datatype Db = Db(
    status: ExecutionStatus,
    rows: map<NodeId, NodeRow>,
    ledger: seq<DeadLetter>,
    history: seq<Event>)

  /** A job names a node and the attempt it was queued for. */
  datatype Job = Job(node: NodeId, attempt: nat)

  /** `ExecutorResult`: success with an output, or failure. */
  datatype Outcome = Success(output: Payload) | Failure

  predicate HasStatus(rows: map<NodeId, NodeRow>, n: NodeId, s: NodeStatus) {
    n in rows && rows[n].status == s
  }

  predicate Active(rows: map<NodeId, NodeRow>, n: NodeId) {
    n in rows && rows[n].status in {QUEUED, RUNNING}
  }
}
