/** What each database transaction of the engine commits, stated declaratively:
    the skip cascade as a closure over paths, the AND-join as a condition on all
    parents.  `Engine` proves that the loops of the source compute these. */
module Transactions {
  import opened Graph
  import opened Model

  /** The branch targets a condition node did not choose. */
  function UnchosenBranches(def: NodeDef, output: Payload): set<NodeId> {
    if def.kind == "condition" then
      var chosen := Lookup(output, "next_node");
      {Lookup(def.config, "true_path"), Lookup(def.config, "false_path")} - {"", chosen}
    else {}
  }

  /** Where the skip cascade starts when `n` succeeds: nowhere if `n` has no children. */
  ghost function SkipSeeds(w: Workflow, n: NodeId, output: Payload): set<NodeId>
    requires IsNode(w, n)
  {
    if exists c :: Edge(n, c) in w.edges then UnchosenBranches(Def(w.nodes, n), output) else {}
  }

  ghost predicate PendingPath(edges: seq<Edge>, rows: map<NodeId, NodeRow>, path: seq<NodeId>) {
    IsPath(edges, path) && forall i :: 0 <= i < |path| ==> HasStatus(rows, path[i], PENDING)
  }

  ghost predicate SkipReaches(edges: seq<Edge>, rows: map<NodeId, NodeRow>, seeds: set<NodeId>, n: NodeId) {
    exists path :: PendingPath(edges, rows, path) && path[0] in seeds && path[|path| - 1] == n
  }

  /** Everything reachable from the seeds through nodes that are PENDING. */
  ghost function SkipClosure(edges: seq<Edge>, rows: map<NodeId, NodeRow>, seeds: set<NodeId>): set<NodeId> {
    set n | n in rows && SkipReaches(edges, rows, seeds, n)
  }

  ghost predicate AllParentsSucceeded(edges: seq<Edge>, rows: map<NodeId, NodeRow>, n: NodeId) {
    forall p :: Edge(p, n) in edges ==> HasStatus(rows, p, SUCCEEDED)
  }

  /** The children of `n` that the AND-join releases. */
  ghost predicate Released(edges: seq<Edge>, rows: map<NodeId, NodeRow>, skipped: set<NodeId>, n: NodeId, c: NodeId) {
    && Edge(n, c) in edges
    && HasStatus(rows, c, PENDING)
    && c !in skipped
    && AllParentsSucceeded(edges, rows, c)
  }

  function Enqueued(row: NodeRow): NodeRow {
    row.(status := QUEUED, attempt := row.attempt + 1)
  }

  ghost function SucceededRows(w: Workflow, rows: map<NodeId, NodeRow>, n: NodeId,
                               output: Payload): map<NodeId, NodeRow>
    requires n in rows
  {
    rows[n := rows[n].(status := SUCCEEDED, output := Some(output))]
  }

  ghost function SkippedBy(w: Workflow, rows: map<NodeId, NodeRow>, n: NodeId, output: Payload): set<NodeId>
    requires n in rows && IsNode(w, n)
  {
    SkipClosure(w.edges, SucceededRows(w, rows, n, output), SkipSeeds(w, n, output))
  }

  ghost predicate ReleasedBy(w: Workflow, rows: map<NodeId, NodeRow>, n: NodeId, output: Payload, c: NodeId)
    requires n in rows && IsNode(w, n)
  {
    Released(w.edges, SucceededRows(w, rows, n, output), SkippedBy(w, rows, n, output), n, c)
  }

  /** All rows after `n` succeeded with `output`. */
  ghost function RowsAfterSuccess(w: Workflow, rows: map<NodeId, NodeRow>, n: NodeId,
                                  output: Payload): map<NodeId, NodeRow>
    requires n in rows && IsNode(w, n)
  {
    var done := SucceededRows(w, rows, n, output);
    var skipped := SkippedBy(w, rows, n, output);
    map x | x in done ::
      if x in skipped then done[x].(status := SKIPPED)
      else if ReleasedBy(w, rows, n, output, x) then Enqueued(done[x])
      else done[x]
  }

  predicate AllTerminal(rows: map<NodeId, NodeRow>) {
    forall n :: n in rows ==> Terminal(rows[n].status)
  }

  predicate AnyFailed(rows: map<NodeId, NodeRow>) {
    exists n :: n in rows && rows[n].status in {FAILED, DEAD_LETTERED}
  }

  /** The completion check at the end of every applied outcome. */
  function FinalStatus(status: ExecutionStatus, rows: map<NodeId, NodeRow>): ExecutionStatus {
    if AllTerminal(rows) && status == EXEC_RUNNING then
      if AnyFailed(rows) then EXEC_FAILED else EXEC_SUCCEEDED
    else status
  }

  ghost function Succeed(w: Workflow, db: Db, n: NodeId, output: Payload): Db
    requires n in db.rows && IsNode(w, n)
  {
    var rows := RowsAfterSuccess(w, db.rows, n, output);
    Db(FinalStatus(db.status, rows), rows, db.ledger, db.history + [NodeSucceeded(n)])
  }

  predicate AttemptsLeft(row: NodeRow) {
    row.attempt < row.maxAttempts
  }

  function Fail(db: Db, n: NodeId): Db
    requires n in db.rows
  {
    var row := db.rows[n];
    if AttemptsLeft(row) then
      db.(rows := db.rows[n := Enqueued(row)], history := db.history + [NodeFailed(n)])
    else
      Db(if db.status == EXEC_RUNNING then EXEC_FAILED else db.status,
         db.rows[n := row.(status := DEAD_LETTERED)],
         db.ledger + [DeadLetter(n, row.attempt, false)],
         db.history + [NodeFailed(n), NodeDeadLettered(n)])
  }

  /** The completion transaction: nothing unless the node is still RUNNING. */
  ghost function Complete(w: Workflow, db: Db, n: NodeId, outcome: Outcome): Db
    requires IsNode(w, n)
  {
    if !HasStatus(db.rows, n, RUNNING) then db
    else match outcome
      case Success(output) => Succeed(w, db, n, output)
      case Failure => Fail(db, n)
  }

  /** The jobs the completion transaction leaves to be published. */
  ghost function OwedAfter(w: Workflow, db: Db, n: NodeId, outcome: Outcome): set<Job>
    requires IsNode(w, n)
  {
    if !HasStatus(db.rows, n, RUNNING) then {}
    else match outcome
      case Success(output) =>
        set x | x in db.rows && ReleasedBy(w, db.rows, n, output, x) :: Job(x, db.rows[x].attempt + 1)
      case Failure => if AttemptsLeft(db.rows[n]) then {Job(n, db.rows[n].attempt + 1)} else {}
  }

  function Claim(db: Db, n: NodeId): Db {
    if HasStatus(db.rows, n, QUEUED) then
      db.(rows := db.rows[n := db.rows[n].(status := RUNNING)], history := db.history + [NodeStarted(n)])
    else db
  }

  function Revert(db: Db, n: NodeId): Db {
    if HasStatus(db.rows, n, RUNNING) then
      db.(rows := db.rows[n := db.rows[n].(status := QUEUED)], history := db.history + [NodeReverted(n)])
    else db
  }

  /** Positions of the unresolved ledger rows of a node. */
  function Unresolved(ledger: seq<DeadLetter>, n: NodeId): set<nat> {
    set k: nat | k < |ledger| && ledger[k].node == n && !ledger[k].resolved
  }

  function ResolveRow(ledger: seq<DeadLetter>, k: nat): seq<DeadLetter> {
    if k < |ledger| then ledger[k := ledger[k].(resolved := true)] else ledger
  }

  function ResolveAll(ledger: seq<DeadLetter>, n: NodeId): seq<DeadLetter> {
    seq(|ledger|, k requires 0 <= k < |ledger| =>
      if ledger[k].node == n then ledger[k].(resolved := true) else ledger[k])
  }

  /** The manual retry goes through for a DEAD_LETTERED node, unless the single-row
      ledger lookup meets two unresolved rows. */
  predicate CanRetry(db: Db, n: NodeId) {
    HasStatus(db.rows, n, DEAD_LETTERED) && |Unresolved(db.ledger, n)| <= 1
  }

  function Retry(db: Db, n: NodeId): Db {
    if CanRetry(db, n) then
      db.(rows := db.rows[n := Enqueued(db.rows[n])],
          ledger := ResolveAll(db.ledger, n),
          history := db.history + [NodeRetried(n)])
    else db
  }

  /** Every way in which the committed state of a started execution can change. */
  datatype Txn =
    | ClaimTxn(node: NodeId)
    | RevertTxn(node: NodeId)
    | CompleteTxn(node: NodeId, outcome: Outcome)
    | RetryTxn(node: NodeId)
    | ResolveTxn(row: nat)
    | NoTxn

  ghost predicate TxnOk(w: Workflow, txn: Txn) {
    txn.CompleteTxn? ==> IsNode(w, txn.node)
  }

  ghost function Commit(w: Workflow, db: Db, txn: Txn): Db
    requires TxnOk(w, txn)
  {
    match txn
    case ClaimTxn(n) => Claim(db, n)
    case RevertTxn(n) => Revert(db, n)
    case CompleteTxn(n, outcome) => Complete(w, db, n, outcome)
    case RetryTxn(n) => Retry(db, n)
    case ResolveTxn(k) => db.(ledger := ResolveRow(db.ledger, k))
    case NoTxn => db
  }

  /** The committed state right after `start_execution`. */
  ghost function StartRows(w: Workflow): map<NodeId, NodeRow>
  {
    map n | n in Ids(w.nodes) ::
      NodeRow(if IsRoot(w, n) then QUEUED else PENDING,
              if IsRoot(w, n) then 1 else 0,
              ResolveRetry(Def(w.nodes, n), w),
              None)
  }

  ghost function Started(w: Workflow): Db {
    Db(EXEC_RUNNING, StartRows(w), [], [])
  }

  /** The jobs `start_execution` leaves to be published. */
  ghost function RootJobs(w: Workflow): set<Job> {
    set n | n in Ids(w.nodes) && IsRoot(w, n) :: Job(n, 1)
  }
}
