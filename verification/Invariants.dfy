/** What every transaction keeps about the rows of one execution, whatever the
    order in which workers, recovery and users commit. */
module Invariants {
  import opened Graph
  import opened Model
  import opened Transactions

  /** One row per node, the configured attempt limit, an output exactly when the
      node succeeded, and never a committed FAILED or RETRYING. */
  ghost predicate RowsShape(w: Workflow, rows: map<NodeId, NodeRow>) {
    && (forall n :: n in rows <==> IsNode(w, n))
    && (forall n :: n in rows ==> RowShape(w, n, rows[n]))
  }

  ghost predicate RowShape(w: Workflow, n: NodeId, row: NodeRow) {
    && IsNode(w, n)
    && row.maxAttempts == ResolveRetry(Def(w.nodes, n), w)
    && row.status !in {FAILED, RETRYING}
    && (row.output.Some? <==> row.status == SUCCEEDED)
  }

  predicate Untouched(s: NodeStatus) {
    s in {PENDING, SKIPPED}
  }

  /** A node that was ever queued has only SUCCEEDED parents. */
  ghost predicate Causal(w: Workflow, rows: map<NodeId, NodeRow>) {
    forall e :: e in w.edges && e.to in rows && !Untouched(rows[e.to].status) ==> HasStatus(rows, e.from, SUCCEEDED)
  }

  ghost predicate Blocked(w: Workflow, rows: map<NodeId, NodeRow>, n: NodeId) {
    exists p :: Edge(p, n) in w.edges && !HasStatus(rows, p, SUCCEEDED)
  }

  /** A PENDING node waits for some parent: no join is ever missed. */
  ghost predicate Joined(w: Workflow, rows: map<NodeId, NodeRow>) {
    forall n :: HasStatus(rows, n, PENDING) ==> Blocked(w, rows, n)
  }

  /** Every child of a SKIPPED node is SKIPPED. */
  ghost predicate SkipClosed(w: Workflow, rows: map<NodeId, NodeRow>) {
    forall e :: e in w.edges && HasStatus(rows, e.from, SKIPPED) ==> HasStatus(rows, e.to, SKIPPED)
  }

  ghost predicate RowsInv(w: Workflow, rows: map<NodeId, NodeRow>) {
    && ValidWorkflow(w)
    && RowsShape(w, rows)
    && Causal(w, rows)
    && Joined(w, rows)
    && SkipClosed(w, rows)
  }

  // ----- the success transaction, row by row -----

  /** What the success of a RUNNING node does to each row. */
  ghost predicate SuccessAt(w: Workflow, rows: map<NodeId, NodeRow>, n: NodeId, output: Payload, x: NodeId)
    requires n in rows && IsNode(w, n) && x in rows
  {
    var after := RowsAfterSuccess(w, rows, n, output);
    && x in after
    && (x == n ==> after[x] == rows[n].(status := SUCCEEDED, output := Some(output)))
    && (x != n && rows[x].status != PENDING ==> after[x] == rows[x])
    && (x != n && rows[x].status == PENDING ==>
          if x in SkippedBy(w, rows, n, output) then after[x] == rows[x].(status := SKIPPED)
          else if ReleasedBy(w, rows, n, output, x) then after[x] == Enqueued(rows[x])
          else after[x] == rows[x])
  }

  lemma SuccessEffect(w: Workflow, rows: map<NodeId, NodeRow>, n: NodeId, output: Payload)
    requires HasStatus(rows, n, RUNNING) && IsNode(w, n)
    ensures forall x :: x in rows ==> SuccessAt(w, rows, n, output, x)
    ensures RowsAfterSuccess(w, rows, n, output).Keys == rows.Keys
  {
    var skipped := SkippedBy(w, rows, n, output);
    forall x | x in skipped ensures HasStatus(SucceededRows(w, rows, n, output), x, PENDING) {
      SkippedIsPending(w.edges, SucceededRows(w, rows, n, output), SkipSeeds(w, n, output), x);
    }
  }

  lemma SkippedIsPending(edges: seq<Edge>, rows: map<NodeId, NodeRow>, seeds: set<NodeId>, x: NodeId)
    requires x in SkipClosure(edges, rows, seeds)
    ensures HasStatus(rows, x, PENDING)
  {
  }

  /** The closure contains the PENDING seeds and is closed under PENDING children. */
  lemma ClosureSeed(edges: seq<Edge>, rows: map<NodeId, NodeRow>, seeds: set<NodeId>, x: NodeId)
    requires x in seeds && HasStatus(rows, x, PENDING)
    ensures x in SkipClosure(edges, rows, seeds)
  {
    var path := [x];
    assert PendingPath(edges, rows, path) && path[0] in seeds && path[|path| - 1] == x;
  }

  lemma ClosureChild(edges: seq<Edge>, rows: map<NodeId, NodeRow>, seeds: set<NodeId>, x: NodeId, y: NodeId)
    requires x in SkipClosure(edges, rows, seeds) && Edge(x, y) in edges && HasStatus(rows, y, PENDING)
    ensures y in SkipClosure(edges, rows, seeds)
  {
    var path :| PendingPath(edges, rows, path) && path[0] in seeds && path[|path| - 1] == x;
    var longer := path + [y];
    assert PendingPath(edges, rows, longer) && longer[0] in seeds && longer[|longer| - 1] == y;
  }

  lemma SuccessKeepsShape(w: Workflow, rows: map<NodeId, NodeRow>, n: NodeId, output: Payload)
    requires RowsShape(w, rows) && HasStatus(rows, n, RUNNING)
    ensures RowsShape(w, RowsAfterSuccess(w, rows, n, output))
  {
    SuccessEffect(w, rows, n, output);
    var after := RowsAfterSuccess(w, rows, n, output);
    forall x | x in after ensures RowShape(w, x, after[x]) {
      assert SuccessAt(w, rows, n, output, x);
      assert RowShape(w, x, rows[x]);
    }
  }

  /** Success never takes SUCCEEDED away. */
  lemma SuccessKeepsSucceeded(w: Workflow, rows: map<NodeId, NodeRow>, n: NodeId, output: Payload, p: NodeId)
    requires HasStatus(rows, n, RUNNING) && IsNode(w, n)
    ensures HasStatus(RowsAfterSuccess(w, rows, n, output), p, SUCCEEDED) <==> p == n || HasStatus(rows, p, SUCCEEDED)
  {
  }

  lemma SuccessKeepsCausal(w: Workflow, rows: map<NodeId, NodeRow>, n: NodeId, output: Payload)
    requires Causal(w, rows) && HasStatus(rows, n, RUNNING) && IsNode(w, n)
    ensures Causal(w, RowsAfterSuccess(w, rows, n, output))
  {
    SuccessEffect(w, rows, n, output);
    var after := RowsAfterSuccess(w, rows, n, output);
    forall e | e in w.edges && e.to in after && !Untouched(after[e.to].status)
      ensures HasStatus(after, e.from, SUCCEEDED)
    {
      assert SuccessAt(w, rows, n, output, e.to);
      SuccessKeepsSucceeded(w, rows, n, output, e.from);
      if rows[e.to].status == PENDING {
        assert ReleasedBy(w, rows, n, output, e.to);
        assert Edge(e.from, e.to) == e;
      }
    }
  }

  lemma SuccessKeepsJoined(w: Workflow, rows: map<NodeId, NodeRow>, n: NodeId, output: Payload)
    requires Joined(w, rows) && HasStatus(rows, n, RUNNING) && IsNode(w, n)
    ensures Joined(w, RowsAfterSuccess(w, rows, n, output))
  {
    SuccessEffect(w, rows, n, output);
    var after := RowsAfterSuccess(w, rows, n, output);
    var done := SucceededRows(w, rows, n, output);
    forall x | HasStatus(after, x, PENDING) ensures Blocked(w, after, x) {
      assert SuccessAt(w, rows, n, output, x);
      assert HasStatus(rows, x, PENDING);
      var p: NodeId;
      if Edge(n, x) in w.edges {
        assert !AllParentsSucceeded(w.edges, done, x);
        p :| Edge(p, x) in w.edges && !HasStatus(done, p, SUCCEEDED);
      } else {
        assert Blocked(w, rows, x);
        p :| Edge(p, x) in w.edges && !HasStatus(rows, p, SUCCEEDED);
      }
      SuccessKeepsSucceeded(w, rows, n, output, p);
    }
  }

  lemma SuccessKeepsSkipClosed(w: Workflow, rows: map<NodeId, NodeRow>, n: NodeId, output: Payload)
    requires RowsShape(w, rows) && EdgesWithin(Ids(w.nodes), w.edges)
    requires Causal(w, rows) && SkipClosed(w, rows) && HasStatus(rows, n, RUNNING)
    ensures SkipClosed(w, RowsAfterSuccess(w, rows, n, output))
  {
    SuccessEffect(w, rows, n, output);
    hide RowsAfterSuccess, SkipClosure, ReleasedBy;
    var after := RowsAfterSuccess(w, rows, n, output);
    var done := SucceededRows(w, rows, n, output);
    forall e | e in w.edges && HasStatus(after, e.from, SKIPPED) ensures HasStatus(after, e.to, SKIPPED) {
      assert SuccessAt(w, rows, n, output, e.from);
      assert IsNode(w, e.to) && e.to in rows;
      assert SuccessAt(w, rows, n, output, e.to);
      if rows[e.from].status == PENDING {
        assert Untouched(rows[e.to].status);
        if rows[e.to].status == PENDING {
          assert Edge(e.from, e.to) == e;
          ClosureChild(w.edges, done, SkipSeeds(w, n, output), e.from, e.to);
        }
      }
    }
  }

  lemma SuccessKeepsRows(w: Workflow, rows: map<NodeId, NodeRow>, n: NodeId, output: Payload)
    requires RowsInv(w, rows) && HasStatus(rows, n, RUNNING)
    ensures RowsInv(w, RowsAfterSuccess(w, rows, n, output))
  {
    SuccessKeepsShape(w, rows, n, output);
    SuccessKeepsCausal(w, rows, n, output);
    SuccessKeepsJoined(w, rows, n, output);
    SuccessKeepsSkipClosed(w, rows, n, output);
  }

  // ----- what success does, said of the configuration and the rows themselves -----

  /** A path configured on a condition that its output does not choose. */
  predicate NotChosen(def: NodeDef, output: Payload, x: NodeId) {
    && def.kind == "condition" && x != ""
    && (("true_path" in def.config && def.config["true_path"] == x) ||
        ("false_path" in def.config && def.config["false_path"] == x))
    && !("next_node" in output && output["next_node"] == x)
  }

  /** A way down to `x`, through PENDING nodes, from a path that `n` did not choose. */
  ghost predicate WayDown(w: Workflow, rows: map<NodeId, NodeRow>, n: NodeId, output: Payload, path: seq<NodeId>,
                          x: NodeId)
    requires IsNode(w, n)
  {
    && IsPath(w.edges, path) && path[|path| - 1] == x && NotChosen(Def(w.nodes, n), output, path[0])
    && forall i :: 0 <= i < |path| ==> HasStatus(rows, path[i], PENDING)
  }

  ghost predicate CutOff(w: Workflow, rows: map<NodeId, NodeRow>, n: NodeId, output: Payload, x: NodeId)
    requires IsNode(w, n)
  {
    (exists c :: Edge(n, c) in w.edges) && exists path :: WayDown(w, rows, n, output, path, x)
  }

  ghost predicate JoinedBy(w: Workflow, rows: map<NodeId, NodeRow>, n: NodeId, x: NodeId) {
    Edge(n, x) in w.edges && forall p :: Edge(p, x) in w.edges ==> p == n || HasStatus(rows, p, SUCCEEDED)
  }

  /** Every row after `n` succeeded: `n` has its output; of the PENDING nodes those cut off are SKIPPED, and of the
      others those that `n` joins last are QUEUED for their next attempt; nothing else changes. */
  ghost predicate RowAfterSuccess(w: Workflow, rows: map<NodeId, NodeRow>, n: NodeId, output: Payload, x: NodeId,
                                  row: NodeRow)
    requires n in rows && IsNode(w, n) && x in rows
  {
    if x == n then row == NodeRow(SUCCEEDED, rows[n].attempt, rows[n].maxAttempts, Some(output))
    else if rows[x].status != PENDING then row == rows[x]
    else if CutOff(w, rows, n, output, x) then
      row == NodeRow(SKIPPED, rows[x].attempt, rows[x].maxAttempts, rows[x].output)
    else if JoinedBy(w, rows, n, x) then
      row == NodeRow(QUEUED, rows[x].attempt + 1, rows[x].maxAttempts, rows[x].output)
    else row == rows[x]
  }

  lemma SeedsAreNotChosen(def: NodeDef, output: Payload, x: NodeId)
    ensures x in UnchosenBranches(def, output) <==> NotChosen(def, output, x)
  {
  }

  lemma ClosureIsCutOff(w: Workflow, rows: map<NodeId, NodeRow>, n: NodeId, output: Payload, x: NodeId)
    requires IsNode(w, n)
    ensures x in SkipClosure(w.edges, rows, SkipSeeds(w, n, output)) <==> CutOff(w, rows, n, output, x)
  {
    var seeds := SkipSeeds(w, n, output);
    if x in SkipClosure(w.edges, rows, seeds) {
      var path :| PendingPath(w.edges, rows, path) && path[0] in seeds && path[|path| - 1] == x;
      SeedsAreNotChosen(Def(w.nodes, n), output, path[0]);
      assert WayDown(w, rows, n, output, path, x);
    }
    if CutOff(w, rows, n, output, x) {
      var path :| WayDown(w, rows, n, output, path, x);
      SeedsAreNotChosen(Def(w.nodes, n), output, path[0]);
      assert PendingPath(w.edges, rows, path) && path[0] in seeds;
      assert SkipReaches(w.edges, rows, seeds, x);
    }
  }

  lemma SkippedIsCutOff(w: Workflow, rows: map<NodeId, NodeRow>, n: NodeId, output: Payload, x: NodeId)
    requires IsNode(w, n) && HasStatus(rows, n, RUNNING)
    ensures x in SkippedBy(w, rows, n, output) <==> CutOff(w, rows, n, output, x)
  {
    var done := SucceededRows(w, rows, n, output);
    ClosureIsCutOff(w, done, n, output, x);
    forall path ensures WayDown(w, done, n, output, path, x) <==> WayDown(w, rows, n, output, path, x) {}
  }

  lemma ReleasedIsJoined(w: Workflow, rows: map<NodeId, NodeRow>, n: NodeId, output: Payload, x: NodeId)
    requires IsNode(w, n) && HasStatus(rows, n, RUNNING) && HasStatus(rows, x, PENDING)
    ensures ReleasedBy(w, rows, n, output, x) <==> x !in SkippedBy(w, rows, n, output) && JoinedBy(w, rows, n, x)
  {
    var done := SucceededRows(w, rows, n, output);
    forall p ensures HasStatus(done, p, SUCCEEDED) <==> p == n || HasStatus(rows, p, SUCCEEDED) {}
  }

  /** The success transaction, row by row, without the functions that define it. */
  lemma SuccessIsExact(w: Workflow, rows: map<NodeId, NodeRow>, n: NodeId, output: Payload, x: NodeId)
    requires IsNode(w, n) && HasStatus(rows, n, RUNNING) && x in rows
    ensures
      var after := RowsAfterSuccess(w, rows, n, output);
      after.Keys == rows.Keys && RowAfterSuccess(w, rows, n, output, x, after[x])
  {
    SuccessEffect(w, rows, n, output);
    assert SuccessAt(w, rows, n, output, x);
    SkippedIsCutOff(w, rows, n, output, x);
    if HasStatus(rows, x, PENDING) { ReleasedIsJoined(w, rows, n, output, x); }
    hide SkippedBy, ReleasedBy, CutOff, JoinedBy, RowsAfterSuccess;
  }

  /** The branch a condition chose is queued, unless another parent is missing or it also lies below a path that was
      not chosen. */
  lemma ChosenBranchIsQueued(w: Workflow, rows: map<NodeId, NodeRow>, n: NodeId, output: Payload)
    requires IsNode(w, n) && HasStatus(rows, n, RUNNING) && "next_node" in output
    requires
      var x := output["next_node"];
      && HasStatus(rows, x, PENDING) && Edge(n, x) in w.edges
      && (forall p :: Edge(p, x) in w.edges && p != n ==> HasStatus(rows, p, SUCCEEDED))
      && forall u :: NotChosen(Def(w.nodes, n), output, u) ==> !Reaches(w.edges, u, x)
    ensures HasStatus(RowsAfterSuccess(w, rows, n, output), output["next_node"], QUEUED)
  {
    var x := output["next_node"];
    forall path ensures !WayDown(w, rows, n, output, path, x) { WayDownReaches(w, rows, n, output, path, x); }
    SuccessIsExact(w, rows, n, output, x);
  }

  lemma WayDownReaches(w: Workflow, rows: map<NodeId, NodeRow>, n: NodeId, output: Payload, path: seq<NodeId>,
                       x: NodeId)
    requires IsNode(w, n)
    ensures WayDown(w, rows, n, output, path, x) ==> path[0] == x || Reaches(w.edges, path[0], x)
  {
    if WayDown(w, rows, n, output, path, x) && |path| > 1 { assert PathBetween(w.edges, path, path[0], x); }
  }

  /** Only a condition skips anything, and what it skips hangs on a path it did not choose. */
  lemma OnlyConditionsSkip(w: Workflow, rows: map<NodeId, NodeRow>, n: NodeId, output: Payload, x: NodeId)
    requires IsNode(w, n) && HasStatus(rows, n, RUNNING)
    requires HasStatus(RowsAfterSuccess(w, rows, n, output), x, SKIPPED) && !HasStatus(rows, x, SKIPPED)
    ensures Def(w.nodes, n).kind == "condition" && HasStatus(rows, x, PENDING)
    ensures exists u :: NotChosen(Def(w.nodes, n), output, u) && ReachesOrSame(w.edges, u, x)
  {
    SuccessEffect(w, rows, n, output);
    SuccessIsExact(w, rows, n, output, x);
    var path :| WayDown(w, rows, n, output, path, x);
    WayDownReaches(w, rows, n, output, path, x);
  }

  /** An owed job names a row, and its next attempt. */
  lemma OwedJob(w: Workflow, db: Db, n: NodeId, outcome: Outcome, j: Job)
    requires IsNode(w, n) && j in OwedAfter(w, db, n, outcome)
    ensures j.node in db.rows && j.attempt == db.rows[j.node].attempt + 1
  {
  }

  // ----- the other transactions move one started node -----

  ghost predicate StartedStatus(s: NodeStatus) {
    s in {QUEUED, RUNNING, DEAD_LETTERED}
  }

  /** Moving a started, unsuccessful node to another such status changes nothing for the graph. */
  lemma MoveKeepsRows(w: Workflow, rows: map<NodeId, NodeRow>, n: NodeId, row: NodeRow)
    requires RowsInv(w, rows) && n in rows
    requires StartedStatus(rows[n].status) && StartedStatus(row.status)
    requires row.maxAttempts == rows[n].maxAttempts && row.output == rows[n].output
    ensures RowsInv(w, rows[n := row])
  {
    var after := rows[n := row];
    assert forall p :: HasStatus(after, p, SUCCEEDED) <==> HasStatus(rows, p, SUCCEEDED);
    assert forall p :: HasStatus(after, p, SKIPPED) <==> HasStatus(rows, p, SKIPPED);
    assert forall p :: HasStatus(after, p, PENDING) <==> HasStatus(rows, p, PENDING);
    assert RowsShape(w, after) by {
      forall x | x in after ensures RowShape(w, x, after[x]) { assert RowShape(w, x, rows[x]); }
    }
    assert Joined(w, after) by {
      forall x | HasStatus(after, x, PENDING) ensures Blocked(w, after, x) {
        assert Blocked(w, rows, x);
        var p :| Edge(p, x) in w.edges && !HasStatus(rows, p, SUCCEEDED);
        assert !HasStatus(after, p, SUCCEEDED);
      }
    }
  }

  /** Every transaction keeps the row invariants. */
  lemma CommitKeepsRows(w: Workflow, db: Db, txn: Txn)
    requires RowsInv(w, db.rows) && TxnOk(w, txn)
    ensures RowsInv(w, Commit(w, db, txn).rows)
  {
    match txn
    case ClaimTxn(n) =>
      if HasStatus(db.rows, n, QUEUED) { MoveKeepsRows(w, db.rows, n, db.rows[n].(status := RUNNING)); }
    case RevertTxn(n) =>
      if HasStatus(db.rows, n, RUNNING) { MoveKeepsRows(w, db.rows, n, db.rows[n].(status := QUEUED)); }
    case CompleteTxn(n, outcome) =>
      if HasStatus(db.rows, n, RUNNING) {
        match outcome
        case Success(output) => SuccessKeepsRows(w, db.rows, n, output);
        case Failure =>
          if AttemptsLeft(db.rows[n]) {
            MoveKeepsRows(w, db.rows, n, Enqueued(db.rows[n]));
          } else {
            MoveKeepsRows(w, db.rows, n, db.rows[n].(status := DEAD_LETTERED));
          }
      }
    case RetryTxn(n) =>
      if CanRetry(db, n) { MoveKeepsRows(w, db.rows, n, Enqueued(db.rows[n])); }
    case ResolveTxn(_) =>
    case NoTxn =>
  }

  lemma StartedRowsInv(w: Workflow)
    requires ValidWorkflow(w)
    ensures RowsInv(w, Started(w).rows)
  {
    var rows := Started(w).rows;
    forall n | HasStatus(rows, n, PENDING) ensures Blocked(w, rows, n) {
      assert !IsRoot(w, n);
      var e :| e in w.edges && e.to == n;
      assert Edge(e.from, n) == e;
      assert !HasStatus(rows, e.from, SUCCEEDED);
    }
    forall n | n in rows ensures RowShape(w, n, rows[n]) {}
  }

  // ----- consequences for ancestors and descendants -----

  /** Every ancestor of a node that was ever queued has SUCCEEDED. */
  lemma AncestorsSucceeded(w: Workflow, rows: map<NodeId, NodeRow>, a: NodeId, n: NodeId)
    requires Causal(w, rows) && Reaches(w.edges, a, n)
    requires n in rows && !Untouched(rows[n].status)
    ensures HasStatus(rows, a, SUCCEEDED)
  {
    var path :| PathBetween(w.edges, path, a, n);
    AncestorsSucceededOn(w, rows, path);
  }

  lemma {:induction false} AncestorsSucceededOn(w: Workflow, rows: map<NodeId, NodeRow>, path: seq<NodeId>)
    requires Causal(w, rows) && IsPath(w.edges, path) && |path| >= 2
    requires path[|path| - 1] in rows && !Untouched(rows[path[|path| - 1]].status)
    ensures HasStatus(rows, path[0], SUCCEEDED)
    decreases |path|
  {
    var e := Edge(path[|path| - 2], path[|path| - 1]);
    assert e in w.edges;
    if |path| > 2 {
      assert IsPath(w.edges, path[..|path| - 1]);
      AncestorsSucceededOn(w, rows, path[..|path| - 1]);
    }
  }

  // ----- no deadlock -----

  /** When nothing is QUEUED or RUNNING, every PENDING node has a DEAD_LETTERED ancestor. */
  lemma {:induction false} PendingHasDeadAncestor(w: Workflow, rows: map<NodeId, NodeRow>, order: seq<NodeId>, k: nat)
    returns (a: NodeId)
    requires RowsInv(w, rows) && Topological(Ids(w.nodes), w.edges, order)
    requires forall n :: !Active(rows, n)
    requires k < |order| && HasStatus(rows, order[k], PENDING)
    ensures Reaches(w.edges, a, order[k]) && HasStatus(rows, a, DEAD_LETTERED)
    decreases k
  {
    var n := order[k];
    assert Blocked(w, rows, n);
    var p :| Edge(p, n) in w.edges && !HasStatus(rows, p, SUCCEEDED);
    var e := Edge(p, n);
    assert IsNode(w, p) && p in rows;
    assert RowShape(w, p, rows[p]);
    assert !Active(rows, p);
    assert rows[p].status in {PENDING, DEAD_LETTERED, SKIPPED};
    assert !HasStatus(rows, p, SKIPPED);
    EdgeReaches(w.edges, p, n);
    if HasStatus(rows, p, DEAD_LETTERED) {
      a := p;
    } else {
      TopologicalCovers(Ids(w.nodes), w.edges, order, p);
      var j :| 0 <= j < |order| && order[j] == p;
      assert j < k;
      a := PendingHasDeadAncestor(w, rows, order, j);
      ReachesTransitive(w.edges, a, p, n);
    }
  }
}
