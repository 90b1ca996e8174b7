/** Counters, ledger and execution status as functions of the committed history. */
module Histories {
  import opened Graph
  import opened Model
  import opened Transactions
  import opened Invariants

  // ----- counting -----

  /** How often each kind of event was committed for one node. */
  datatype Tally = Tally(
    started: nat, succeeded: nat, failed: nat, deadLettered: nat, reverted: nat, retried: nat)

  /** One more event of this node. */
  function Bump(t: Tally, e: Event): Tally {
    match e
    case NodeStarted(_) => t.(started := t.started + 1)
    case NodeSucceeded(_) => t.(succeeded := t.succeeded + 1)
    case NodeFailed(_) => t.(failed := t.failed + 1)
    case NodeDeadLettered(_) => t.(deadLettered := t.deadLettered + 1)
    case NodeReverted(_) => t.(reverted := t.reverted + 1)
    case NodeRetried(_) => t.(retried := t.retried + 1)
  }

  function TallyOf(history: seq<Event>, n: NodeId): Tally {
    if history == [] then Tally(0, 0, 0, 0, 0, 0)
    else
      var rest := TallyOf(history[..|history| - 1], n);
      var last := history[|history| - 1];
      if last.node == n then Bump(rest, last) else rest
  }

  /** The attempt numbers recorded in the ledger rows of one node, oldest first. */
  function RecordedAttempts(ledger: seq<DeadLetter>, n: NodeId): seq<nat> {
    if ledger == [] then []
    else
      var rest := RecordedAttempts(ledger[..|ledger| - 1], n);
      var last := ledger[|ledger| - 1];
      if last.node == n then rest + [last.attempts] else rest
  }

  /** Attempt conservation and the dead-letter ledger, for one row. */
  ghost predicate Balanced(row: NodeRow, t: Tally, recorded: seq<nat>) {
    // every attempt but the current one has exactly one applied outcome
    && t.succeeded + t.failed + (if row.status in {QUEUED, RUNNING} then 1 else 0) == row.attempt
    // every claim starts an attempt, or restarts one that recovery reverted
    && t.started + (if row.status == QUEUED then 1 else 0) == row.attempt + t.reverted
    && t.succeeded == (if row.status == SUCCEEDED then 1 else 0)
    && (Untouched(row.status) ==> row.attempt == 0)
    // one ledger row per dead-lettering; each but the last was retried by hand
    && t.deadLettered == t.retried + (if row.status == DEAD_LETTERED then 1 else 0)
    && (t.retried == 0 ==> row.attempt <= row.maxAttempts)
    && (t.retried > 0 || row.status == DEAD_LETTERED ==> row.attempt == row.maxAttempts + t.retried)
    && |recorded| == t.deadLettered
    && forall k :: 0 <= k < |recorded| ==> recorded[k] == row.maxAttempts + k
  }

  ghost predicate BalancedAt(db: Db, n: NodeId)
    requires n in db.rows
  {
    Balanced(db.rows[n], TallyOf(db.history, n), RecordedAttempts(db.ledger, n))
  }

  ghost predicate Books(db: Db) {
    forall n :: n in db.rows ==> BalancedAt(db, n)
  }

  /** An unresolved row is the last one of its node, and the node is DEAD_LETTERED. */
  ghost predicate LedgerOpen(db: Db) {
    && (forall k :: 0 <= k < |db.ledger| && !db.ledger[k].resolved ==>
          HasStatus(db.rows, db.ledger[k].node, DEAD_LETTERED))
    && (forall j, k :: 0 <= j < k < |db.ledger| && db.ledger[j].node == db.ledger[k].node ==> db.ledger[j].resolved)
  }

  lemma TallyAppend(history: seq<Event>, e: Event, n: NodeId)
    ensures TallyOf(history + [e], n) == if e.node == n then Bump(TallyOf(history, n), e) else TallyOf(history, n)
  {
  }

  /** A positive count means the event is there. */
  lemma {:induction false} TallyWitness(history: seq<Event>, n: NodeId)
    ensures TallyOf(history, n).succeeded > 0 <==> NodeSucceeded(n) in history
    ensures TallyOf(history, n).deadLettered > 0 <==> NodeDeadLettered(n) in history
    decreases |history|
  {
    if history != [] {
      var front, last := history[..|history| - 1], history[|history| - 1];
      TallyWitness(front, n);
      assert history == front + [last];
    }
  }

  lemma RecordedAppend(ledger: seq<DeadLetter>, d: DeadLetter, n: NodeId)
    ensures RecordedAttempts(ledger + [d], n) ==
            if d.node == n then RecordedAttempts(ledger, n) + [d.attempts] else RecordedAttempts(ledger, n)
  {
  }

  /** Resolving rows changes no recorded attempt. */
  lemma {:induction false} RecordedIgnoresResolution(ledger: seq<DeadLetter>, other: seq<DeadLetter>, n: NodeId)
    requires |ledger| == |other|
    requires forall k :: 0 <= k < |ledger| ==>
      ledger[k].node == other[k].node && ledger[k].attempts == other[k].attempts
    ensures RecordedAttempts(ledger, n) == RecordedAttempts(other, n)
    decreases |ledger|
  {
    if ledger != [] {
      RecordedIgnoresResolution(ledger[..|ledger| - 1], other[..|other| - 1], n);
    }
  }

  // ----- per transaction -----

  /** A transaction that moves one row, with one event, keeps all other rows balanced. */
  lemma MoveKeepsBooks(db: Db, n: NodeId, row: NodeRow, e: Event, after: Db)
    requires Books(db) && e.node == n && after.rows == db.rows[n := row] && after.history == db.history + [e]
    requires forall x :: RecordedAttempts(after.ledger, x) == RecordedAttempts(db.ledger, x)
    requires Balanced(row, Bump(TallyOf(db.history, n), e), RecordedAttempts(db.ledger, n))
    ensures Books(after)
  {
    forall x | x in after.rows ensures BalancedAt(after, x) {
      TallyAppend(db.history, e, x);
      if x != n { assert BalancedAt(db, x); }
    }
  }

  lemma ClaimBalances(row: NodeRow, t: Tally, recorded: seq<nat>)
    requires Balanced(row, t, recorded)
    ensures row.status == QUEUED ==> Balanced(row.(status := RUNNING), t.(started := t.started + 1), recorded)
    ensures row.status == RUNNING ==> Balanced(row.(status := QUEUED), t.(reverted := t.reverted + 1), recorded)
  {
  }

  lemma RetryBalances(row: NodeRow, t: Tally, recorded: seq<nat>)
    requires Balanced(row, t, recorded) && row.status == DEAD_LETTERED
    ensures Balanced(Enqueued(row), t.(retried := t.retried + 1), recorded)
  {
  }

  lemma RequeueBalances(row: NodeRow, t: Tally, recorded: seq<nat>)
    requires Balanced(row, t, recorded) && row.status == RUNNING && AttemptsLeft(row)
    ensures Balanced(Enqueued(row), t.(failed := t.failed + 1), recorded)
  {
  }

  lemma DeadLetterBalances(row: NodeRow, t: Tally, recorded: seq<nat>)
    requires Balanced(row, t, recorded) && row.status == RUNNING && !AttemptsLeft(row)
    ensures Balanced(row.(status := DEAD_LETTERED),
                     t.(failed := t.failed + 1, deadLettered := t.deadLettered + 1), recorded + [row.attempt])
  {
  }

  lemma ClaimKeepsBooks(db: Db, n: NodeId)
    requires Books(db)
    ensures Books(Claim(db, n))
  {
    if HasStatus(db.rows, n, QUEUED) {
      assert BalancedAt(db, n);
      ClaimBalances(db.rows[n], TallyOf(db.history, n), RecordedAttempts(db.ledger, n));
      MoveKeepsBooks(db, n, db.rows[n].(status := RUNNING), NodeStarted(n), Claim(db, n));
    }
  }

  lemma RevertKeepsBooks(db: Db, n: NodeId)
    requires Books(db)
    ensures Books(Revert(db, n))
  {
    if HasStatus(db.rows, n, RUNNING) {
      assert BalancedAt(db, n);
      ClaimBalances(db.rows[n], TallyOf(db.history, n), RecordedAttempts(db.ledger, n));
      MoveKeepsBooks(db, n, db.rows[n].(status := QUEUED), NodeReverted(n), Revert(db, n));
    }
  }

  lemma RetryKeepsBooks(db: Db, n: NodeId)
    requires Books(db)
    ensures Books(Retry(db, n))
  {
    if CanRetry(db, n) {
      forall x ensures RecordedAttempts(ResolveAll(db.ledger, n), x) == RecordedAttempts(db.ledger, x) {
        RecordedIgnoresResolution(db.ledger, ResolveAll(db.ledger, n), x);
      }
      assert BalancedAt(db, n);
      RetryBalances(db.rows[n], TallyOf(db.history, n), RecordedAttempts(db.ledger, n));
      MoveKeepsBooks(db, n, Enqueued(db.rows[n]), NodeRetried(n), Retry(db, n));
    }
  }

  lemma FailKeepsBooks(db: Db, n: NodeId)
    requires Books(db) && HasStatus(db.rows, n, RUNNING)
    ensures Books(Fail(db, n))
  {
    if AttemptsLeft(db.rows[n]) {
      assert BalancedAt(db, n);
      RequeueBalances(db.rows[n], TallyOf(db.history, n), RecordedAttempts(db.ledger, n));
      MoveKeepsBooks(db, n, Enqueued(db.rows[n]), NodeFailed(n), Fail(db, n));
    } else {
      DeadLetterKeepsBooks(db, n);
    }
  }

  lemma DeadLetterKeepsBooks(db: Db, n: NodeId)
    requires Books(db) && HasStatus(db.rows, n, RUNNING) && !AttemptsLeft(db.rows[n])
    ensures Books(Fail(db, n))
  {
    var after := Fail(db, n);
    forall x | x in after.rows ensures BalancedAt(after, x) {
      assert BalancedAt(db, x);
      DeadLetterTally(db.history, n, x);
      RecordedAppend(db.ledger, DeadLetter(n, db.rows[n].attempt, false), x);
      if x == n { DeadLetterBalances(db.rows[n], TallyOf(db.history, n), RecordedAttempts(db.ledger, n)); }
    }
  }

  lemma DeadLetterTally(history: seq<Event>, n: NodeId, x: NodeId)
    ensures
      var t := TallyOf(history, x);
      TallyOf(history + [NodeFailed(n), NodeDeadLettered(n)], x) ==
        if x == n then t.(failed := t.failed + 1, deadLettered := t.deadLettered + 1) else t
  {
    var failed := history + [NodeFailed(n)];
    assert history + [NodeFailed(n), NodeDeadLettered(n)] == failed + [NodeDeadLettered(n)];
    TallyAppend(history, NodeFailed(n), x);
    TallyAppend(failed, NodeDeadLettered(n), x);
  }

  lemma SucceedKeepsBooks(w: Workflow, db: Db, n: NodeId, output: Payload)
    requires Books(db) && HasStatus(db.rows, n, RUNNING) && IsNode(w, n)
    ensures Books(Succeed(w, db, n, output))
  {
    var after := Succeed(w, db, n, output);
    SuccessEffect(w, db.rows, n, output);
    forall x | x in after.rows ensures BalancedAt(after, x) {
      assert SuccessAt(w, db.rows, n, output, x);
      assert BalancedAt(db, x);
      TallyAppend(db.history, NodeSucceeded(n), x);
      SuccessBalances(db.rows[x], TallyOf(db.history, x), RecordedAttempts(db.ledger, x));
    }
  }

  /** The four ways a row changes when some node succeeds. */
  lemma SuccessBalances(row: NodeRow, t: Tally, recorded: seq<nat>)
    requires Balanced(row, t, recorded)
    ensures forall o :: row.status == RUNNING ==>
      Balanced(row.(status := SUCCEEDED, output := o), t.(succeeded := t.succeeded + 1), recorded)
    ensures row.status == PENDING ==> Balanced(row.(status := SKIPPED), t, recorded)
    ensures row.status == PENDING ==> Balanced(Enqueued(row), t, recorded)
  {
  }

  lemma ResolveKeepsBooks(db: Db, k: nat)
    requires Books(db)
    ensures Books(db.(ledger := ResolveRow(db.ledger, k)))
  {
    var after := db.(ledger := ResolveRow(db.ledger, k));
    forall x | x in after.rows ensures BalancedAt(after, x) {
      assert BalancedAt(db, x);
      RecordedIgnoresResolution(db.ledger, after.ledger, x);
    }
  }

  lemma CommitKeepsBooks(w: Workflow, db: Db, txn: Txn)
    requires Books(db) && TxnOk(w, txn)
    ensures Books(Commit(w, db, txn))
  {
    match txn
    case ClaimTxn(n) => ClaimKeepsBooks(db, n);
    case RevertTxn(n) => RevertKeepsBooks(db, n);
    case CompleteTxn(n, outcome) =>
      if HasStatus(db.rows, n, RUNNING) {
        match outcome
        case Success(output) => SucceedKeepsBooks(w, db, n, output);
        case Failure => FailKeepsBooks(db, n);
      }
    case RetryTxn(n) => RetryKeepsBooks(db, n);
    case ResolveTxn(k) => ResolveKeepsBooks(db, k);
    case NoTxn =>
  }

  lemma StartedBooks(w: Workflow)
    ensures Books(Started(w)) && LedgerOpen(Started(w))
  {
  }

  // ----- the open rows of the ledger -----

  lemma CommitKeepsLedgerOpen(w: Workflow, db: Db, txn: Txn)
    requires LedgerOpen(db) && TxnOk(w, txn)
    ensures LedgerOpen(Commit(w, db, txn))
  {
    match txn
    case CompleteTxn(n, outcome) =>
      if HasStatus(db.rows, n, RUNNING) {
        match outcome
        case Success(output) =>
          SuccessEffect(w, db.rows, n, output);
          forall k | 0 <= k < |db.ledger| && !db.ledger[k].resolved
            ensures HasStatus(RowsAfterSuccess(w, db.rows, n, output), db.ledger[k].node, DEAD_LETTERED)
          {
            assert SuccessAt(w, db.rows, n, output, db.ledger[k].node);
          }
        case Failure =>
      }
    case RetryTxn(n) => RetryKeepsLedgerOpen(db, n);
    case _ =>
  }

  lemma RetryKeepsLedgerOpen(db: Db, n: NodeId)
    requires LedgerOpen(db)
    ensures LedgerOpen(Retry(db, n))
  {
  }

  /** The single-row lookup of a manual retry never meets two rows. */
  lemma AtMostOneUnresolved(db: Db, n: NodeId)
    requires LedgerOpen(db)
    ensures |Unresolved(db.ledger, n)| <= 1
    ensures Unresolved(db.ledger, n) != {} ==> HasStatus(db.rows, n, DEAD_LETTERED)
  {
    var open := Unresolved(db.ledger, n);
    if open != {} {
      var k :| k in open;
      assert forall j :: j in open ==> !(j < k) && !(k < j);
      assert open == {k};
    }
  }

  // ----- execution status -----

  ghost predicate AllSettledWell(rows: map<NodeId, NodeRow>) {
    forall n :: n in rows ==> rows[n].status in {SUCCEEDED, SKIPPED}
  }

  /** The execution status, read off the ledger and the rows. */
  ghost function StatusFromHistory(db: Db): ExecutionStatus {
    if db.ledger != [] then EXEC_FAILED
    else if AllSettledWell(db.rows) then EXEC_SUCCEEDED
    else EXEC_RUNNING
  }

  ghost predicate StatusInv(db: Db) {
    db.status == StatusFromHistory(db)
  }

  /** A DEAD_LETTERED row has a ledger row. */
  lemma DeadLetteredIsRecorded(db: Db, n: NodeId)
    requires Books(db) && HasStatus(db.rows, n, DEAD_LETTERED)
    ensures db.ledger != []
  {
  }

  lemma UnsettledKeepsStatus(db: Db, after: Db, n: NodeId)
    requires StatusInv(db) && after.status == db.status && (after.ledger == [] <==> db.ledger == [])
    requires n in db.rows && db.rows[n].status !in {SUCCEEDED, SKIPPED}
    requires n in after.rows && after.rows[n].status !in {SUCCEEDED, SKIPPED}
    ensures StatusInv(after)
  {
  }

  lemma FailKeepsStatus(db: Db, n: NodeId)
    requires StatusInv(db) && HasStatus(db.rows, n, RUNNING)
    ensures StatusInv(Fail(db, n))
  {
    if AttemptsLeft(db.rows[n]) {
      UnsettledKeepsStatus(db, Fail(db, n), n);
    } else {
      assert !AllSettledWell(db.rows);
    }
  }

  lemma CommitKeepsStatus(w: Workflow, db: Db, txn: Txn)
    requires StatusInv(db) && Books(db) && RowsShape(w, db.rows) && TxnOk(w, txn)
    ensures StatusInv(Commit(w, db, txn))
  {
    match txn
    case ClaimTxn(n) =>
      if HasStatus(db.rows, n, QUEUED) { UnsettledKeepsStatus(db, Claim(db, n), n); }
    case RevertTxn(n) =>
      if HasStatus(db.rows, n, RUNNING) { UnsettledKeepsStatus(db, Revert(db, n), n); }
    case CompleteTxn(n, outcome) =>
      if HasStatus(db.rows, n, RUNNING) {
        match outcome
        case Success(output) => SucceedKeepsStatus(w, db, n, output);
        case Failure => FailKeepsStatus(db, n);
      }
    case RetryTxn(n) =>
      if CanRetry(db, n) { UnsettledKeepsStatus(db, Retry(db, n), n); }
    case ResolveTxn(k) =>
    case NoTxn =>
  }

  lemma SucceedKeepsStatus(w: Workflow, db: Db, n: NodeId, output: Payload)
    requires StatusInv(db) && Books(db) && RowsShape(w, db.rows) && HasStatus(db.rows, n, RUNNING)
    ensures StatusInv(Succeed(w, db, n, output))
  {
    var after := Succeed(w, db, n, output);
    SuccessKeepsShape(w, db.rows, n, output);
    SucceedKeepsBooks(w, db, n, output);
    assert db.rows[n].status == RUNNING;
    if db.ledger == [] {
      forall x | x in after.rows ensures RowShape(w, x, after.rows[x]) && after.rows[x].status != DEAD_LETTERED {
        if after.rows[x].status == DEAD_LETTERED { DeadLetteredIsRecorded(after, x); }
      }
      assert !AnyFailed(after.rows);
      assert AllTerminal(after.rows) <==> AllSettledWell(after.rows);
    }
  }

  // ----- causal order -----

  ghost predicate HappenedBefore(history: seq<Event>, e: Event, i: nat)
    requires i <= |history|
  {
    exists j :: 0 <= j < i && history[j] == e
  }

  /** Whenever a node starts, every ancestor succeeded strictly earlier. */
  ghost predicate CausalHistory(w: Workflow, history: seq<Event>) {
    forall i, a :: 0 <= i < |history| && history[i].NodeStarted? && Reaches(w.edges, a, history[i].node) ==>
      HappenedBefore(history, NodeSucceeded(a), i)
  }

  lemma HistoryExtends(w: Workflow, history: seq<Event>, e: Event)
    requires CausalHistory(w, history)
    requires e.NodeStarted? ==> forall a :: Reaches(w.edges, a, e.node) ==> NodeSucceeded(a) in history
    ensures CausalHistory(w, history + [e])
  {
    var longer := history + [e];
    forall i, a | 0 <= i < |longer| && longer[i].NodeStarted? && Reaches(w.edges, a, longer[i].node)
      ensures HappenedBefore(longer, NodeSucceeded(a), i)
    {
      if i < |history| {
        assert history[i] == longer[i];
        assert HappenedBefore(history, NodeSucceeded(a), i);
        var j :| 0 <= j < i && history[j] == NodeSucceeded(a);
        assert longer[j] == NodeSucceeded(a);
      } else {
        assert NodeSucceeded(a) in history;
        var j :| 0 <= j < |history| && history[j] == NodeSucceeded(a);
        assert longer[j] == NodeSucceeded(a);
      }
    }
  }

  lemma ClaimKeepsCausalHistory(w: Workflow, db: Db, n: NodeId)
    requires CausalHistory(w, db.history) && Causal(w, db.rows) && Books(db)
    requires HasStatus(db.rows, n, QUEUED)
    ensures CausalHistory(w, Claim(db, n).history)
  {
    forall a | Reaches(w.edges, a, n) ensures NodeSucceeded(a) in db.history {
      AncestorsSucceeded(w, db.rows, a, n);
      assert BalancedAt(db, a);
      TallyWitness(db.history, a);
    }
    HistoryExtends(w, db.history, NodeStarted(n));
  }

  lemma CommitKeepsCausalHistory(w: Workflow, db: Db, txn: Txn)
    requires CausalHistory(w, db.history) && Causal(w, db.rows) && Books(db) && TxnOk(w, txn)
    ensures CausalHistory(w, Commit(w, db, txn).history)
  {
    match txn
    case ClaimTxn(n) =>
      if HasStatus(db.rows, n, QUEUED) { ClaimKeepsCausalHistory(w, db, n); }
    case RevertTxn(n) => HistoryExtends(w, db.history, NodeReverted(n));
    case CompleteTxn(n, outcome) =>
      HistoryExtends(w, db.history, NodeSucceeded(n));
      HistoryExtends(w, db.history, NodeFailed(n));
      HistoryExtends(w, db.history + [NodeFailed(n)], NodeDeadLettered(n));
      assert db.history + [NodeFailed(n), NodeDeadLettered(n)] == db.history + [NodeFailed(n)] + [NodeDeadLettered(n)];
    case RetryTxn(n) => HistoryExtends(w, db.history, NodeRetried(n));
    case ResolveTxn(_) =>
    case NoTxn =>
  }

  // ----- names -----

  /** Ledger and history speak only of nodes of the workflow. */
  ghost predicate Named(db: Db) {
    && (forall k :: 0 <= k < |db.ledger| ==> db.ledger[k].node in db.rows)
    && (forall k :: 0 <= k < |db.history| ==> db.history[k].node in db.rows)
  }

  lemma CommitKeepsNamed(w: Workflow, db: Db, txn: Txn)
    requires Named(db) && TxnOk(w, txn)
    ensures Named(Commit(w, db, txn))
  {
    if txn.CompleteTxn? && HasStatus(db.rows, txn.node, RUNNING) && txn.outcome.Success? {
      SuccessEffect(w, db.rows, txn.node, txn.outcome.output);
    }
  }

  /** The ledger is empty exactly as long as no node was ever dead-lettered. */
  lemma LedgerIsHistory(db: Db)
    requires Books(db) && Named(db)
    ensures db.ledger != [] <==> exists n :: NodeDeadLettered(n) in db.history
  {
    if db.ledger != [] {
      var n := db.ledger[|db.ledger| - 1].node;
      assert BalancedAt(db, n) && RecordedAttempts(db.ledger, n) != [];
      TallyWitness(db.history, n);
    }
    if n :| NodeDeadLettered(n) in db.history {
      var k :| 0 <= k < |db.history| && db.history[k] == NodeDeadLettered(n);
      assert db.history[k].node in db.rows && BalancedAt(db, n);
      TallyWitness(db.history, n);
    }
  }

  // ----- all of it -----

  ghost predicate DbInv(w: Workflow, db: Db) {
    && RowsInv(w, db.rows)
    && Books(db)
    && LedgerOpen(db)
    && StatusInv(db)
    && CausalHistory(w, db.history)
    && Named(db)
  }

  /** Any transaction, in any order, keeps every invariant of the committed state. */
  lemma CommitKeepsInv(w: Workflow, db: Db, txn: Txn)
    requires DbInv(w, db) && TxnOk(w, txn)
    ensures DbInv(w, Commit(w, db, txn))
  {
    CommitKeepsRows(w, db, txn);
    CommitKeepsBooks(w, db, txn);
    CommitKeepsLedgerOpen(w, db, txn);
    CommitKeepsStatus(w, db, txn);
    CommitKeepsCausalHistory(w, db, txn);
    CommitKeepsNamed(w, db, txn);
  }

  lemma StartedInv(w: Workflow)
    requires ValidWorkflow(w) && w.nodes != []
    ensures DbInv(w, Started(w))
  {
    StartedRowsInv(w);
    StartedBooks(w);
    var rows := Started(w).rows;
    var n := w.nodes[0].id;
    assert n == Ids(w.nodes)[0] && n in rows;
    assert !(rows[n].status in {SUCCEEDED, SKIPPED});
  }
}
