/** What recovery and users can mend: the death of every worker at once, and a
    dead-lettered node that is retried by hand. */
module Repair {
  import opened Graph
  import opened Model
  import opened Transactions
  import opened Invariants
  import opened Histories
  import opened Protocol
  import opened Safety
  import opened Publishing
  import opened Delivery
  import opened Progress
  import opened Theorems

  lemma CarefulRunsAreSound(w: Workflow, states: seq<System>, steps: seq<Step>, i: nat)
    requires ValidWorkflow(w) && w.nodes != [] && CarefulRun(w, states, steps) && i < |states|
    ensures Sound(w, states[i])
  {
    RunInv(w, states, steps, i);
    NothingLostAlong(w, states, steps, i);
  }

  // ----- the death of all workers -----

  ghost predicate Owes(task: Task) {
    task.Finishing? && task.owed != []
  }

  /** The state after the first `k` tasks died, except those that still owe publishes. */
  ghost function Killed(s: System, k: nat): System
    requires k <= |s.tasks|
  {
    s.(tasks := seq(|s.tasks|, t requires 0 <= t < |s.tasks| =>
      if t < k && !Owes(s.tasks[t]) then Stopped else s.tasks[t]))
  }

  lemma KillOne(w: Workflow, exec: Executor, s: System, k: nat)
    requires k < |s.tasks| && !Owes(s.tasks[k])
    ensures DrivenStep(w, exec, Killed(s, k), Crash(k), Killed(s, k + 1))
  {
    assert Killed(s, k + 1).tasks == Killed(s, k).tasks[k := Stopped];
  }

  lemma KillNext(w: Workflow, exec: Executor, s: System, k: nat)
    requires k < |s.tasks| && Sound(w, Killed(s, k))
    ensures CanReach(w, exec, Killed(s, k), Killed(s, k + 1)) && Sound(w, Killed(s, k + 1))
  {
    hide Sound, Killed, CanReach, StepTo;
    CanReachSelf(w, exec, Killed(s, k + 1));
    if Owes(s.tasks[k]) {
      KillNone(s, k);
    } else {
      KillOne(w, exec, s, k);
      StepKeepsSound(w, Killed(s, k), Crash(k), Killed(s, k + 1));
      CanReachThen(w, exec, Killed(s, k), Crash(k), Killed(s, k + 1), Killed(s, k + 1));
    }
  }

  lemma KillNone(s: System, k: nat)
    requires k < |s.tasks| && Owes(s.tasks[k])
    ensures Killed(s, k + 1) == Killed(s, k)
  {
    assert Killed(s, k + 1).tasks == Killed(s, k).tasks;
  }

  lemma {:induction false} KillMany(w: Workflow, exec: Executor, s: System, k: nat)
    requires Sound(w, s) && k <= |s.tasks|
    ensures CanReach(w, exec, s, Killed(s, k)) && Sound(w, Killed(s, k))
    decreases k
  {
    hide Sound, CanReach;
    if k == 0 {
      assert Killed(s, 0).tasks == s.tasks;
      CanReachSelf(w, exec, s);
    } else {
      KillMany(w, exec, s, k - 1);
      KillNext(w, exec, s, k - 1);
      CanReachTransitive(w, exec, s, Killed(s, k - 1), Killed(s, k));
    }
  }

  /** In any state of a careful run all processes that owe no publishes may die at once: nothing but
      their tasks changes, and still every active node can be driven to its next outcome, and the whole
      execution to rest. */
  lemma AllWorkersMayDie(w: Workflow, exec: Executor, states: seq<System>, steps: seq<Step>, i: nat)
    returns (dead: System, s': System)
    requires ValidWorkflow(w) && w.nodes != [] && CarefulRun(w, states, steps) && i < |states|
    ensures CanReach(w, exec, states[i], dead) && dead.db == states[i].db && dead.stream == states[i].stream
    ensures |dead.tasks| == |states[i].tasks| && forall t :: 0 <= t < |dead.tasks| ==>
      dead.tasks[t] == if Owes(states[i].tasks[t]) then states[i].tasks[t] else Stopped
    ensures forall n :: Active(dead.db.rows, n) ==> exists s1 :: Advanced(w, exec, dead, s1, n)
    ensures CanReach(w, exec, dead, s') && Quiescent(s')
  {
    CarefulRunsAreSound(w, states, steps, i);
    KillMany(w, exec, states[i], |states[i].tasks|);
    dead := Killed(states[i], |states[i].tasks|);
    forall n | Active(dead.db.rows, n) ensures exists s1 :: Advanced(w, exec, dead, s1, n) {
      var s1 := DriveNode(w, exec, dead, n);
    }
    s' := CanQuiesce(w, exec, dead);
  }

  // ----- manual retry -----

  /** What the executor makes of the node from the outputs its parents have now. */
  ghost function OutcomeNow(w: Workflow, exec: Executor, db: Db, n: NodeId): Outcome {
    exec(n, UpstreamOf(w, db.rows, n))
  }

  /** The retried node is still on its attempt, or has met the outcome. */
  ghost predicate Met(db: Db, n: NodeId, outcome: Outcome) {
    && n in db.rows
    && var row := db.rows[n];
       match outcome
       case Success(output) =>
         row.status in {QUEUED, RUNNING} || (row.status == SUCCEEDED && row.output == Some(output))
       case Failure => row.status in {QUEUED, RUNNING, DEAD_LETTERED} && row.attempt >= row.maxAttempts
  }

  lemma CommitKeepsMet(w: Workflow, db: Db, txn: Txn, n: NodeId, outcome: Outcome)
    requires TxnOk(w, txn) && Met(db, n, outcome)
    requires txn.CompleteTxn? && txn.node == n && HasStatus(db.rows, n, RUNNING) ==> txn.outcome == outcome
    ensures Met(Commit(w, db, txn), n, outcome)
  {
    if txn.CompleteTxn? && txn.outcome.Success? && HasStatus(db.rows, txn.node, RUNNING) {
      SuccessEffect(w, db.rows, txn.node, txn.outcome.output);
      assert SuccessAt(w, db.rows, txn.node, txn.outcome.output, n);
    }
  }

  /** Whoever completes `n` reports what the executor makes of its parents' outputs. */
  lemma ReportsOutcome(w: Workflow, exec: Executor, s: System, step: Step, n: NodeId)
    requires TasksOk(w, s) && Enabled(w, s, step) && Obeys(exec, s, step)
    ensures TxnOf(w, s, step).CompleteTxn? && TxnOf(w, s, step).node == n ==>
      TxnOf(w, s, step).outcome == OutcomeNow(w, exec, s.db, n)
  {
    if step.CompleteStep? { assert TaskOk(w, s, s.tasks[step.task]); }
    hide OwedAfter, UpstreamOf;
  }

  lemma OutcomeStays(w: Workflow, exec: Executor, before: Db, after: Db, n: NodeId, outcome: Outcome)
    requires RowsInv(w, before.rows) && Evolves(before, after) && Met(before, n, outcome)
    ensures OutcomeNow(w, exec, after, n) == OutcomeNow(w, exec, before, n)
  {
    UpstreamStable(w, before, after, n);
  }

  lemma StepKeepsMet(w: Workflow, exec: Executor, s: System, step: Step, s': System, n: NodeId, outcome: Outcome)
    requires SystemInv(w, s) && DrivenStep(w, exec, s, step, s') && Met(s.db, n, outcome)
    requires OutcomeNow(w, exec, s.db, n) == outcome
    ensures SystemInv(w, s') && Met(s'.db, n, outcome) && OutcomeNow(w, exec, s'.db, n) == outcome
  {
    hide Met, OutcomeNow, Evolves, RowsInv, TasksOk, Commit, NextStream, NextTasks, Enabled, Careful, TxnOf;
    StepKeepsInv(w, s, step, s');
    ReportsOutcome(w, exec, s, step, n);
    OutcomeStays(w, exec, s.db, s'.db, n, outcome);
    CommitKeepsMet(w, s.db, TxnOf(w, s, step), n, outcome);
  }

  lemma {:induction false} PathKeepsMet(w: Workflow, exec: Executor, states: seq<System>, steps: seq<Step>, k: nat,
                                        n: NodeId, outcome: Outcome)
    requires Path(w, exec, states, steps) && k <= |steps| && SystemInv(w, states[0])
    requires Met(states[0].db, n, outcome) && OutcomeNow(w, exec, states[0].db, n) == outcome
    ensures SystemInv(w, states[k]) && Met(states[k].db, n, outcome) && OutcomeNow(w, exec, states[k].db, n) == outcome
    decreases k
  {
    hide Met, OutcomeNow, SystemInv, DrivenStep;
    if k > 0 {
      PathKeepsMet(w, exec, states, steps, k - 1, n, outcome);
      assert DrivenStep(w, exec, states[k - 1], steps[k - 1], states[k]);
      StepKeepsMet(w, exec, states[k - 1], steps[k - 1], states[k], n, outcome);
    }
  }

  lemma ReachKeepsMet(w: Workflow, exec: Executor, s: System, s': System, n: NodeId)
    requires SystemInv(w, s) && Met(s.db, n, OutcomeNow(w, exec, s.db, n)) && CanReach(w, exec, s, s')
    ensures Met(s'.db, n, OutcomeNow(w, exec, s.db, n))
  {
    hide Met, OutcomeNow, SystemInv, DrivenStep;
    var states, steps :| PathFromTo(w, exec, s, s', states, steps);
    PathKeepsMet(w, exec, states, steps, |steps|, n, OutcomeNow(w, exec, s.db, n));
  }

  /** The committed state after a manual retry. */
  lemma RetryRequeues(db: Db, n: NodeId)
    requires Books(db) && LedgerOpen(db) && HasStatus(db.rows, n, DEAD_LETTERED)
    ensures CanRetry(db, n)
    ensures
      var after := Retry(db, n);
      && HasStatus(after.rows, n, QUEUED) && after.rows[n].attempt == db.rows[n].attempt + 1
      && after.rows[n].attempt > after.rows[n].maxAttempts && NodePotential(after, n) == 1
  {
    AtMostOneUnresolved(db, n);
    assert BalancedAt(db, n);
    TallyAppend(db.history, NodeRetried(n), n);
  }

  lemma DoRetry(w: Workflow, exec: Executor, s: System, n: NodeId) returns (s1: System)
    requires CanRetry(s.db, n)
    ensures DrivenStep(w, exec, s, RetryStep(n), s1) && s1.db == Retry(s.db, n)
  {
    s1 := System(Retry(s.db, n), s.stream, s.tasks + [Finishing(None, [Job(n, s.db.rows[n].attempt + 1)])]);
  }

  /** The node has succeeded with the output, or is dead. */
  ghost predicate Ended(rows: map<NodeId, NodeRow>, n: NodeId, outcome: Outcome) {
    match outcome
    case Success(output) => HasStatus(rows, n, SUCCEEDED) && rows[n].output == Some(output)
    case Failure => HasStatus(rows, n, DEAD_LETTERED)
  }

  /** A node on its last attempt meets the outcome of its executor. */
  lemma DriveLastAttempt(w: Workflow, exec: Executor, s: System, n: NodeId) returns (s': System)
    requires Sound(w, s) && HasStatus(s.db.rows, n, QUEUED) && NodePotential(s.db, n) == 1
    requires s.db.rows[n].attempt >= s.db.rows[n].maxAttempts && Books(s.db)
    ensures CanReach(w, exec, s, s') && Sound(w, s')
    ensures Ended(s'.db.rows, n, OutcomeNow(w, exec, s.db, n))
  {
    hide SystemInv, Ownership, NothingLost, CanReach, NoMorePotential, OnlySucceeds, OutcomeNow, NodePotential;
    s' := DriveNode(w, exec, s, n);
    ReachKeepsMet(w, exec, s, s', n);
    SpentIsInactive(w, s', n);
  }

  lemma SpentIsInactive(w: Workflow, s: System, n: NodeId)
    requires SystemInv(w, s) && n in s.db.rows && NodePotential(s.db, n) < 1
    ensures s.db.rows[n].status !in {QUEUED, RUNNING}
  {
    assert BalancedAt(s.db, n);
  }

  /** A manual retry of a DEAD_LETTERED node goes through in every state of a careful run and buys exactly
      one attempt, which can be driven to its outcome: the node succeeds if its executor now does, with
      what that puts out, and is DEAD_LETTERED again if not. */
  lemma RetryIsOneMoreAttempt(w: Workflow, exec: Executor, s: System, n: NodeId) returns (s1: System, s': System)
    requires Sound(w, s) && HasStatus(s.db.rows, n, DEAD_LETTERED)
    ensures DrivenStep(w, exec, s, RetryStep(n), s1) && CanReach(w, exec, s1, s') && Sound(w, s')
    ensures HasStatus(s1.db.rows, n, QUEUED) && s1.db.rows[n].attempt == s.db.rows[n].attempt + 1
    ensures Ended(s'.db.rows, n, exec(n, UpstreamOf(w, s.db.rows, n)))
  {
    hide Ownership, NothingLost, TasksOk, StreamOk, StepTo, CanReach, Retry, NodePotential, CanRetry, RowsInv, Books,
         LedgerOpen;
    RetryRequeues(s.db, n);
    s1 := DoRetry(w, exec, s, n);
    StepKeepsSound(w, s, RetryStep(n), s1);
    RetryKeepsInputs(w, exec, s.db, n);
    s' := DriveLastAttempt(w, exec, s1, n);
  }

  lemma RetryKeepsInputs(w: Workflow, exec: Executor, db: Db, n: NodeId)
    requires RowsInv(w, db.rows) && CanRetry(db, n)
    ensures OutcomeNow(w, exec, Retry(db, n), n) == exec(n, UpstreamOf(w, db.rows, n))
  {
    var after := Retry(db, n);
    forall p | Edge(p, n) in w.edges ensures p != n { EdgeReaches(w.edges, p, n); }
    assert UpstreamOf(w, after.rows, n) == UpstreamOf(w, db.rows, n);
  }

  /** Any ledger row may be resolved by hand at any time; that changes no node and takes no retry away. */
  lemma ResolvedCanBeRetried(w: Workflow, exec: Executor, s: System, k: nat, n: NodeId)
    returns (s0: System, s1: System, s': System)
    requires Sound(w, s) && HasStatus(s.db.rows, n, DEAD_LETTERED) && k < |s.db.ledger|
    ensures DrivenStep(w, exec, s, ResolveStep(k), s0)
    ensures s0.db.rows == s.db.rows && s0.db.ledger == ResolveRow(s.db.ledger, k)
    ensures DrivenStep(w, exec, s0, RetryStep(n), s1) && CanReach(w, exec, s1, s') && Sound(w, s')
    ensures Ended(s'.db.rows, n, exec(n, UpstreamOf(w, s.db.rows, n)))
  {
    s0 := DoResolve(w, exec, s, k);
    hide SystemInv, Ownership, NothingLost, StepTo, CanReach;
    StepKeepsSound(w, s, ResolveStep(k), s0);
    s1, s' := RetryIsOneMoreAttempt(w, exec, s0, n);
  }

  lemma DoResolve(w: Workflow, exec: Executor, s: System, k: nat) returns (s0: System)
    requires k < |s.db.ledger|
    ensures DrivenStep(w, exec, s, ResolveStep(k), s0)
    ensures s0.db.rows == s.db.rows && s0.db.ledger == ResolveRow(s.db.ledger, k)
  {
    s0 := System(s.db.(ledger := ResolveRow(s.db.ledger, k)), s.stream, s.tasks);
  }
}
