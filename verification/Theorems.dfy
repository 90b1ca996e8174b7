/** The guarantees of the engine over whole runs: any workflow the validator
    accepts with at least one node, any interleaving of workers, recovery loops,
    crashes and API calls, any executor outcomes. */
module Theorems {
  import opened Graph
  import opened Model
  import opened Transactions
  import opened Invariants
  import opened Histories
  import opened Protocol
  import opened Safety
  import opened Publishing
  import opened Delivery

  /** A run of a workflow that has at least one node. */
  ghost predicate Execution(w: Workflow, states: seq<System>, steps: seq<Step>) {
    ValidWorkflow(w) && w.nodes != [] && Run(w, states, steps)
  }

  /** SUCCEEDED and SKIPPED nodes never change again, a SUCCEEDED execution is frozen under every
      later step, and FAILED and RETRYING are never committed. */
  lemma AbsorbingStates(w: Workflow, states: seq<System>, steps: seq<Step>, i: nat, j: nat)
    requires Execution(w, states, steps) && i <= j < |states|
    ensures forall n :: IsNode(w, n) <==> n in states[i].db.rows
    ensures forall n :: n in states[i].db.rows && states[i].db.rows[n].status in {SUCCEEDED, SKIPPED} ==>
      n in states[j].db.rows && states[j].db.rows[n] == states[i].db.rows[n]
    ensures states[i].db.status == EXEC_SUCCEEDED ==> states[j].db == states[i].db
    ensures forall n :: n in states[i].db.rows ==> states[i].db.rows[n].status !in {FAILED, RETRYING}
  {
    RunInv(w, states, steps, i);
    RunEvolves(w, states, steps, i, j);
    forall n | n in states[i].db.rows
      ensures states[i].db.rows[n].status !in {FAILED, RETRYING}
      ensures states[i].db.rows[n].status in {SUCCEEDED, SKIPPED} ==> states[j].db.rows[n] == states[i].db.rows[n]
    {
      assert RowShape(w, n, states[i].db.rows[n]);
      assert RowEvolves(states[i].db.rows[n], states[j].db.rows[n]);
    }
  }

  /** In every state of every run each node has the attempt limit of its own retry policy, else of the
      workflow's, else 3; no step changes it. */
  lemma LimitsAreConfigured(w: Workflow, states: seq<System>, steps: seq<Step>, i: nat, d: NodeDef)
    requires Execution(w, states, steps) && i < |states| && d in w.nodes
    ensures d.id in states[i].db.rows && LimitOf(w, d, states[i].db.rows[d.id].maxAttempts)
  {
    RunInv(w, states, steps, i);
    NodeHasDef(w.nodes, d.id);
    DefIsOwn(w.nodes, d);
    assert RowShape(w, d.id, states[i].db.rows[d.id]);
  }

  /** The execution status is a function of the history: FAILED as soon as some node was ever
      dead-lettered, else SUCCEEDED once every node is SUCCEEDED or SKIPPED, else RUNNING. */
  lemma ExecutionStatusIsHistory(w: Workflow, states: seq<System>, steps: seq<Step>, i: nat)
    requires Execution(w, states, steps) && i < |states|
    ensures
      var db := states[i].db;
      var dead := exists n :: NodeDeadLettered(n) in db.history;
      && (dead <==> db.ledger != [])
      && (db.status == EXEC_FAILED <==> dead)
      && (db.status == EXEC_SUCCEEDED <==> !dead && AllSettledWell(db.rows))
      && (db.status == EXEC_RUNNING <==> !dead && !AllSettledWell(db.rows))
  {
    RunInv(w, states, steps, i);
    LedgerIsHistory(states[i].db);
  }

  /** When nothing is QUEUED or RUNNING, every PENDING node waits for a DEAD_LETTERED ancestor. */
  lemma NoDeadlock(w: Workflow, states: seq<System>, steps: seq<Step>, i: nat, n: NodeId) returns (a: NodeId)
    requires Execution(w, states, steps) && i < |states|
    requires HasStatus(states[i].db.rows, n, PENDING) && forall x :: !Active(states[i].db.rows, x)
    ensures Reaches(w.edges, a, n) && HasStatus(states[i].db.rows, a, DEAD_LETTERED)
  {
    RunInv(w, states, steps, i);
    a := StuckBelowDeadLetter(w, states[i].db.rows, n);
  }

  lemma StuckBelowDeadLetter(w: Workflow, rows: map<NodeId, NodeRow>, n: NodeId) returns (a: NodeId)
    requires RowsInv(w, rows) && HasStatus(rows, n, PENDING) && forall x :: !Active(rows, x)
    ensures Reaches(w.edges, a, n) && HasStatus(rows, a, DEAD_LETTERED)
  {
    var order := AcyclicHasOrder(Ids(w.nodes), w.edges);
    TopologicalCovers(Ids(w.nodes), w.edges, order, n);
    var k :| 0 <= k < |order| && order[k] == n;
    a := PendingHasDeadAncestor(w, rows, order, k);
  }

  /** A RUNNING execution always has a QUEUED or a RUNNING node. */
  lemma RunningHasWork(w: Workflow, states: seq<System>, steps: seq<Step>, i: nat) returns (n: NodeId)
    requires Execution(w, states, steps) && i < |states| && states[i].db.status == EXEC_RUNNING
    ensures Active(states[i].db.rows, n)
  {
    RunInv(w, states, steps, i);
    n := UnsettledHasWork(w, states[i].db);
  }

  lemma UnsettledHasWork(w: Workflow, db: Db) returns (n: NodeId)
    requires RowsInv(w, db.rows) && Books(db) && StatusInv(db) && db.status == EXEC_RUNNING
    ensures Active(db.rows, n)
  {
    if x :| Active(db.rows, x) {
      n := x;
    } else {
      var x :| x in db.rows && db.rows[x].status !in {SUCCEEDED, SKIPPED};
      assert RowShape(w, x, db.rows[x]) && !Active(db.rows, x);
      if db.rows[x].status == PENDING {
        var a := StuckBelowDeadLetter(w, db.rows, x);
        DeadLetteredIsRecorded(db, a);
      } else {
        DeadLetteredIsRecorded(db, x);
      }
      assert false;
    }
  }

  /** For every node: applied outcomes, plus one while it is QUEUED or RUNNING, make up `attempt`; claims,
      plus one while QUEUED, make up `attempt` plus recovery reverts.  So no attempt gets two outcomes. */
  lemma AttemptConservation(w: Workflow, states: seq<System>, steps: seq<Step>, i: nat, n: NodeId)
    requires Execution(w, states, steps) && i < |states| && IsNode(w, n)
    ensures n in states[i].db.rows
    ensures
      var row, t := states[i].db.rows[n], TallyOf(states[i].db.history, n);
      && t.succeeded + t.failed + (if row.status in {QUEUED, RUNNING} then 1 else 0) == row.attempt
      && t.started + (if row.status == QUEUED then 1 else 0) == row.attempt + t.reverted
      && t.succeeded == (if row.status == SUCCEEDED then 1 else 0)
      && row.attempt <= row.maxAttempts + t.retried
  {
    RunInv(w, states, steps, i);
    assert BalancedAt(states[i].db, n);
  }

  /** For every node: ledger rows are manual retries, plus one while DEAD_LETTERED; the k-th row records
      `max_attempts + k` attempts; at most one row is unresolved, and only while DEAD_LETTERED, so the
      single-row lookup of a manual retry always goes through. */
  lemma DeadLetterLedger(w: Workflow, states: seq<System>, steps: seq<Step>, i: nat, n: NodeId)
    requires Execution(w, states, steps) && i < |states| && IsNode(w, n)
    ensures n in states[i].db.rows
    ensures
      var db := states[i].db;
      var row, recorded := db.rows[n], RecordedAttempts(db.ledger, n);
      && |recorded| == TallyOf(db.history, n).retried + (if row.status == DEAD_LETTERED then 1 else 0)
      && (forall k :: 0 <= k < |recorded| ==> recorded[k] == row.maxAttempts + k)
      && |Unresolved(db.ledger, n)| <= 1
      && (Unresolved(db.ledger, n) != {} ==> row.status == DEAD_LETTERED)
      && (CanRetry(db, n) <==> row.status == DEAD_LETTERED)
  {
    RunInv(w, states, steps, i);
    assert BalancedAt(states[i].db, n);
    AtMostOneUnresolved(states[i].db, n);
  }

  /** Whenever a node starts, every ancestor succeeded strictly earlier in the committed history. */
  lemma CausalOrder(w: Workflow, states: seq<System>, steps: seq<Step>, i: nat, k: nat, a: NodeId)
    requires Execution(w, states, steps) && i < |states| && k < |states[i].db.history|
    requires states[i].db.history[k].NodeStarted? && Reaches(w.edges, a, states[i].db.history[k].node)
    ensures exists j :: 0 <= j < k && states[i].db.history[j] == NodeSucceeded(a)
  {
    RunInv(w, states, steps, i);
    assert HappenedBefore(states[i].db.history, NodeSucceeded(a), k);
  }

  /** What an executor is handed are the outputs of exactly the parents of its node, all SUCCEEDED, and
      no later state of the run ever shows other outputs. */
  lemma InputsAreFinal(w: Workflow, states: seq<System>, steps: seq<Step>, i: nat, j: nat, t: nat)
    requires Execution(w, states, steps) && i <= j < |states|
    requires t < |states[i].tasks| && states[i].tasks[t].Executing?
    ensures
      var task := states[i].tasks[t];
      && task.msg < |states[i].stream|
      && var n := NodeOf(states[i], task.msg);
         && (forall p :: p in task.upstream <==> Edge(p, n) in w.edges)
         && (forall p :: p in task.upstream ==>
               HasStatus(states[j].db.rows, p, SUCCEEDED) && task.upstream[p] == states[j].db.rows[p].output)
  {
    RunInv(w, states, steps, i);
    RunEvolves(w, states, steps, i, j);
    var task := states[i].tasks[t];
    assert TaskOk(w, states[i], task);
    ParentsAreFinal(w, states[i].db, states[j].db, NodeOf(states[i], task.msg));
  }

  lemma ParentsAreFinal(w: Workflow, before: Db, after: Db, n: NodeId)
    requires RowsInv(w, before.rows) && Evolves(before, after)
    requires n in before.rows && !Untouched(before.rows[n].status)
    ensures forall p :: p in UpstreamOf(w, before.rows, n) <==> Edge(p, n) in w.edges
    ensures forall p :: Edge(p, n) in w.edges ==>
      HasStatus(after.rows, p, SUCCEEDED) && UpstreamOf(w, before.rows, n)[p] == after.rows[p].output
  {
    forall p | Edge(p, n) in w.edges
      ensures HasStatus(before.rows, p, SUCCEEDED) &&
        HasStatus(after.rows, p, SUCCEEDED) && after.rows[p] == before.rows[p]
    {
      assert Edge(p, n).to == n;
      assert RowEvolves(before.rows[p], after.rows[p]);
    }
  }

  /** Every child of a SKIPPED node is SKIPPED. */
  lemma SkippingIsClosed(w: Workflow, states: seq<System>, steps: seq<Step>, i: nat, a: NodeId, c: NodeId)
    requires Execution(w, states, steps) && i < |states|
    requires HasStatus(states[i].db.rows, a, SKIPPED) && Edge(a, c) in w.edges
    ensures HasStatus(states[i].db.rows, c, SKIPPED)
  {
    RunInv(w, states, steps, i);
    assert HasStatus(states[i].db.rows, Edge(a, c).from, SKIPPED);
  }

  // ----- the empty workflow -----

  ghost predicate Idle(s: System) {
    s.stream == [] && forall t :: 0 <= t < |s.tasks| ==> s.tasks[t].Stopped? || s.tasks[t] == Finishing(None, [])
  }

  lemma ListsSomething(jobs: seq<Job>, owed: set<Job>)
    requires Lists(jobs, owed)
    ensures jobs != [] ==> owed != {}
  {
    if jobs != [] { assert jobs[0] in owed; }
  }

  lemma EmptyStep(w: Workflow, s: System, step: Step, s': System)
    requires s.db.rows == map[] && s.db.ledger == [] && Idle(s) && StepTo(w, s, step, s')
    ensures s'.db == s.db && Idle(s')
  {
  }

  /** The validator accepts a workflow without nodes, but no run of it ever leaves RUNNING: the status is
      the one read off the history exactly for workflows that have a node. */
  lemma {:induction false} EmptyWorkflowNeverFinishes(w: Workflow, states: seq<System>, steps: seq<Step>, i: nat)
    requires w.nodes == [] && Run(w, states, steps) && i < |states|
    ensures states[i].db == Started(w) && states[i].db.status == EXEC_RUNNING && Idle(states[i])
    ensures StatusFromHistory(states[i].db) == EXEC_SUCCEEDED
    decreases i
  {
    assert Ids(w.nodes) == [] && Started(w).rows == map[];
    if i == 0 {
      assert RootJobs(w) == {};
      ListsSomething(states[0].tasks[0].owed, RootJobs(w));
    } else {
      EmptyWorkflowNeverFinishes(w, states, steps, i - 1);
      EmptyStep(w, states[i - 1], steps[i - 1], states[i]);
    }
  }

  // ----- the publish log -----

  lemma {:induction false} IssuedAlong(w: Workflow, states: seq<System>, steps: seq<Step>, i: nat)
    requires Run(w, states, steps) && i < |states|
    ensures IssuedAtMostOnce(states[i])
    ensures (forall k :: 0 <= k < i ==> !LosesOwed(states[k], steps[k])) ==> IssuedExactly(states[i])
    decreases i
  {
    if i == 0 {
      InitIssued(w, states[0]);
    } else {
      IssuedAlong(w, states, steps, i - 1);
      StepKeepsIssued(w, states[i - 1], steps[i - 1], states[i]);
    }
  }

  lemma StreamIsDistinct(s: System, a: nat, b: nat)
    requires IssuedAtMostOnce(s) && a < b < |s.stream|
    ensures s.stream[a].job != s.stream[b].job
  {
    var job := s.stream[a].job;
    assert Issued(s, job) <= Due(s.db.rows, job);
    if job == s.stream[b].job { PublishedTwice(s.stream, a, b); }
  }

  lemma EntryIsDue(s: System, m: nat)
    requires IssuedAtMostOnce(s) && m < |s.stream|
    ensures
      var job := s.stream[m].job;
      job.node in s.db.rows && 1 <= job.attempt <= s.db.rows[job.node].attempt
  {
    var job := s.stream[m].job;
    PublishedIsInStream(s.stream, job);
    assert Issued(s, job) <= Due(s.db.rows, job);
  }

  /** No two stream entries ever carry the same (node, attempt), and every entry names an attempt its node
      has begun: duplicate edges, joins reached from several parents and stale workers publish nothing twice. */
  lemma PublishedAtMostOnce(w: Workflow, states: seq<System>, steps: seq<Step>, i: nat)
    requires Run(w, states, steps) && i < |states|
    ensures
      var s := states[i];
      && (forall a, b :: 0 <= a < b < |s.stream| ==> s.stream[a].job != s.stream[b].job)
      && (forall m :: 0 <= m < |s.stream| ==>
            var job := s.stream[m].job;
            job.node in s.db.rows && 1 <= job.attempt <= s.db.rows[job.node].attempt)
  {
    IssuedAlong(w, states, steps, i);
    var s := states[i];
    forall a, b | 0 <= a < b < |s.stream| ensures s.stream[a].job != s.stream[b].job { StreamIsDistinct(s, a, b); }
    forall m | 0 <= m < |s.stream|
      ensures s.stream[m].job.node in s.db.rows &&
        1 <= s.stream[m].job.attempt <= s.db.rows[s.stream[m].job.node].attempt
    {
      EntryIsDue(s, m);
    }
  }

  ghost predicate OwesNothing(s: System) {
    forall t :: 0 <= t < |s.tasks| && s.tasks[t].Finishing? ==> s.tasks[t].owed == []
  }

  lemma {:induction false} NothingOwed(tasks: seq<Task>, job: Job)
    requires forall t :: 0 <= t < |tasks| && tasks[t].Finishing? ==> tasks[t].owed == []
    ensures Owed(tasks, job) == 0
    decreases |tasks|
  {
    if tasks != [] { NothingOwed(tasks[..|tasks| - 1], job); }
  }

  /** When no publisher died in its loop and none still owes a job, the published attempts of each node are
      exactly 1 to `attempt`. */
  lemma PublishLogIsComplete(w: Workflow, states: seq<System>, steps: seq<Step>, i: nat, job: Job)
    requires Execution(w, states, steps) && i < |states| && OwesNothing(states[i])
    requires forall k :: 0 <= k < i ==> !LosesOwed(states[k], steps[k])
    requires IsNode(w, job.node)
    ensures job.node in states[i].db.rows
    ensures (exists m :: 0 <= m < |states[i].stream| && states[i].stream[m].job == job) <==>
            1 <= job.attempt <= states[i].db.rows[job.node].attempt
  {
    assert job.node in states[i].db.rows by { RunInv(w, states, steps, i); }
    IssuedAlong(w, states, steps, i);
    NothingOwed(states[i].tasks, job);
    PublishedIsInStream(states[i].stream, job);
    assert Issued(states[i], job) == Due(states[i].db.rows, job);
  }

  // ----- no job is lost -----

  lemma NextLosesNothing(w: Workflow, s: System, step: Step, s': System)
    requires Ownership(s) && NothingLost(s) && Careful(s, step) && StepTo(w, s, step, s')
    requires s.db.rows.Keys == s'.db.rows.Keys
    ensures Ownership(s') && NothingLost(s')
  {
    StepKeepsOwnership(w, s, step, s');
    StepKeepsJobs(w, s, step, s');
  }

  lemma {:induction false} NothingLostAlong(w: Workflow, states: seq<System>, steps: seq<Step>, i: nat)
    requires ValidWorkflow(w) && w.nodes != [] && CarefulRun(w, states, steps) && i < |states|
    ensures Ownership(states[i]) && NothingLost(states[i])
    decreases i
  {
    hide Ownership, NothingLost, Careful, StepTo;
    if i == 0 {
      InitNothingLost(w, states[0]);
    } else {
      NothingLostAlong(w, states, steps, i - 1);
      RunStepEvolves(w, states, steps, i - 1);
      NextLosesNothing(w, states[i - 1], steps[i - 1], states[i]);
    }
  }

  /** If no process dies between a commit and the end of its publish loop, and no entry is claimed from a
      task still working on it, then every QUEUED or RUNNING node has an entry that is neither
      acknowledged nor finished, or is owed by a live publisher. */
  lemma NoJobLost(w: Workflow, states: seq<System>, steps: seq<Step>, i: nat, n: NodeId)
    requires ValidWorkflow(w) && w.nodes != [] && CarefulRun(w, states, steps) && i < |states|
    requires Active(states[i].db.rows, n)
    ensures
      var s := states[i];
      || (exists m ::
            0 <= m < |s.stream| && NodeOf(s, m) == n && !s.stream[m].delivery.Acked? && PhaseOf(s, m) != Finished)
      || (exists t :: OwesNode(s, t, n))
  {
    NothingLostAlong(w, states, steps, i);
    var s := states[i];
    if m: nat :| WaitingFor(s, m, n) || WorkingFor(s, m, n) {
      assert 0 <= m < |s.stream| && NodeOf(s, m) == n && !s.stream[m].delivery.Acked? && PhaseOf(s, m) != Finished;
    } else {
      assert s.db.rows[n].status == QUEUED ==> QueuedCovered(s, n);
      assert s.db.rows[n].status == RUNNING ==> RunningCovered(s, n);
    }
  }
}
