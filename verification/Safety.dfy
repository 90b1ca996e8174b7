/** What every run keeps, under any interleaving, duplicate delivery, stale
    worker, crash, recovery and manual retry. */
module Safety {
  import opened Graph
  import opened Model
  import opened Transactions
  import opened Invariants
  import opened Histories
  import opened Protocol

  // ----- what no transaction ever undoes -----

  predicate Absorbing(s: NodeStatus) {
    s in {SUCCEEDED, SKIPPED}
  }

  ghost predicate RowEvolves(before: NodeRow, after: NodeRow) {
    && (Absorbing(before.status) ==> after == before)
    && (!Untouched(before.status) ==> !Untouched(after.status))
    && before.attempt <= after.attempt
  }

  ghost predicate LedgerEvolves(before: seq<DeadLetter>, after: seq<DeadLetter>) {
    && |before| <= |after|
    && forall k :: 0 <= k < |before| ==>
         && before[k].node == after[k].node
         && before[k].attempts == after[k].attempts
         && (before[k].resolved ==> after[k].resolved)
  }

  /** SUCCEEDED and SKIPPED rows are frozen, started nodes stay started, and the
      ledger and the history only grow. */
  ghost predicate Evolves(before: Db, after: Db) {
    && before.rows.Keys == after.rows.Keys
    && (forall n :: n in before.rows ==> RowEvolves(before.rows[n], after.rows[n]))
    && LedgerEvolves(before.ledger, after.ledger)
    && before.history <= after.history
    && (before.status == EXEC_SUCCEEDED ==> after == before)
  }

  lemma CommitEvolves(w: Workflow, db: Db, txn: Txn)
    requires TxnOk(w, txn) && StatusInv(db)
    ensures Evolves(db, Commit(w, db, txn))
  {
    if txn.CompleteTxn? && HasStatus(db.rows, txn.node, RUNNING) && txn.outcome.Success? {
      SucceedEvolves(w, db, txn.node, txn.outcome.output);
    } else {
      assert db.status == EXEC_SUCCEEDED ==> AllSettledWell(db.rows) && db.ledger == [];
    }
  }

  lemma SucceedEvolves(w: Workflow, db: Db, n: NodeId, output: Payload)
    requires IsNode(w, n) && HasStatus(db.rows, n, RUNNING) && StatusInv(db)
    ensures Evolves(db, Succeed(w, db, n, output))
  {
    SuccessEffect(w, db.rows, n, output);
    var after := Succeed(w, db, n, output);
    forall x | x in db.rows ensures RowEvolves(db.rows[x], after.rows[x]) {
      assert SuccessAt(w, db.rows, n, output, x);
    }
    assert !AllSettledWell(db.rows);
  }

  lemma EvolvesTransitive(a: Db, b: Db, c: Db)
    requires Evolves(a, b) && Evolves(b, c)
    ensures Evolves(a, c)
  {
    forall n | n in a.rows ensures RowEvolves(a.rows[n], c.rows[n]) {
      assert RowEvolves(a.rows[n], b.rows[n]);
      assert RowEvolves(b.rows[n], c.rows[n]);
    }
  }

  // ----- tasks -----

  /** A task that claimed its node works on a started node, with the final outputs of all its parents. */
  ghost predicate TaskOk(w: Workflow, s: System, task: Task) {
    task.Stopped? ||
    (&& HasMessage(s, task)
     && (task.Reading? || task.Executing? ==> StartedNode(s, NodeOf(s, task.msg)))
     && (task.Executing? ==> task.upstream == UpstreamOf(w, s.db.rows, NodeOf(s, task.msg)))
     && (task.Finishing? ==> forall j :: j in task.owed ==> j.node in s.db.rows))
  }

  ghost predicate StartedNode(s: System, n: NodeId) {
    n in s.db.rows && !Untouched(s.db.rows[n].status)
  }

  ghost predicate TasksOk(w: Workflow, s: System) {
    forall t :: 0 <= t < |s.tasks| ==> TaskOk(w, s, s.tasks[t])
  }

  ghost predicate StreamOk(s: System) {
    forall m :: 0 <= m < |s.stream| ==> NodeOf(s, m) in s.db.rows
  }

  ghost predicate SystemInv(w: Workflow, s: System) {
    DbInv(w, s.db) && TasksOk(w, s) && StreamOk(s)
  }

  /** The upstream outputs of a started node never change. */
  lemma UpstreamStable(w: Workflow, before: Db, after: Db, n: NodeId)
    requires Causal(w, before.rows) && Evolves(before, after)
    requires n in before.rows && !Untouched(before.rows[n].status)
    ensures UpstreamOf(w, before.rows, n) == UpstreamOf(w, after.rows, n)
  {
    forall p | p in Parents(w.edges, n) && p in before.rows ensures before.rows[p] == after.rows[p] {
      assert Edge(p, n) in w.edges;
      assert RowEvolves(before.rows[p], after.rows[p]);
    }
  }

  /** A task that is not stepped stays in order. */
  lemma OtherTaskOk(w: Workflow, s: System, s': System, task: Task)
    requires TaskOk(w, s, task) && Causal(w, s.db.rows) && Evolves(s.db, s'.db)
    requires |s.stream| <= |s'.stream|
    requires forall m :: 0 <= m < |s.stream| ==> s.stream[m].job == s'.stream[m].job
    ensures TaskOk(w, s', task)
  {
    if task.Reading? || task.Executing? {
      var n := NodeOf(s, task.msg);
      assert NodeOf(s', task.msg) == n;
      assert RowEvolves(s.db.rows[n], s'.db.rows[n]);
      UpstreamStable(w, s.db, s'.db, n);
    }
  }

  lemma NewTaskOk(w: Workflow, s: System, step: Step, s': System)
    requires TasksOk(w, s) && Enabled(w, s, step) && Actor(step).Some? && Evolves(s.db, s'.db)
    requires s'.stream == NextStream(w, s, step)
    requires step.ClaimStep? ==> s'.db == Claim(s.db, NodeOf(s, s.tasks[step.task].msg))
    requires step.ReadStep? ==> s'.db == s.db
    ensures TaskOk(w, s', NextTask(w, s, step))
  {
    match step
    case CompleteStep(t, outcome, owed) =>
      forall j | j in owed ensures j.node in s'.db.rows {
        OwedJob(w, s.db, NodeOf(s, s.tasks[t].msg), outcome, j);
      }
    case ReadStep(t) => assert TaskOk(w, s, s.tasks[t]);
    case PublishStep(t) => assert TaskOk(w, s, s.tasks[t]);
    case _ =>
  }

  lemma ClaimAndReadCommit(w: Workflow, s: System, step: Step, s': System)
    requires StepTo(w, s, step, s')
    ensures step.ClaimStep? ==> s'.db == Claim(s.db, NodeOf(s, s.tasks[step.task].msg))
    ensures step.ReadStep? ==> s'.db == s.db
  {
  }

  lemma StepKeepsTasks(w: Workflow, s: System, step: Step, s': System)
    requires TasksOk(w, s) && Causal(w, s.db.rows) && Enabled(w, s, step) && Evolves(s.db, s'.db)
    requires s'.stream == NextStream(w, s, step) && s'.tasks == NextTasks(w, s, step)
    requires step.ClaimStep? ==> s'.db == Claim(s.db, NodeOf(s, s.tasks[step.task].msg))
    requires step.ReadStep? ==> s'.db == s.db
    ensures TasksOk(w, s')
  {
    if Actor(step).Some? { NewTaskOk(w, s, step, s'); }
    TasksFrame(w, s, step, s');
  }

  lemma TasksFrame(w: Workflow, s: System, step: Step, s': System)
    requires TasksOk(w, s) && Causal(w, s.db.rows) && Enabled(w, s, step) && Evolves(s.db, s'.db)
    requires s'.stream == NextStream(w, s, step) && s'.tasks == NextTasks(w, s, step)
    requires Actor(step).Some? ==> TaskOk(w, s', NextTask(w, s, step))
    ensures TasksOk(w, s')
  {
    forall t | 0 <= t < |s'.tasks| ensures TaskOk(w, s', s'.tasks[t]) {
      if t < |s.tasks| && Actor(step) != Some(t) {
        assert TaskOk(w, s, s.tasks[t]);
        OtherTaskOk(w, s, s', s.tasks[t]);
      }
    }
  }

  lemma StepKeepsStream(w: Workflow, s: System, step: Step, s': System)
    requires TasksOk(w, s) && StreamOk(s) && Enabled(w, s, step) && Evolves(s.db, s'.db)
    requires s'.stream == NextStream(w, s, step)
    ensures StreamOk(s')
  {
    if step.PublishStep? {
      assert TaskOk(w, s, s.tasks[step.task]);
      assert s.tasks[step.task].owed[0] in s.tasks[step.task].owed;
    }
    forall m | 0 <= m < |s'.stream| ensures NodeOf(s', m) in s'.db.rows {
      if m < |s.stream| { assert NodeOf(s', m) == NodeOf(s, m); }
    }
  }

  /** Every step keeps the invariant and evolves the committed state. */
  lemma StepKeepsInv(w: Workflow, s: System, step: Step, s': System)
    requires SystemInv(w, s) && StepTo(w, s, step, s')
    ensures SystemInv(w, s') && Evolves(s.db, s'.db)
  {
    CommitKeepsInv(w, s.db, TxnOf(w, s, step));
    CommitEvolves(w, s.db, TxnOf(w, s, step));
    ClaimAndReadCommit(w, s, step, s');
    StepKeepsTasks(w, s, step, s');
    StepKeepsStream(w, s, step, s');
  }

  lemma InitTasks(w: Workflow, s: System)
    requires Init(w, s)
    ensures TasksOk(w, s) && StreamOk(s)
  {
    forall j | j in s.tasks[0].owed ensures j.node in s.db.rows {
      assert j in RootJobs(w);
    }
    assert TaskOk(w, s, s.tasks[0]);
  }

  lemma InitInv(w: Workflow, s: System)
    requires ValidWorkflow(w) && w.nodes != [] && Init(w, s)
    ensures SystemInv(w, s)
  {
    StartedInv(w);
    InitTasks(w, s);
  }

  lemma NextKeepsInv(w: Workflow, states: seq<System>, steps: seq<Step>, i: nat)
    requires Follows(w, states, steps) && i < |steps| && SystemInv(w, states[i])
    ensures SystemInv(w, states[i + 1]) && Evolves(states[i].db, states[i + 1].db)
  {
    assert StepTo(w, states[i], steps[i], states[i + 1]);
    StepKeepsInv(w, states[i], steps[i], states[i + 1]);
  }

  lemma {:induction false} InvAlong(w: Workflow, states: seq<System>, steps: seq<Step>, i: nat)
    requires Follows(w, states, steps) && SystemInv(w, states[0]) && i < |states|
    ensures SystemInv(w, states[i])
    decreases i
  {
    hide SystemInv, StepTo;
    if i > 0 {
      InvAlong(w, states, steps, i - 1);
      NextKeepsInv(w, states, steps, i - 1);
    }
  }

  /** The invariant holds in every state of every run. */
  lemma RunInv(w: Workflow, states: seq<System>, steps: seq<Step>, i: nat)
    requires ValidWorkflow(w) && w.nodes != [] && Run(w, states, steps) && i < |states|
    ensures SystemInv(w, states[i])
  {
    InitInv(w, states[0]);
    InvAlong(w, states, steps, i);
  }

  lemma RunStepEvolves(w: Workflow, states: seq<System>, steps: seq<Step>, i: nat)
    requires ValidWorkflow(w) && w.nodes != [] && Run(w, states, steps) && i + 1 < |states|
    ensures Evolves(states[i].db, states[i + 1].db)
  {
    RunInv(w, states, steps, i);
    NextKeepsInv(w, states, steps, i);
  }

  lemma {:induction false} ChainEvolves(states: seq<System>, i: nat, j: nat)
    requires i <= j < |states|
    requires forall k, l :: 0 <= k < l < |states| && l == k + 1 ==> Evolves(states[k].db, states[l].db)
    ensures Evolves(states[i].db, states[j].db)
    decreases j
  {
    if i < j {
      ChainEvolves(states, i, j - 1);
      EvolvesTransitive(states[i].db, states[j - 1].db, states[j].db);
    }
  }

  lemma RunEvolves(w: Workflow, states: seq<System>, steps: seq<Step>, i: nat, j: nat)
    requires ValidWorkflow(w) && w.nodes != [] && Run(w, states, steps) && i <= j < |states|
    ensures Evolves(states[i].db, states[j].db)
  {
    forall k, l | 0 <= k < l < |states| && l == k + 1 ensures Evolves(states[k].db, states[l].db) {
      RunStepEvolves(w, states, steps, k);
    }
    ChainEvolves(states, i, j);
  }
}
