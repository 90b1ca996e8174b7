/** Every concurrent run agrees with the sequential evaluation of the DAG, and
    every careful run can still reach it. */
module Convergence {
  import opened Graph
  import opened Model
  import opened Invariants
  import opened Histories
  import opened Protocol
  import opened Safety
  import opened Delivery
  import opened Progress
  import opened Evaluation
  import opened Theorems

  /** A run whose completions report what the executor computes from the inputs it was given.  Deliveries,
      crashes, recoveries, manual retries and their order are arbitrary. */
  ghost predicate ObeyingRun(w: Workflow, exec: Executor, states: seq<System>, steps: seq<Step>) {
    && Execution(w, states, steps)
    && forall i :: 0 <= i < |steps| ==> Obeys(exec, states[i], steps[i])
  }

  /** What the step drops astray, the evaluation skips anyway. */
  ghost predicate StepFits(w: Workflow, t: Verdicts, s: System, step: Step) {
    Enabled(w, s, step) ==> TxnFits(w, t, s.db, TxnOf(w, s, step))
  }

  lemma HarmlessStepFits(w: Workflow, exec: Executor, t: Verdicts, s: System, step: Step)
    requires RowsInv(w, s.db.rows) && TasksOk(w, s) && Obeys(exec, s, step)
    requires Harmless(w, t) && IsEvaluation(w, exec, t) && Agrees(w, t, s.db)
    ensures StepFits(w, t, s, step)
  {
    if step.CompleteStep? && Enabled(w, s, step) && step.outcome.Success? {
      var n := NodeOf(s, s.tasks[step.task].msg);
      if HasStatus(s.db.rows, n, RUNNING) {
        StepObeys(w, exec, s, step);
        VerdictOfStarted(w, exec, t, s.db.rows, n);
        HarmlessDropsFit(w, t, s.db.rows, n, step.outcome.output);
      }
    }
  }

  lemma StepAgrees(w: Workflow, exec: Executor, t: Verdicts, s: System, step: Step, s': System)
    requires SystemInv(w, s) && IsEvaluation(w, exec, t) && Agrees(w, t, s.db) && StepFits(w, t, s, step)
    requires StepTo(w, s, step, s') && Obeys(exec, s, step)
    ensures Agrees(w, t, s'.db)
  {
    StepObeys(w, exec, s, step);
    CommitAgrees(w, exec, t, s.db, TxnOf(w, s, step));
  }

  lemma NextAgrees(w: Workflow, exec: Executor, t: Verdicts, states: seq<System>, steps: seq<Step>, i: nat)
    requires Follows(w, states, steps) && i < |steps| && Obeys(exec, states[i], steps[i])
    requires SystemInv(w, states[i]) && IsEvaluation(w, exec, t) && Agrees(w, t, states[i].db)
    requires StepFits(w, t, states[i], steps[i])
    ensures Agrees(w, t, states[i + 1].db)
  {
    StepAgrees(w, exec, t, states[i], steps[i], states[i + 1]);
  }

  lemma {:induction false} AgreesAlong(w: Workflow, exec: Executor, t: Verdicts, states: seq<System>,
                                       steps: seq<Step>, i: nat)
    requires Follows(w, states, steps) && forall k :: 0 <= k < |steps| ==> Obeys(exec, states[k], steps[k])
    requires SystemInv(w, states[0]) && IsEvaluation(w, exec, t) && Agrees(w, t, states[0].db)
    requires i < |states| && forall k :: 0 <= k < i ==> StepFits(w, t, states[k], steps[k])
    ensures Agrees(w, t, states[i].db)
    decreases i
  {
    hide SystemInv, StepTo, Agrees, Obeys, IsEvaluation, StepFits;
    if i > 0 {
      AgreesAlong(w, exec, t, states, steps, i - 1);
      InvAlong(w, states, steps, i - 1);
      NextAgrees(w, exec, t, states, steps, i - 1);
    }
  }

  lemma NextFits(w: Workflow, exec: Executor, t: Verdicts, states: seq<System>, steps: seq<Step>, i: nat)
    requires i < |steps| < |states| && SystemInv(w, states[i]) && Obeys(exec, states[i], steps[i])
    requires Harmless(w, t) && IsEvaluation(w, exec, t) && Agrees(w, t, states[i].db)
    ensures StepFits(w, t, states[i], steps[i])
  {
    HarmlessStepFits(w, exec, t, states[i], steps[i]);
  }

  /** If the evaluation is harmless, every step that obeys fits. */
  lemma {:induction false} HarmlessAlong(w: Workflow, exec: Executor, t: Verdicts, states: seq<System>,
                                         steps: seq<Step>, i: nat)
    requires Follows(w, states, steps) && forall k :: 0 <= k < |steps| ==> Obeys(exec, states[k], steps[k])
    requires SystemInv(w, states[0]) && IsEvaluation(w, exec, t) && Agrees(w, t, states[0].db) && Harmless(w, t)
    requires i < |states|
    ensures forall k :: 0 <= k < i ==> StepFits(w, t, states[k], steps[k])
    ensures Agrees(w, t, states[i].db)
    decreases i
  {
    hide SystemInv, StepTo, Agrees, Obeys, IsEvaluation, StepFits, Harmless;
    if i > 0 {
      HarmlessAlong(w, exec, t, states, steps, i - 1);
      InvAlong(w, states, steps, i - 1);
      NextFits(w, exec, t, states, steps, i - 1);
      NextAgrees(w, exec, t, states, steps, i - 1);
    }
  }

  lemma FittingRunAgrees(w: Workflow, exec: Executor, t: Verdicts, states: seq<System>, steps: seq<Step>, i: nat)
    requires ObeyingRun(w, exec, states, steps) && IsEvaluation(w, exec, t) && i < |states|
    requires forall k :: 0 <= k < i ==> StepFits(w, t, states[k], steps[k])
    ensures Agrees(w, t, states[i].db)
  {
    InitInv(w, states[0]);
    StartedAgrees(w, exec, t);
    AgreesAlong(w, exec, t, states, steps, i);
  }

  lemma AgreementMeansFit(w: Workflow, t: Verdicts, s: System, step: Step, s': System)
    requires StepTo(w, s, step, s') && RowsAgree(t, s'.db.rows)
    ensures StepFits(w, t, s, step)
  {
    if step.CompleteStep? && step.outcome.Success? {
      var n := NodeOf(s, s.tasks[step.task].msg);
      if HasStatus(s.db.rows, n, RUNNING) { AgreementFits(w, t, s.db.rows, n, step.outcome.output); }
    }
  }

  /** The exact condition for any run: it agrees with the evaluation in all its states if and only if no
      condition ever drops, outside its descendants, a PENDING node that the evaluation does not skip. */
  lemma RunAgreesIffDropsFit(w: Workflow, exec: Executor, t: Verdicts, states: seq<System>, steps: seq<Step>)
    requires ObeyingRun(w, exec, states, steps) && IsEvaluation(w, exec, t)
    ensures (forall i :: 0 <= i < |states| ==> RowsAgree(t, states[i].db.rows)) <==>
            (forall k :: 0 <= k < |steps| ==> StepFits(w, t, states[k], steps[k]))
  {
    if forall k :: 0 <= k < |steps| ==> StepFits(w, t, states[k], steps[k]) {
      forall i | 0 <= i < |states| ensures RowsAgree(t, states[i].db.rows) {
        FittingRunAgrees(w, exec, t, states, steps, i);
      }
    }
    if forall i :: 0 <= i < |states| ==> RowsAgree(t, states[i].db.rows) {
      forall k | 0 <= k < |steps| ensures StepFits(w, t, states[k], steps[k]) {
        AgreementMeansFit(w, t, states[k], steps[k], states[k + 1]);
      }
    }
  }

  lemma RunAgrees(w: Workflow, exec: Executor, t: Verdicts, states: seq<System>, steps: seq<Step>, i: nat)
    requires ObeyingRun(w, exec, states, steps) && Harmless(w, t) && IsEvaluation(w, exec, t) && i < |states|
    ensures Agrees(w, t, states[i].db)
  {
    InitInv(w, states[0]);
    StartedAgrees(w, exec, t);
    HarmlessAlong(w, exec, t, states, steps, i);
  }

  lemma AgreesMeans(w: Workflow, t: Verdicts, db: Db, n: NodeId)
    requires RowsShape(w, db.rows) && RowsAgree(t, db.rows) && n in db.rows && Terminal(db.rows[n].status)
    ensures n in t && db.rows[n].status == StatusOf(t[n]) && db.rows[n].output == OutputOf(t[n])
  {
  }

  lemma RunRefines(w: Workflow, exec: Executor, t: Verdicts, states: seq<System>, steps: seq<Step>, i: nat, n: NodeId)
    requires ObeyingRun(w, exec, states, steps) && Harmless(w, t) && IsEvaluation(w, exec, t) && i < |states|
    requires n in states[i].db.rows && Terminal(states[i].db.rows[n].status)
    ensures n in t && states[i].db.rows[n].status == StatusOf(t[n]) && states[i].db.rows[n].output == OutputOf(t[n])
  {
    RunAgrees(w, exec, t, states, steps, i);
    RunInv(w, states, steps, i);
    AgreesMeans(w, t, states[i].db, n);
  }

  /** In every state of every run, under any interleaving, duplicate delivery, crash or recovery, each
      SUCCEEDED, SKIPPED or DEAD_LETTERED node has the status, and each SUCCEEDED one the output, that the
      sequential pass over any topological order gives it. */
  lemma RunRefinesPass(w: Workflow, exec: Executor, order: seq<NodeId>, states: seq<System>, steps: seq<Step>,
                       i: nat, n: NodeId)
    requires ObeyingRun(w, exec, states, steps) && Harmless(w, Pass(w, exec, order, |order|)) && i < |states|
    requires Topological(Ids(w.nodes), w.edges, order)
    requires n in states[i].db.rows && Terminal(states[i].db.rows[n].status)
    ensures
      var row, t := states[i].db.rows[n], Pass(w, exec, order, |order|);
      n in t && row.status == StatusOf(t[n]) && row.output == OutputOf(t[n])
  {
    PassIsEvaluation(w, exec, order);
    RunRefines(w, exec, Pass(w, exec, order, |order|), states, steps, i, n);
  }

  /** Every row is what the evaluation says: output, and a node the evaluation leaves stuck is PENDING. */
  ghost predicate Realizes(w: Workflow, t: Verdicts, db: Db) {
    && (forall n :: IsNode(w, n) ==>
          n in db.rows && n in t && db.rows[n].status == StatusOf(t[n]) && db.rows[n].output == OutputOf(t[n]))
    && db.status == (if exists n :: n in t && t[n] == Exhausted then EXEC_FAILED else EXEC_SUCCEEDED)
  }

  lemma LedgerHasExhausted(t: Verdicts, ledger: seq<DeadLetter>)
    requires LedgerAgrees(t, ledger)
    ensures ledger != [] ==> exists n :: n in t && t[n] == Exhausted
  {
    if ledger != [] { assert t[ledger[0].node] == Exhausted; }
  }

  lemma RunningHasActive(w: Workflow, db: Db)
    requires DbInv(w, db)
    ensures db.status == EXEC_RUNNING ==> exists n :: Active(db.rows, n)
  {
    if db.status == EXEC_RUNNING {
      var n := UnsettledHasWork(w, db);
    }
  }

  lemma QuiescentStatus(w: Workflow, t: Verdicts, db: Db)
    requires DbInv(w, db) && LedgerAgrees(t, db.ledger) && forall n :: !Active(db.rows, n)
    requires forall n :: n in t <==> IsNode(w, n)
    requires forall n :: IsNode(w, n) ==> n in db.rows && n in t && db.rows[n].status == StatusOf(t[n])
    ensures db.status == (if exists n :: n in t && t[n] == Exhausted then EXEC_FAILED else EXEC_SUCCEEDED)
  {
    if n :| n in t && t[n] == Exhausted {
      DeadLetteredIsRecorded(db, n);
    } else {
      LedgerHasExhausted(t, db.ledger);
      RunningHasActive(w, db);
    }
  }

  lemma QuiescentRealizes(w: Workflow, exec: Executor, t: Verdicts, s: System)
    requires SystemInv(w, s) && IsEvaluation(w, exec, t) && Agrees(w, t, s.db) && Quiescent(s)
    ensures Realizes(w, t, s.db)
  {
    var order := AcyclicHasOrder(Ids(w.nodes), w.edges);
    QuiescentIsEvaluation(w, exec, t, s.db.rows, order);
    QuiescentStatus(w, t, s.db);
  }

  /** Two runs of the same workflow with the same executor that have come to rest, however differently they
      were scheduled, end with the same rows statuses, outputs and execution status. */
  lemma RunsConverge(w: Workflow, exec: Executor, t: Verdicts, states: seq<System>, steps: seq<Step>,
                     states': seq<System>, steps': seq<Step>)
    requires Harmless(w, t) && IsEvaluation(w, exec, t)
    requires ObeyingRun(w, exec, states, steps) && ObeyingRun(w, exec, states', steps')
    requires Quiescent(states[|steps|]) && Quiescent(states'[|steps'|])
    ensures Realizes(w, t, states[|steps|].db) && Realizes(w, t, states'[|steps'|].db)
    ensures states[|steps|].db.status == states'[|steps'|].db.status
    ensures forall n :: IsNode(w, n) ==>
      && n in states[|steps|].db.rows && n in states'[|steps'|].db.rows
      && states[|steps|].db.rows[n].status == states'[|steps'|].db.rows[n].status
      && states[|steps|].db.rows[n].output == states'[|steps'|].db.rows[n].output
  {
    RunEnds(w, exec, t, states, steps);
    RunEnds(w, exec, t, states', steps');
  }

  lemma RunEnds(w: Workflow, exec: Executor, t: Verdicts, states: seq<System>, steps: seq<Step>)
    requires Harmless(w, t) && IsEvaluation(w, exec, t)
    requires ObeyingRun(w, exec, states, steps) && Quiescent(states[|steps|])
    ensures Realizes(w, t, states[|steps|].db)
  {
    RunInv(w, states, steps, |steps|);
    RunAgrees(w, exec, t, states, steps, |steps|);
    QuiescentRealizes(w, exec, t, states[|steps|]);
  }

  // ----- every careful run can finish -----

  lemma PathFollows(w: Workflow, exec: Executor, states: seq<System>, steps: seq<Step>)
    requires Path(w, exec, states, steps)
    ensures Follows(w, states, steps) && forall k :: 0 <= k < |steps| ==> Obeys(exec, states[k], steps[k])
  {
    forall i, j | 0 <= i < j < |states| && j == i + 1
      ensures StepTo(w, states[i], steps[i], states[j]) && Obeys(exec, states[i], steps[i])
    {
      assert DrivenStep(w, exec, states[i], steps[i], states[j]);
    }
    forall k | 0 <= k < |steps| ensures Obeys(exec, states[k], steps[k]) {
      assert DrivenStep(w, exec, states[k], steps[k], states[k + 1]);
    }
  }

  lemma ReachedAgrees(w: Workflow, exec: Executor, t: Verdicts, s: System, s': System)
    requires SystemInv(w, s) && Harmless(w, t) && IsEvaluation(w, exec, t) && Agrees(w, t, s.db)
    requires CanReach(w, exec, s, s')
    ensures Agrees(w, t, s'.db)
  {
    var states, steps :| PathFromTo(w, exec, s, s', states, steps);
    PathFollows(w, exec, states, steps);
    HarmlessAlong(w, exec, t, states, steps, |steps|);
  }

  /** From every state of a careful run, whatever crashed so far, careful steps lead to a state in which
      nothing is left to do and every row is what the sequential evaluation says. */
  lemma EveryRunCanFinish(w: Workflow, exec: Executor, t: Verdicts, states: seq<System>, steps: seq<Step>, i: nat)
    returns (s': System)
    requires ObeyingRun(w, exec, states, steps) && CarefulRun(w, states, steps) && i < |states|
    requires Harmless(w, t) && IsEvaluation(w, exec, t)
    ensures CanReach(w, exec, states[i], s') && Quiescent(s') && Realizes(w, t, s'.db)
  {
    RunInv(w, states, steps, i);
    NothingLostAlong(w, states, steps, i);
    s' := CanQuiesce(w, exec, states[i]);
    RunAgrees(w, exec, t, states, steps, i);
    ReachedAgrees(w, exec, t, states[i], s');
    QuiescentRealizes(w, exec, t, s');
  }
}
