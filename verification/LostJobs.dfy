/** When exactly a job is lost.  Outside careful runs a QUEUED or RUNNING node can
    be left with nobody to work on it; this module says precisely when, and shows
    both ways in which that happens. */
module LostJobs {
  import opened Graph
  import opened Model
  import opened Transactions
  import opened Invariants
  import opened Histories
  import opened Protocol
  import opened Safety
  import opened Publishing
  import opened Delivery
  import opened Progress
  import opened Theorems

  /** What a live task must be at to move a node of this status on. */
  predicate Carries(status: NodeStatus, task: Task) {
    if status == QUEUED then task.Recovering? || task.Claiming?
    else task.Recovering? || task.Reading? || task.Executing?
  }

  predicate WorksOn(s: System, task: Task, n: NodeId) {
    MsgOf(task).Some? && MsgOf(task).value < |s.stream| && NodeOf(s, MsgOf(task).value) == n
  }

  ghost predicate Helps(s: System, task: Task, n: NodeId)
    requires n in s.db.rows
  {
    || (task.Finishing? && OwedIn(task.owed, n))
    || (Carries(s.db.rows[n].status, task) && WorksOn(s, task, n))
  }

  /** The node waits for work, but all its entries are acknowledged, nobody owes one,
      and no live task can move it on. */
  ghost predicate Lost(s: System, n: NodeId) {
    && Active(s.db.rows, n)
    && (forall m :: 0 <= m < |s.stream| && NodeOf(s, m) == n ==> s.stream[m].delivery.Acked?)
    && (forall t :: 0 <= t < |s.tasks| ==> !Helps(s, s.tasks[t], n))
  }

  // ----- a lost job stays lost -----

  /** Another node's completion does not touch an active node. */
  lemma CompleteElsewhere(w: Workflow, db: Db, c: NodeId, outcome: Outcome, n: NodeId)
    requires IsNode(w, c) && Active(db.rows, n)
    requires c == n ==> db.rows[n].status == QUEUED
    ensures n in Complete(w, db, c, outcome).rows && Complete(w, db, c, outcome).rows[n] == db.rows[n]
    ensures forall j :: j in OwedAfter(w, db, c, outcome) ==> j.node != n
  {
    if HasStatus(db.rows, c, RUNNING) && outcome.Success? {
      SuccessEffect(w, db.rows, c, outcome.output);
      assert SuccessAt(w, db.rows, c, outcome.output, n);
    }
  }

  lemma LostRowKept(w: Workflow, s: System, step: Step, s': System, n: NodeId)
    requires StepTo(w, s, step, s') && Lost(s, n)
    ensures n in s'.db.rows && s'.db.rows[n] == s.db.rows[n]
  {
    if step.CompleteStep? {
      var task := s.tasks[step.task];
      assert !Helps(s, task, n);
      CompleteElsewhere(w, s.db, NodeOf(s, task.msg), step.outcome, n);
    } else if Actor(step).Some? && Actor(step).value < |s.tasks| {
      assert !Helps(s, s.tasks[Actor(step).value], n);
    }
  }

  lemma PublishedElsewhere(w: Workflow, s: System, step: Step, n: NodeId)
    requires Enabled(w, s, step) && Lost(s, n)
    ensures step.PublishStep? ==> s.tasks[step.task].owed[0].node != n
  {
    if step.PublishStep? {
      var task := s.tasks[step.task];
      assert !Helps(s, task, n);
      assert OwedIn(task.owed, task.owed[0].node);
    }
  }

  lemma LostEntriesKept(w: Workflow, s: System, step: Step, s': System, n: NodeId, m: nat)
    requires Enabled(w, s, step) && s'.stream == NextStream(w, s, step) && Lost(s, n)
    requires m < |s'.stream| && NodeOf(s', m) == n
    ensures s'.stream[m].delivery.Acked?
  {
  }

  lemma LostActorKept(w: Workflow, s: System, step: Step, n: NodeId)
    requires Enabled(w, s, step) && Actor(step).Some? && Lost(s, n)
    ensures !Helps(s, NextTask(w, s, step), n)
  {
    var task := s.tasks[Actor(step).value];
    assert !Helps(s, task, n);
    match step
    case CompleteStep(_, outcome, owed) =>
      CompleteElsewhere(w, s.db, NodeOf(s, task.msg), outcome, n);
      assert forall k :: 0 <= k < |owed| ==> owed[k] in owed;
    case PublishStep(_) =>
      assert forall k :: 0 <= k < |task.owed| - 1 ==> task.owed[1..][k] == task.owed[k + 1];
    case _ =>
  }

  lemma LostTasksKept(w: Workflow, s: System, step: Step, s': System, n: NodeId, t: nat)
    requires Enabled(w, s, step) && Lost(s, n) && t < |s'.tasks|
    requires s'.stream == NextStream(w, s, step) && s'.tasks == NextTasks(w, s, step)
    requires n in s'.db.rows && s'.db.rows[n] == s.db.rows[n]
    ensures !Helps(s', s'.tasks[t], n)
  {
    assert forall m :: 0 <= m < |s.stream| ==> s'.stream[m].job == s.stream[m].job;
    forall m: nat | |s.stream| <= m < |s'.stream| ensures NodeOf(s', m) != n { PublishedElsewhere(w, s, step, n); }
    if Actor(step) == Some(t) {
      LostActorKept(w, s, step, n);
      assert MsgOf(s'.tasks[t]) == None || MsgOf(s'.tasks[t]) == MsgOf(s.tasks[t]) by { OwnMessageKept(w, s, step); }
    } else if t < |s.tasks| {
      assert !Helps(s, s.tasks[t], n);
    } else if step.RetryStep? {
      assert forall k :: 0 <= k < |s'.tasks[t].owed| ==> s'.tasks[t].owed[k].node == step.node;
    }
  }

  lemma StepKeepsLost(w: Workflow, s: System, step: Step, s': System, n: NodeId)
    requires StepTo(w, s, step, s') && Lost(s, n)
    ensures Lost(s', n) && s'.db.rows[n] == s.db.rows[n]
  {
    LostRowKept(w, s, step, s', n);
    forall m | 0 <= m < |s'.stream| && NodeOf(s', m) == n ensures s'.stream[m].delivery.Acked? {
      LostEntriesKept(w, s, step, s', n, m);
    }
    forall t | 0 <= t < |s'.tasks| ensures !Helps(s', s'.tasks[t], n) {
      LostTasksKept(w, s, step, s', n, t);
    }
  }

  /** Whatever happens afterwards, a lost node keeps its row: recovery, further workers and manual retries
      of other nodes included. */
  lemma {:induction false} LostIsForever(w: Workflow, states: seq<System>, steps: seq<Step>, i: nat, n: NodeId)
    requires Follows(w, states, steps) && Lost(states[0], n) && i < |states|
    ensures Lost(states[i], n) && states[i].db.rows[n] == states[0].db.rows[n]
    decreases i
  {
    if i > 0 {
      LostIsForever(w, states, steps, i - 1, n);
      StepKeepsLost(w, states[i - 1], steps[i - 1], states[i], n);
    }
  }

  // ----- a job that is not lost can still be brought to an outcome -----

  /** How many outcomes of `n` were applied so far. */
  function Outcomes(db: Db, n: NodeId): nat {
    TallyOf(db.history, n).succeeded + TallyOf(db.history, n).failed
  }

  ghost predicate Settles(w: Workflow, exec: Executor, s: System, states: seq<System>, steps: seq<Step>, n: NodeId) {
    && Follows(w, states, steps) && states[0] == s
    && (forall k :: 0 <= k < |steps| ==> Obeys(exec, states[k], steps[k]))
    && Outcomes(s.db, n) < Outcomes(states[|steps|].db, n)
  }

  /** Some steps from `s` on, with the given executor, apply one more outcome of `n`. */
  ghost predicate CanSettle(w: Workflow, exec: Executor, s: System, n: NodeId) {
    exists states, steps :: Settles(w, exec, s, states, steps, n)
  }

  lemma SettlesNow(w: Workflow, exec: Executor, s: System, step: Step, s': System, n: NodeId)
    requires StepTo(w, s, step, s') && Obeys(exec, s, step) && Outcomes(s.db, n) < Outcomes(s'.db, n)
    ensures CanSettle(w, exec, s, n)
  {
    hide StepTo, Obeys, Outcomes;
    assert Settles(w, exec, s, [s, s'], [step], n);
  }

  lemma SettlesLater(w: Workflow, exec: Executor, s: System, step: Step, s': System, n: NodeId)
    requires StepTo(w, s, step, s') && Obeys(exec, s, step) && CanSettle(w, exec, s', n)
    requires Outcomes(s.db, n) == Outcomes(s'.db, n)
    ensures CanSettle(w, exec, s, n)
  {
    hide StepTo, Obeys, Outcomes;
    var states, steps :| Settles(w, exec, s', states, steps, n);
    FollowsCons(w, s, step, states, steps);
    var longer, labels := [s] + states, [step] + steps;
    forall k | 0 <= k < |labels| ensures Obeys(exec, longer[k], labels[k]) {
      if k > 0 { assert longer[k] == states[k - 1] && labels[k] == steps[k - 1]; }
    }
    assert Settles(w, exec, s, longer, labels, n);
  }

  lemma FollowsCons(w: Workflow, s: System, step: Step, states: seq<System>, steps: seq<Step>)
    requires Follows(w, states, steps) && StepTo(w, s, step, states[0])
    ensures Follows(w, [s] + states, [step] + steps)
  {
    hide StepTo;
    var longer, labels := [s] + states, [step] + steps;
    forall i, j | 0 <= i < j < |longer| && j == i + 1 ensures StepTo(w, longer[i], labels[i], longer[j]) {
      if i > 0 {
        assert longer[i] == states[i - 1] && labels[i] == steps[i - 1] && longer[j] == states[j - 1];
        assert StepTo(w, states[i - 1], steps[i - 1], states[j - 1]);
      }
    }
  }

  /** Completing a RUNNING node is one more outcome; claiming and reverting are none. */
  lemma CompleteIsOutcome(w: Workflow, db: Db, n: NodeId, outcome: Outcome)
    requires IsNode(w, n) && HasStatus(db.rows, n, RUNNING)
    ensures Outcomes(Complete(w, db, n, outcome), n) == Outcomes(db, n) + 1
  {
    TallyAppend(db.history, NodeSucceeded(n), n);
    TallyAppend(db.history, NodeFailed(n), n);
    DeadLetterTally(db.history, n, n);
  }

  lemma ClaimIsNoOutcome(db: Db, n: NodeId)
    ensures Outcomes(Claim(db, n), n) == Outcomes(db, n) == Outcomes(Revert(db, n), n)
  {
    TallyAppend(db.history, NodeStarted(n), n);
    TallyAppend(db.history, NodeReverted(n), n);
  }

  lemma ExecutingSettles(w: Workflow, exec: Executor, s: System, t: nat, n: NodeId)
    requires IsNode(w, n) && StandsFor(s, t, n) && s.tasks[t].Executing? && HasStatus(s.db.rows, n, RUNNING)
    ensures CanSettle(w, exec, s, n)
  {
    hide CanSettle, Outcomes;
    var step, s' := DoComplete(w, exec, s, t, n);
    var outcome :| s'.db == Complete(w, s.db, n, outcome);
    CompleteIsOutcome(w, s.db, n, outcome);
    SettlesNow(w, exec, s, step, s', n);
  }

  lemma ReadingSettles(w: Workflow, exec: Executor, s: System, t: nat, n: NodeId)
    requires IsNode(w, n) && StandsFor(s, t, n) && s.tasks[t].Reading? && HasStatus(s.db.rows, n, RUNNING)
    ensures CanSettle(w, exec, s, n)
  {
    hide CanSettle, Outcomes;
    var s' := DoRead(w, exec, s, t, n);
    ExecutingSettles(w, exec, s', t, n);
    SettlesLater(w, exec, s, ReadStep(t), s', n);
  }

  lemma ClaimingSettles(w: Workflow, exec: Executor, s: System, t: nat, n: NodeId)
    requires IsNode(w, n) && StandsFor(s, t, n) && s.tasks[t].Claiming? && HasStatus(s.db.rows, n, QUEUED)
    ensures CanSettle(w, exec, s, n)
  {
    hide CanSettle, Outcomes;
    var s' := DoClaim(w, exec, s, t, n);
    ReadingSettles(w, exec, s', t, n);
    ClaimIsNoOutcome(s.db, n);
    SettlesLater(w, exec, s, ClaimStep(t), s', n);
  }

  lemma RecoveringSettles(w: Workflow, exec: Executor, s: System, t: nat, n: NodeId)
    requires IsNode(w, n) && StandsFor(s, t, n) && s.tasks[t].Recovering? && Active(s.db.rows, n)
    ensures CanSettle(w, exec, s, n)
  {
    hide CanSettle, Outcomes;
    var s' := DoRevert(w, exec, s, t, n);
    ClaimingSettles(w, exec, s', t, n);
    ClaimIsNoOutcome(s.db, n);
    SettlesLater(w, exec, s, RevertStep(t), s', n);
  }

  lemma PendingSettles(w: Workflow, exec: Executor, s: System, m: nat, n: NodeId)
    requires IsNode(w, n) && m < |s.stream| && NodeOf(s, m) == n &&
      s.stream[m].delivery.Pending? && Active(s.db.rows, n)
    ensures CanSettle(w, exec, s, n)
  {
    hide CanSettle, Outcomes;
    var s' := System(s.db, SetDelivery(s.stream, m, Pending(|s.tasks|)), s.tasks + [Recovering(m)]);
    assert StepTo(w, s, Reclaim(m), s');
    RecoveringSettles(w, exec, s', |s.tasks|, n);
    SettlesLater(w, exec, s, Reclaim(m), s', n);
  }

  lemma EntrySettles(w: Workflow, exec: Executor, s: System, m: nat, n: NodeId)
    requires IsNode(w, n) && m < |s.stream| && NodeOf(s, m) == n && !s.stream[m].delivery.Acked? && Active(s.db.rows, n)
    ensures CanSettle(w, exec, s, n)
  {
    hide CanSettle, Outcomes;
    if s.stream[m].delivery.Pending? {
      PendingSettles(w, exec, s, m, n);
    } else {
      var s' := System(s.db, SetDelivery(s.stream, m, Pending(|s.tasks|)), s.tasks + [Claiming(m)]);
      assert StepTo(w, s, Deliver(m), s');
      PendingSettles(w, exec, s', m, n);
      SettlesLater(w, exec, s, Deliver(m), s', n);
    }
  }

  lemma {:induction false} OwedSettles(w: Workflow, exec: Executor, s: System, t: nat, n: NodeId)
    requires IsNode(w, n) && OwesNode(s, t, n) && HasMessage(s, s.tasks[t]) && Active(s.db.rows, n)
    ensures CanSettle(w, exec, s, n)
    decreases if t < |s.tasks| && s.tasks[t].Finishing? then |s.tasks[t].owed| else 0
  {
    hide CanSettle, Outcomes;
    var s' := DoPublish(w, exec, s, t, n);
    if OwesNode(s', t, n) {
      OwedSettles(w, exec, s', t, n);
    } else {
      EntrySettles(w, exec, s', |s.stream|, n);
    }
    SettlesLater(w, exec, s, PublishStep(t), s', n);
  }

  lemma HelperSettles(w: Workflow, exec: Executor, s: System, t: nat, n: NodeId)
    requires IsNode(w, n) && TasksOk(w, s) && Active(s.db.rows, n) && t < |s.tasks| && Helps(s, s.tasks[t], n)
    ensures CanSettle(w, exec, s, n)
  {
    hide CanSettle;
    assert TaskOk(w, s, s.tasks[t]);
    match s.tasks[t]
    case Finishing(_, _) => OwedSettles(w, exec, s, t, n);
    case Recovering(_) => RecoveringSettles(w, exec, s, t, n);
    case Claiming(_) => ClaimingSettles(w, exec, s, t, n);
    case Reading(_) => ReadingSettles(w, exec, s, t, n);
    case Executing(_, _) => ExecutingSettles(w, exec, s, t, n);
  }

  /** The exact condition: in any state that satisfies the invariant, and with any executor, a node waiting
      for work can still be brought to its next outcome if and only if it is not lost. */
  lemma LostIffStuck(w: Workflow, exec: Executor, s: System, n: NodeId)
    requires SystemInv(w, s) && Active(s.db.rows, n)
    ensures Lost(s, n) <==> !CanSettle(w, exec, s, n)
  {
    assert IsNode(w, n);
    hide CanSettle, DbInv;
    if Lost(s, n) {
      LostCannotSettle(w, exec, s, n);
    } else if m: nat :| m < |s.stream| && NodeOf(s, m) == n && !s.stream[m].delivery.Acked? {
      EntrySettles(w, exec, s, m, n);
    } else {
      var t :| 0 <= t < |s.tasks| && Helps(s, s.tasks[t], n);
      HelperSettles(w, exec, s, t, n);
    }
  }

  /** An active row fixes the number of outcomes. */
  lemma ActiveOutcomes(db: Db, n: NodeId)
    requires Books(db) && Active(db.rows, n)
    ensures Outcomes(db, n) + 1 == db.rows[n].attempt
  {
    assert BalancedAt(db, n);
  }

  lemma LostCannotSettle(w: Workflow, exec: Executor, s: System, n: NodeId)
    requires SystemInv(w, s) && Lost(s, n)
    ensures !CanSettle(w, exec, s, n)
  {
    forall states, steps ensures !Settles(w, exec, s, states, steps, n) {
      if Follows(w, states, steps) && states[0] == s { LostOutcomes(w, states, steps, n); }
    }
  }

  lemma LostOutcomes(w: Workflow, states: seq<System>, steps: seq<Step>, n: NodeId)
    requires Follows(w, states, steps) && SystemInv(w, states[0]) && Lost(states[0], n)
    ensures Outcomes(states[|steps|].db, n) == Outcomes(states[0].db, n)
  {
    hide StepTo, RowsInv, LedgerOpen, StatusInv, CausalHistory, Named, TasksOk, StreamOk, Books, Outcomes;
    LostIsForever(w, states, steps, |steps|, n);
    InvAlong(w, states, steps, |steps|);
    ActiveOutcomes(states[0].db, n);
    ActiveOutcomes(states[|steps|].db, n);
  }

  lemma CoveredIsNotLost(s: System, n: NodeId)
    requires NothingLost(s) && Active(s.db.rows, n)
    ensures !Lost(s, n)
  {
    if s.db.rows[n].status == RUNNING {
      assert RunningCovered(s, n);
      var m: nat :| WaitingFor(s, m, n) || WorkingFor(s, m, n);
      EntryIsHeld(s, m, n);
    } else if m: nat :| WaitingFor(s, m, n) {
      EntryIsHeld(s, m, n);
    } else {
      assert QueuedCovered(s, n);
      var t: nat :| OwesNode(s, t, n);
      assert Helps(s, s.tasks[t], n);
    }
  }

  lemma EntryIsHeld(s: System, m: nat, n: NodeId)
    requires WaitingFor(s, m, n) || WorkingFor(s, m, n)
    ensures m < |s.stream| && NodeOf(s, m) == n && !s.stream[m].delivery.Acked?
  {
  }

  /** Careful runs lose nothing: there every waiting node can be brought to its next outcome. */
  lemma CarefulRunsLoseNothing(w: Workflow, exec: Executor, states: seq<System>, steps: seq<Step>, i: nat, n: NodeId)
    requires ValidWorkflow(w) && w.nodes != [] && CarefulRun(w, states, steps) && i < |states|
    requires Active(states[i].db.rows, n)
    ensures !Lost(states[i], n) && CanSettle(w, exec, states[i], n)
  {
    RunInv(w, states, steps, i);
    NothingLostAlong(w, states, steps, i);
    CoveredIsNotLost(states[i], n);
    LostIffStuck(w, exec, states[i], n);
  }

  // ----- the two ways to lose a job -----

  /** The API process dies after committing a started execution and before publishing: every root is
      QUEUED for good. */
  lemma CrashLosesRoot(w: Workflow, s: System, n: NodeId) returns (s': System)
    requires ValidWorkflow(w) && Init(w, s) && IsRoot(w, n)
    ensures StepTo(w, s, Crash(0), s') && LosesOwed(s, Crash(0)) && Lost(s', n)
  {
    s' := System(s.db, [], [Stopped]);
    assert Job(n, 1) in RootJobs(w);
    assert Job(n, 1) in s.tasks[0].owed;
  }

  /** The task is the only one that can move the node on, and its entry the only one left. */
  ghost predicate SoleWorker(s: System, t: nat, n: NodeId) {
    && StandsFor(s, t, n) && s.tasks[t].Executing? && HasStatus(s.db.rows, n, RUNNING)
    && s.stream[s.tasks[t].msg].delivery.Pending?
    && (forall m :: 0 <= m < |s.stream| && NodeOf(s, m) == n && m != s.tasks[t].msg ==> s.stream[m].delivery.Acked?)
    && (forall u :: 0 <= u < |s.tasks| && u != t ==> s.tasks[u].Stopped?)
  }

  /** The five states after `s` when the entry of task `t` is taken from it, and the thief dies. */
  ghost function Theft(s: System, t: nat, n: NodeId): seq<System>
    requires SoleWorker(s, t, n)
  {
    var m, u := s.tasks[t].msg, |s.tasks|;
    var taken, tasks, db := SetDelivery(s.stream, m, Pending(u)), s.tasks, Revert(s.db, n);
    [s,
     System(s.db, taken, tasks + [Recovering(m)]),
     System(db, taken, tasks + [Claiming(m)]),
     System(db, taken, tasks[t := Finishing(Some(m), [])] + [Claiming(m)]),
     System(db, SetDelivery(taken, m, Acked), tasks[t := Stopped] + [Claiming(m)]),
     System(db, SetDelivery(taken, m, Acked), tasks[t := Stopped] + [Stopped])]
  }

  lemma TheftBegins(w: Workflow, s: System, t: nat, n: NodeId)
    requires SoleWorker(s, t, n)
    ensures
      var states := Theft(s, t, n);
      && StepTo(w, states[0], Reclaim(s.tasks[t].msg), states[1])
      && StepTo(w, states[1], RevertStep(|s.tasks|), states[2])
  {
  }

  lemma TheftEnds(w: Workflow, s: System, t: nat, n: NodeId, outcome: Outcome)
    requires SoleWorker(s, t, n) && IsNode(w, n)
    ensures
      var states := Theft(s, t, n);
      && StepTo(w, states[2], CompleteStep(t, outcome, []), states[3])
      && StepTo(w, states[3], AckStep(t), states[4])
      && StepTo(w, states[4], Crash(|s.tasks|), states[5])
  {
    var states, m := Theft(s, t, n), s.tasks[t].msg;
    assert states[2].tasks[t] == s.tasks[t];
    assert states[3].tasks == states[2].tasks[t := Finishing(Some(m), [])];
    assert states[4].tasks == states[3].tasks[t := Stopped];
    assert states[5].tasks == states[4].tasks[|s.tasks| := Stopped];
  }

  lemma TheftLoses(s: System, t: nat, n: NodeId)
    requires SoleWorker(s, t, n)
    ensures Lost(Theft(s, t, n)[5], n)
  {
  }

  lemma FollowsFive(w: Workflow, states: seq<System>, steps: seq<Step>)
    requires |states| == 6 && |steps| == 5
    requires StepTo(w, states[0], steps[0], states[1]) && StepTo(w, states[1], steps[1], states[2])
    requires StepTo(w, states[2], steps[2], states[3]) && StepTo(w, states[3], steps[3], states[4])
    requires StepTo(w, states[4], steps[4], states[5])
    ensures Follows(w, states, steps)
  {
    forall i, j | 0 <= i < j < |states| && j == i + 1 ensures StepTo(w, states[i], steps[i], states[j]) {
      assert i == 0 || i == 1 || i == 2 || i == 3 || i == 4;
    }
  }

  /** Recovery takes the entry of a slow worker and puts the node back; the worker then finishes, applies
      nothing, and acknowledges the entry; if now the recovering process dies, the job is lost, although
      every publish loop ran to its end. */
  lemma StealLosesJob(w: Workflow, s: System, t: nat, n: NodeId, outcome: Outcome) returns (states: seq<System>,
                      steps: seq<Step>)
    requires SoleWorker(s, t, n) && IsNode(w, n)
    ensures Follows(w, states, steps) && states[0] == s && |steps| == 5
    ensures forall i :: 0 <= i < |steps| ==> !LosesOwed(states[i], steps[i])
    ensures Lost(states[5], n)
  {
    states := Theft(s, t, n);
    steps := [Reclaim(s.tasks[t].msg), RevertStep(|s.tasks|), CompleteStep(t, outcome, []),
        AckStep(t), Crash(|s.tasks|)];
    TheftBegins(w, s, t, n);
    TheftEnds(w, s, t, n, outcome);
    TheftLoses(s, t, n);
    FollowsFive(w, states, steps);
  }

  /** How a one-node workflow comes to be executed by its only worker. */
  ghost function FirstWork(w: Workflow, n: NodeId): seq<System> {
    var db, job := Started(w), Job(n, 1);
    [System(db, [], [Finishing(None, [job])]),
     System(db, [Message(job, Undelivered)], [Finishing(None, [])]),
     System(db, [Message(job, Undelivered)], [Stopped]),
     System(db, [Message(job, Pending(1))], [Stopped, Claiming(0)]),
     System(Claim(db, n), [Message(job, Pending(1))], [Stopped, Reading(0)]),
     System(Claim(db, n), [Message(job, Pending(1))], [Stopped, Executing(0, UpstreamOf(w, Claim(db, n).rows, n))])]
  }

  lemma FirstWorkBegins(w: Workflow, n: NodeId)
    ensures
      var states := FirstWork(w, n);
      && StepTo(w, states[0], PublishStep(0), states[1])
      && StepTo(w, states[1], AckStep(0), states[2])
      && StepTo(w, states[2], Deliver(0), states[3])
  {
    var states := FirstWork(w, n);
    assert [Job(n, 1)][1..] == [];
    assert states[1].tasks == states[0].tasks[0 := Finishing(None, [])];
    assert states[1].stream == states[0].stream + [Message(Job(n, 1), Undelivered)];
  }

  lemma FirstWorkGoesOn(w: Workflow, n: NodeId)
    requires HasStatus(Started(w).rows, n, QUEUED)
    ensures
      var states := FirstWork(w, n);
      && StepTo(w, states[3], ClaimStep(1), states[4])
      && StepTo(w, states[4], ReadStep(1), states[5])
  {
  }

  lemma FirstWorkInit(w: Workflow, d: NodeDef)
    requires w.nodes == [d] && w.edges == []
    ensures Init(w, FirstWork(w, d.id)[0]) && HasStatus(Started(w).rows, d.id, QUEUED)
  {
    assert Ids(w.nodes) == [d.id];
    assert IsRoot(w, d.id);
    assert RootJobs(w) == {Job(d.id, 1)};
  }

  lemma FirstWorkEnds(w: Workflow, n: NodeId)
    requires HasStatus(Started(w).rows, n, QUEUED)
    ensures SoleWorker(FirstWork(w, n)[5], 1, n)
  {
  }

  /** The situation that a theft ruins occurs in a run of every one-node workflow. */
  lemma SoleWorkerIsReached(w: Workflow, d: NodeDef) returns (states: seq<System>, steps: seq<Step>)
    requires w.nodes == [d] && w.edges == []
    ensures Run(w, states, steps) && SoleWorker(states[|steps|], 1, d.id)
  {
    states := FirstWork(w, d.id);
    steps := [PublishStep(0), AckStep(0), Deliver(0), ClaimStep(1), ReadStep(1)];
    FirstWorkInit(w, d);
    FirstWorkBegins(w, d.id);
    FirstWorkGoesOn(w, d.id);
    FirstWorkEnds(w, d.id);
    FollowsFive(w, states, steps);
  }
}
