/** Every scheduler finishes.  A weight on states falls with every step of a
    worker, so a run can only go on for long if it keeps reclaiming or retrying;
    and a careful run that cannot go on has reached the sequential evaluation. */
module Termination {
  import opened Graph
  import opened Model
  import opened Transactions
  import opened Invariants
  import opened Histories
  import opened Protocol
  import opened Safety
  import opened Publishing
  import opened Delivery
  import opened Progress
  import opened Evaluation
  import opened Theorems
  import opened Work
  import opened Convergence

  // ----- the weight of a state -----

  /** An upper bound on the steps a task can still take, and start by its publishes. */
  function TaskWeight(task: Task): nat {
    match task
    case Recovering(_) => 5
    case Claiming(_) => 4
    case Reading(_) => 3
    case Executing(_, _) => 2
    case Finishing(_, owed) => 1 + 6 * |owed|
    case Stopped => 0
  }

  function TasksWeight(tasks: seq<Task>): nat {
    if tasks == [] then 0 else TasksWeight(tasks[..|tasks| - 1]) + TaskWeight(tasks[|tasks| - 1])
  }

  function EntryWeight(m: Message): nat {
    if m.delivery.Undelivered? then 5 else 0
  }

  function StreamWeight(stream: seq<Message>): nat {
    if stream == [] then 0 else StreamWeight(stream[..|stream| - 1]) + EntryWeight(stream[|stream| - 1])
  }

  /** The attempts a node may still begin. */
  function Spare(db: Db, n: NodeId): int {
    if n in db.rows then db.rows[n].maxAttempts + TallyOf(db.history, n).retried - db.rows[n].attempt else 0
  }

  function Spares(db: Db, ids: seq<NodeId>): int {
    if ids == [] then 0 else Spares(db, ids[..|ids| - 1]) + Spare(db, ids[|ids| - 1])
  }

  function Weight(w: Workflow, s: System): int {
    6 * Spares(s.db, Ids(w.nodes)) + StreamWeight(s.stream) + TasksWeight(s.tasks)
  }

  /** A step of a worker, a recovery loop or a publisher on work it holds. */
  predicate Ordinary(step: Step) {
    || step.Deliver? || step.RevertStep? || step.ClaimStep? || step.ReadStep?
    || step.CompleteStep? || step.PublishStep? || step.AckStep?
  }

  /** What the other steps may add. */
  function Gain(step: Step): nat {
    match step
    case Reclaim(_) => 5
    case RetryStep(_) => 7
    case _ => 0
  }

  lemma TasksAppend(tasks: seq<Task>, task: Task)
    ensures TasksWeight(tasks + [task]) == TasksWeight(tasks) + TaskWeight(task)
  {
    assert (tasks + [task])[..|tasks|] == tasks;
  }

  lemma {:induction false} TasksUpdate(tasks: seq<Task>, t: nat, task: Task)
    requires t < |tasks|
    ensures TasksWeight(tasks[t := task]) + TaskWeight(tasks[t]) == TasksWeight(tasks) + TaskWeight(task)
    decreases |tasks|
  {
    var front := tasks[..|tasks| - 1];
    if t == |tasks| - 1 {
      assert tasks[t := task][..|tasks| - 1] == front;
    } else {
      TasksUpdate(front, t, task);
      assert tasks[t := task][..|tasks| - 1] == front[t := task];
    }
  }

  lemma StreamAppend(stream: seq<Message>, m: Message)
    ensures StreamWeight(stream + [m]) == StreamWeight(stream) + EntryWeight(m)
  {
    assert (stream + [m])[..|stream|] == stream;
  }

  lemma {:induction false} StreamUpdate(stream: seq<Message>, k: nat, m: Message)
    requires k < |stream|
    ensures StreamWeight(stream[k := m]) + EntryWeight(stream[k]) == StreamWeight(stream) + EntryWeight(m)
    decreases |stream|
  {
    var front := stream[..|stream| - 1];
    if k == |stream| - 1 {
      assert stream[k := m][..|stream| - 1] == front;
    } else {
      StreamUpdate(front, k, m);
      assert stream[k := m][..|stream| - 1] == front[k := m];
    }
  }

  // ----- spare attempts -----

  function CountIn(ids: seq<NodeId>, nodes: set<NodeId>): nat {
    if ids == [] then 0 else CountIn(ids[..|ids| - 1], nodes) + if ids[|ids| - 1] in nodes then 1 else 0
  }

  lemma {:induction false} CountMonotone(ids: seq<NodeId>, few: set<NodeId>, many: set<NodeId>)
    requires few <= many
    ensures CountIn(ids, few) <= CountIn(ids, many)
    decreases |ids|
  {
    if ids != [] { CountMonotone(ids[..|ids| - 1], few, many); }
  }

  lemma {:induction false} CountCovers(ids: seq<NodeId>, nodes: set<NodeId>)
    requires forall n :: n in nodes ==> n in ids
    ensures |nodes| <= CountIn(ids, nodes)
    decreases |ids|
  {
    if ids == [] {
      assert nodes == {};
    } else {
      var front, last := ids[..|ids| - 1], ids[|ids| - 1];
      assert forall n :: n in nodes - {last} ==> n in front;
      CountCovers(front, nodes - {last});
      CountMonotone(front, nodes - {last}, nodes);
    }
  }

  lemma {:induction false} SparesFall(before: Db, after: Db, ids: seq<NodeId>, nodes: set<NodeId>)
    requires forall n :: Spare(after, n) <= Spare(before, n) - if n in nodes then 1 else 0
    ensures Spares(after, ids) <= Spares(before, ids) - CountIn(ids, nodes)
    decreases |ids|
  {
    if ids != [] { SparesFall(before, after, ids[..|ids| - 1], nodes); }
  }

  lemma {:induction false} SparesNonNegative(db: Db, ids: seq<NodeId>)
    requires Books(db)
    ensures Spares(db, ids) >= 0
    decreases |ids|
  {
    if ids != [] {
      SparesNonNegative(db, ids[..|ids| - 1]);
      var n := ids[|ids| - 1];
      if n in db.rows { assert BalancedAt(db, n); }
    }
  }

  function NodesOf(jobs: seq<Job>): set<NodeId> {
    set j | j in jobs :: j.node
  }

  /** One node per job: as many nodes as jobs. */
  lemma {:induction false} NodesPerJob(jobs: seq<Job>)
    requires forall i, j :: 0 <= i < j < |jobs| ==> jobs[i].node != jobs[j].node
    ensures |NodesOf(jobs)| == |jobs|
    decreases |jobs|
  {
    if jobs != [] {
      var front, last := jobs[..|jobs| - 1], jobs[|jobs| - 1];
      NodesPerJob(front);
      assert jobs == front + [last];
      assert NodesOf(jobs) == NodesOf(front) + {last.node};
      assert last.node !in NodesOf(front);
    }
  }

  /** Completion begins one attempt per owed job. */
  lemma CompleteSpends(w: Workflow, db: Db, n: NodeId, outcome: Outcome, x: NodeId)
    requires IsNode(w, n)
    ensures Spare(Complete(w, db, n, outcome), x) ==
            Spare(db, x) - if exists j :: j in OwedAfter(w, db, n, outcome) && j.node == x then 1 else 0
  {
    if HasStatus(db.rows, n, RUNNING) {
      match outcome
      case Success(output) => SucceedSpends(w, db, n, output, x);
      case Failure => FailSpends(db, n, x);
        assert AttemptsLeft(db.rows[n]) ==> Job(n, db.rows[n].attempt + 1) in OwedAfter(w, db, n, Failure);
    }
  }

  lemma FailSpends(db: Db, n: NodeId, x: NodeId)
    requires HasStatus(db.rows, n, RUNNING)
    ensures Spare(Fail(db, n), x) == Spare(db, x) - if x == n && AttemptsLeft(db.rows[n]) then 1 else 0
  {
    TallyAppend(db.history, NodeFailed(n), x);
    DeadLetterTally(db.history, n, x);
  }

  lemma SucceedSpends(w: Workflow, db: Db, n: NodeId, output: Payload, x: NodeId)
    requires IsNode(w, n) && HasStatus(db.rows, n, RUNNING)
    ensures Spare(Succeed(w, db, n, output), x) ==
            Spare(db, x) - if exists j :: j in OwedAfter(w, db, n, Success(output)) && j.node == x then 1 else 0
  {
    TallyAppend(db.history, NodeSucceeded(n), x);
    SuccessEffect(w, db.rows, n, output);
    if x in db.rows {
      AttemptAfterSuccess(w, db.rows, n, output, x);
      assert SuccessAt(w, db.rows, n, output, x);
      OwedAfterSuccess(w, db, n, output, Job(x, db.rows[x].attempt + 1));
    }
  }

  lemma OwedNodesDiffer(w: Workflow, db: Db, n: NodeId, outcome: Outcome, owed: seq<Job>)
    requires IsNode(w, n) && Lists(owed, OwedAfter(w, db, n, outcome))
    ensures forall i, j :: 0 <= i < j < |owed| ==> owed[i].node != owed[j].node
    ensures forall x :: x in NodesOf(owed) <==> exists j :: j in OwedAfter(w, db, n, outcome) && j.node == x
  {
    hide OwedAfter;
    forall k | 0 <= k < |owed|
      ensures owed[k].node in db.rows && owed[k] == Job(owed[k].node, db.rows[owed[k].node].attempt + 1)
    {
      assert owed[k] in OwedAfter(w, db, n, outcome);
      OwedJob(w, db, n, outcome, owed[k]);
    }
  }

  lemma CompleteSpares(w: Workflow, db: Db, n: NodeId, outcome: Outcome, owed: seq<Job>, ids: seq<NodeId>)
    requires IsNode(w, n) && Lists(owed, OwedAfter(w, db, n, outcome))
    requires forall x :: x in db.rows ==> x in ids
    ensures Spares(Complete(w, db, n, outcome), ids) + |owed| <= Spares(db, ids)
  {
    hide Complete, Spare;
    OwedNodesDiffer(w, db, n, outcome, owed);
    NodesPerJob(owed);
    forall x ensures Spare(Complete(w, db, n, outcome), x) <= Spare(db, x) - if x in NodesOf(owed) then 1 else 0 {
      CompleteSpends(w, db, n, outcome, x);
    }
    SparesFall(db, Complete(w, db, n, outcome), ids, NodesOf(owed));
    forall j | j in owed ensures j.node in ids { OwedJob(w, db, n, outcome, j); }
    CountCovers(ids, NodesOf(owed));
  }

  /** No other transaction begins an attempt that no retry has added. */
  lemma OtherSpares(w: Workflow, db: Db, txn: Txn, ids: seq<NodeId>)
    requires TxnOk(w, txn) && !txn.CompleteTxn?
    ensures Spares(Commit(w, db, txn), ids) <= Spares(db, ids)
  {
    forall x ensures Spare(Commit(w, db, txn), x) <= Spare(db, x) { OtherSpends(w, db, txn, x); }
    SparesFall(db, Commit(w, db, txn), ids, {});
  }

  lemma OtherSpends(w: Workflow, db: Db, txn: Txn, x: NodeId)
    requires TxnOk(w, txn) && !txn.CompleteTxn?
    ensures Spare(Commit(w, db, txn), x) == Spare(db, x)
  {
    match txn
    case ClaimTxn(n) => TallyAppend(db.history, NodeStarted(n), x);
    case RevertTxn(n) => TallyAppend(db.history, NodeReverted(n), x);
    case RetryTxn(n) => TallyAppend(db.history, NodeRetried(n), x);
    case ResolveTxn(_) =>
    case NoTxn =>
  }

  // ----- one step -----

  /** The weight of the tasks after a step. */
  lemma TasksAfter(w: Workflow, s: System, step: Step)
    requires Enabled(w, s, step)
    ensures Actor(step).Some? ==>
      TasksWeight(NextTasks(w, s, step)) + TaskWeight(s.tasks[Actor(step).value]) ==
      TasksWeight(s.tasks) + TaskWeight(NextTask(w, s, step))
    ensures step.Deliver? ==> TasksWeight(NextTasks(w, s, step)) == TasksWeight(s.tasks) + 4
    ensures step.Reclaim? ==> TasksWeight(NextTasks(w, s, step)) == TasksWeight(s.tasks) + 5
    ensures step.RetryStep? ==> TasksWeight(NextTasks(w, s, step)) == TasksWeight(s.tasks) + 7
    ensures step.ResolveStep? ==> NextTasks(w, s, step) == s.tasks
  {
    match step
    case Deliver(m) => TasksAppend(s.tasks, Claiming(m));
    case Reclaim(m) => TasksAppend(s.tasks, Recovering(m));
    case RetryStep(n) => TasksAppend(s.tasks, Finishing(None, [Job(n, s.db.rows[n].attempt + 1)]));
    case ResolveStep(_) =>
    case _ => TasksUpdate(s.tasks, Actor(step).value, NextTask(w, s, step));
  }

  /** A task loses weight with each of its own steps, but for what it newly owes. */
  lemma OwnWeight(w: Workflow, s: System, step: Step)
    requires Enabled(w, s, step) && Actor(step).Some?
    ensures
      var before, after := TaskWeight(s.tasks[Actor(step).value]), TaskWeight(NextTask(w, s, step));
      match step
      case CompleteStep(_, _, owed) => after + 1 <= before + 6 * |owed|
      case PublishStep(_) => after + 6 == before
      case Crash(_) => after <= before
      case _ => after + 1 <= before
  {
  }

  lemma StreamAfter(w: Workflow, s: System, step: Step)
    requires Enabled(w, s, step)
    ensures
      var before, after := StreamWeight(s.stream), StreamWeight(NextStream(w, s, step));
      match step
      case Deliver(_) => after + 5 == before
      case PublishStep(_) => after == before + 5
      case _ => after <= before
  {
    match step
    case Deliver(m) => StreamUpdate(s.stream, m, s.stream[m].(delivery := Pending(|s.tasks|)));
    case Reclaim(m) => StreamUpdate(s.stream, m, s.stream[m].(delivery := Pending(|s.tasks|)));
    case PublishStep(t) => StreamAppend(s.stream, Message(s.tasks[t].owed[0], Undelivered));
    case AckStep(t) =>
      if s.tasks[t].source.Some? {
        StreamUpdate(s.stream, s.tasks[t].source.value, s.stream[s.tasks[t].source.value].(delivery := Acked));
      }
    case _ =>
  }

  lemma SparesAfter(w: Workflow, s: System, step: Step, s': System)
    requires StepTo(w, s, step, s') && RowsShape(w, s.db.rows)
    ensures Spares(s'.db, Ids(w.nodes)) + (if step.CompleteStep? then |step.owed| else 0) <= Spares(s.db, Ids(w.nodes))
  {
    if step.CompleteStep? {
      CompleteSpares(w, s.db, NodeOf(s, s.tasks[step.task].msg), step.outcome, step.owed, Ids(w.nodes));
    } else {
      OtherSpares(w, s.db, TxnOf(w, s, step), Ids(w.nodes));
    }
  }

  /** Every ordinary step takes weight away; only reclaiming and retrying add some. */
  lemma StepWeight(w: Workflow, s: System, step: Step, s': System)
    requires StepTo(w, s, step, s') && RowsShape(w, s.db.rows)
    ensures Weight(w, s') + (if Ordinary(step) then 1 else 0) <= Weight(w, s) + Gain(step)
  {
    SparesAfter(w, s, step, s');
    TasksAfter(w, s, step);
    StreamAfter(w, s, step);
    if Actor(step).Some? { OwnWeight(w, s, step); }
    hide NextTasks, NextTask, NextStream, TasksWeight, StreamWeight, Spares, Commit, TxnOf, RowsShape;
  }

  // ----- whole runs -----

  function Ordinaries(steps: seq<Step>): nat {
    if steps == [] then 0 else Ordinaries(steps[..|steps| - 1]) + if Ordinary(steps[|steps| - 1]) then 1 else 0
  }

  function Gains(steps: seq<Step>): nat {
    if steps == [] then 0 else Gains(steps[..|steps| - 1]) + Gain(steps[|steps| - 1])
  }

  function Reclaims(steps: seq<Step>): nat {
    if steps == [] then 0 else Reclaims(steps[..|steps| - 1]) + if steps[|steps| - 1].Reclaim? then 1 else 0
  }

  function Retries(steps: seq<Step>): nat {
    if steps == [] then 0 else Retries(steps[..|steps| - 1]) + if steps[|steps| - 1].RetryStep? then 1 else 0
  }

  lemma {:induction false} GainsSplit(steps: seq<Step>)
    ensures Gains(steps) == 5 * Reclaims(steps) + 7 * Retries(steps)
    decreases |steps|
  {
    if steps != [] { GainsSplit(steps[..|steps| - 1]); }
  }

  lemma {:induction false} WeightAlong(w: Workflow, states: seq<System>, steps: seq<Step>, i: nat)
    requires Execution(w, states, steps) && i < |states|
    ensures Weight(w, states[i]) + Ordinaries(steps[..i]) <= Weight(w, states[0]) + Gains(steps[..i])
    decreases i
  {
    hide StepTo, Weight, Ordinary, Gain, Init;
    if i > 0 {
      WeightAlong(w, states, steps, i - 1);
      assert steps[..i][..i - 1] == steps[..i - 1] && steps[..i][i - 1] == steps[i - 1];
      NextWeight(w, states, steps, i - 1);
    }
  }

  lemma NextWeight(w: Workflow, states: seq<System>, steps: seq<Step>, i: nat)
    requires Execution(w, states, steps) && i < |steps|
    ensures Weight(w, states[i + 1]) + (if Ordinary(steps[i]) then 1 else 0) <= Weight(w, states[i]) + Gain(steps[i])
  {
    hide StepTo, Weight, Init;
    RunInv(w, states, steps, i);
    StepWeight(w, states[i], steps[i], states[i + 1]);
  }

  /** The roots have begun their first attempts, and their jobs are owed. */
  lemma {:induction false} StartedSpares(w: Workflow, ids: seq<NodeId>, roots: set<NodeId>)
    requires forall k :: 0 <= k < |ids| ==> IsNode(w, ids[k])
    requires forall n :: n in roots ==> IsRoot(w, n)
    ensures Spares(Started(w), ids) + CountIn(ids, roots) <= Budget(w, ids)
    decreases |ids|
  {
    if ids != [] {
      StartedSpares(w, ids[..|ids| - 1], roots);
      assert IsNode(w, ids[|ids| - 1]);
    }
  }

  lemma StartWeight(w: Workflow, s: System)
    requires Init(w, s)
    ensures Weight(w, s) <= 6 * Budget(w, Ids(w.nodes)) + 1
  {
    var owed := s.tasks[0].owed;
    assert forall j :: j in owed ==> IsRoot(w, j.node) && j.attempt == 1 by {
      forall j | j in owed ensures IsRoot(w, j.node) && j.attempt == 1 { assert j in RootJobs(w); }
    }
    forall i, j | 0 <= i < j < |owed| ensures owed[i].node != owed[j].node {
      assert owed[i] in owed && owed[j] in owed;
    }
    hide RootJobs, Started, IsRoot, Spare;
    NodesPerJob(owed);
    StartedSpares(w, Ids(w.nodes), NodesOf(owed));
    CountCovers(Ids(w.nodes), NodesOf(owed));
    assert s.tasks == [] + [s.tasks[0]];
    TasksAppend([], s.tasks[0]);
  }

  /** A run has at most six ordinary steps per configured attempt (so 60 per node) and one more, plus five per
      reclaimed entry and seven per manual retry: whatever the schedule and the executors do, crashes included. */
  lemma RunsAreBounded(w: Workflow, states: seq<System>, steps: seq<Step>)
    requires Execution(w, states, steps)
    ensures Ordinaries(steps) <= 6 * Budget(w, Ids(w.nodes)) + 1 + 5 * Reclaims(steps) + 7 * Retries(steps)
    ensures Budget(w, Ids(w.nodes)) <= 10 * |w.nodes|
  {
    hide Weight, StepTo, Init;
    var n := |steps|;
    assert steps[..n] == steps;
    WeightAlong(w, states, steps, n);
    GainsSplit(steps);
    StartWeight(w, states[0]);
    RunInv(w, states, steps, n);
    WeightNonNegative(w, states[n]);
    SummedBound(w, states[n].db, Ids(w.nodes));
  }

  lemma WeightNonNegative(w: Workflow, s: System)
    requires Books(s.db)
    ensures Weight(w, s) >= 0
  {
    SparesNonNegative(s.db, Ids(w.nodes));
  }

  // ----- runs that cannot go on -----

  /** Some process can take a step on work it holds, or recovery can pick up an abandoned entry. */
  ghost predicate CanWork(w: Workflow, exec: Executor, s: System) {
    exists step, s' :: DrivenStep(w, exec, s, step, s') && (Ordinary(step) || step.Reclaim?)
  }

  lemma WaitingCanWork(w: Workflow, exec: Executor, s: System, m: nat, n: NodeId)
    requires Ownership(s) && TasksOk(w, s) && WaitingFor(s, m, n) && Active(s.db.rows, n)
    ensures CanWork(w, exec, s)
  {
    match s.stream[m].delivery
    case Undelivered =>
      var s' := DoDeliver(w, exec, s, m, n);
    case Pending(o) =>
      assert OwnerOk(s, m);
      match s.tasks[o] {
        case Stopped =>
          var s' := DoReclaim(w, exec, s, m, n);
        case Recovering(_) =>
          var s' := DoRevert(w, exec, s, o, n);
        case Claiming(_) =>
          if s.db.rows[n].status == QUEUED {
            var s' := DoClaim(w, exec, s, o, n);
          } else {
            var s' := DoReject(w, exec, s, o, n);
          }
      }
  }

  lemma WorkingCanWork(w: Workflow, exec: Executor, s: System, m: nat, n: NodeId)
    requires Ownership(s) && WorkingFor(s, m, n) && IsNode(w, n)
    ensures CanWork(w, exec, s)
  {
    var o := s.stream[m].delivery.owner;
    assert OwnerOk(s, m);
    if s.tasks[o].Reading? {
      var s' := DoRead(w, exec, s, o, n);
    } else {
      var outcome := exec(n, s.tasks[o].upstream);
      var owed := EnumerateJobs(OwedAfter(w, s.db, n, outcome));
      var step := CompleteStep(o, outcome, owed);
      var s' := System(Complete(w, s.db, n, outcome), s.stream, s.tasks[o := Finishing(Some(s.tasks[o].msg), owed)]);
      assert DrivenStep(w, exec, s, step, s') && Ordinary(step);
    }
  }

  lemma ActiveCanWork(w: Workflow, exec: Executor, s: System, n: NodeId)
    requires Sound(w, s) && Active(s.db.rows, n)
    ensures CanWork(w, exec, s)
  {
    assert IsNode(w, n);
    hide CanWork, DbInv;
    if m: nat :| WaitingFor(s, m, n) {
      WaitingCanWork(w, exec, s, m, n);
    } else if m: nat :| WorkingFor(s, m, n) {
      WorkingCanWork(w, exec, s, m, n);
    } else {
      assert s.db.rows[n].status == RUNNING ==> RunningCovered(s, n);
      assert QueuedCovered(s, n);
      var t: nat :| OwesNode(s, t, n);
      OwingCanWork(w, exec, s, t, n);
    }
  }

  lemma OwingCanWork(w: Workflow, exec: Executor, s: System, t: nat, n: NodeId)
    requires TasksOk(w, s) && OwesNode(s, t, n)
    ensures CanWork(w, exec, s)
  {
    assert TaskOk(w, s, s.tasks[t]);
    var s' := DoPublish(w, exec, s, t, n);
  }

  /** Whatever the scheduler chose: a careful run in which no process has anything left to do has reached the
      state the sequential evaluation describes. */
  lemma FinishedRunsRealize(w: Workflow, exec: Executor, t: Verdicts, states: seq<System>, steps: seq<Step>)
    requires ObeyingRun(w, exec, states, steps) && CarefulRun(w, states, steps)
    requires Harmless(w, t) && IsEvaluation(w, exec, t) && !CanWork(w, exec, states[|steps|])
    ensures Quiescent(states[|steps|]) && Realizes(w, t, states[|steps|].db)
  {
    hide CanWork, StepTo;
    RunInv(w, states, steps, |steps|);
    NothingLostAlong(w, states, steps, |steps|);
    RestIsQuiescent(w, exec, states[|steps|]);
    RunEnds(w, exec, t, states, steps);
  }

  lemma RestIsQuiescent(w: Workflow, exec: Executor, s: System)
    requires Sound(w, s)
    ensures CanWork(w, exec, s) || Quiescent(s)
  {
    hide CanWork, Sound;
    if n :| Active(s.db.rows, n) { ActiveCanWork(w, exec, s, n); }
  }
}
