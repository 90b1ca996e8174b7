/** Runs without deaths.  A careful run in which no process dies never reclaims an
    entry: each node is carried by one job at a time, so no worker is turned away. */
module Uninterrupted {
  import opened Graph
  import opened Model
  import opened Transactions
  import opened Invariants
  import opened Protocol
  import opened Safety
  import opened Publishing
  import opened Delivery
  import opened Work
  import opened Termination

  // ----- who carries a node -----

  datatype Side = Waits | Works

  function OwedCount(jobs: seq<Job>, n: NodeId): nat {
    if jobs == [] then 0 else OwedCount(jobs[1..], n) + if jobs[0].node == n then 1 else 0
  }

  function Names(stream: seq<Message>, m: nat, n: NodeId): nat {
    if m < |stream| && stream[m].job.node == n then 1 else 0
  }

  /** How often a task carries `n`: jobs it owes and entries it has yet to claim, or entries it has claimed. */
  function TokenOf(side: Side, stream: seq<Message>, n: NodeId, task: Task): nat {
    match side
    case Waits =>
      (match task
       case Finishing(_, owed) => OwedCount(owed, n)
       case Claiming(m) => Names(stream, m, n)
       case Recovering(m) => Names(stream, m, n)
       case _ => 0)
    case Works =>
      (match task
       case Reading(m) => Names(stream, m, n)
       case Executing(m, _) => Names(stream, m, n)
       case _ => 0)
  }

  function Tokens(side: Side, stream: seq<Message>, n: NodeId, tasks: seq<Task>): nat {
    if tasks == [] then 0
    else Tokens(side, stream, n, tasks[..|tasks| - 1]) + TokenOf(side, stream, n, tasks[|tasks| - 1])
  }

  /** The undelivered entries of `n`. */
  function Open(stream: seq<Message>, n: NodeId): nat {
    if stream == [] then 0
    else
      Open(stream[..|stream| - 1], n) +
      if stream[|stream| - 1].delivery.Undelivered? && stream[|stream| - 1].job.node == n then 1 else 0
  }

  function Waiting(s: System, n: NodeId): nat {
    Tokens(Waits, s.stream, n, s.tasks) + Open(s.stream, n)
  }

  function Working(s: System, n: NodeId): nat {
    Tokens(Works, s.stream, n, s.tasks)
  }

  function Flag(b: bool): nat {
    if b then 1 else 0
  }

  ghost predicate SingleAt(s: System, n: NodeId) {
    Waiting(s, n) == Flag(HasStatus(s.db.rows, n, QUEUED)) && Working(s, n) == Flag(HasStatus(s.db.rows, n, RUNNING))
  }

  /** A QUEUED node is carried by exactly one waiting job, a RUNNING one by exactly one worker, any other by nobody. */
  ghost predicate Single(s: System) {
    forall n :: SingleAt(s, n)
  }

  /** No recovery is under way, and whoever holds an entry is alive. */
  ghost predicate Held(s: System) {
    && (forall t :: 0 <= t < |s.tasks| ==> !s.tasks[t].Recovering?)
    && (forall m :: 0 <= m < |s.stream| && s.stream[m].delivery.Pending? ==> HolderLives(s, m))
  }

  ghost predicate HolderLives(s: System, m: nat)
    requires m < |s.stream| && s.stream[m].delivery.Pending?
  {
    s.stream[m].delivery.owner < |s.tasks| && !s.tasks[s.stream[m].delivery.owner].Stopped?
  }

  // ----- counting -----

  lemma TokensAppend(side: Side, stream: seq<Message>, n: NodeId, tasks: seq<Task>, task: Task)
    ensures Tokens(side, stream, n, tasks + [task]) == Tokens(side, stream, n, tasks) + TokenOf(side, stream, n, task)
  {
    assert (tasks + [task])[..|tasks|] == tasks;
  }

  lemma {:induction false} TokensUpdate(side: Side, stream: seq<Message>, n: NodeId, tasks: seq<Task>, t: nat,
                                        task: Task)
    requires t < |tasks|
    ensures Tokens(side, stream, n, tasks[t := task]) + TokenOf(side, stream, n, tasks[t]) ==
            Tokens(side, stream, n, tasks) + TokenOf(side, stream, n, task)
    ensures TokenOf(side, stream, n, tasks[t]) <= Tokens(side, stream, n, tasks)
    decreases |tasks|
  {
    hide TokenOf;
    var front := tasks[..|tasks| - 1];
    if t == |tasks| - 1 {
      assert tasks[t := task][..|tasks| - 1] == front;
    } else {
      TokensUpdate(side, stream, n, front, t, task);
      assert tasks[t := task][..|tasks| - 1] == front[t := task];
    }
  }

  ghost predicate InRange(stream: seq<Message>, task: Task) {
    MsgOf(task).Some? ==> MsgOf(task).value < |stream|
  }

  /** Delivering, acknowledging and appending entries changes no name that a task can see. */
  lemma {:induction false} TokensStable(side: Side, stream: seq<Message>, later: seq<Message>, n: NodeId,
                                        tasks: seq<Task>)
    requires |stream| <= |later| && forall m :: 0 <= m < |stream| ==> stream[m].job == later[m].job
    requires forall t :: 0 <= t < |tasks| ==> InRange(stream, tasks[t])
    ensures Tokens(side, later, n, tasks) == Tokens(side, stream, n, tasks)
    decreases |tasks|
  {
    if tasks != [] {
      TokensStable(side, stream, later, n, tasks[..|tasks| - 1]);
      assert InRange(stream, tasks[|tasks| - 1]);
    }
  }

  lemma OpenAppend(stream: seq<Message>, m: Message, n: NodeId)
    ensures Open(stream + [m], n) == Open(stream, n) + Flag(m.delivery.Undelivered? && m.job.node == n)
  {
    assert (stream + [m])[..|stream|] == stream;
  }

  lemma {:induction false} OpenUpdate(stream: seq<Message>, k: nat, d: Protocol.Delivery, n: NodeId)
    requires k < |stream| && !d.Undelivered?
    ensures Open(SetDelivery(stream, k, d), n) + Flag(stream[k].delivery.Undelivered? && stream[k].job.node == n) ==
            Open(stream, n)
    decreases |stream|
  {
    var front, changed := stream[..|stream| - 1], SetDelivery(stream, k, d);
    if k == |stream| - 1 {
      assert changed[..|stream| - 1] == front;
    } else {
      OpenUpdate(front, k, d, n);
      assert changed[..|stream| - 1] == SetDelivery(front, k, d);
    }
  }

  lemma {:induction false} OwedCountIs(jobs: seq<Job>, n: NodeId)
    requires forall i, j :: 0 <= i < j < |jobs| ==> jobs[i].node != jobs[j].node
    ensures OwedCount(jobs, n) == Flag(n in NodesOf(jobs))
    decreases |jobs|
  {
    if jobs != [] {
      OwedCountIs(jobs[1..], n);
      assert jobs == [jobs[0]] + jobs[1..];
      assert jobs[0].node !in NodesOf(jobs[1..]);
    }
  }

  // ----- tokens over one step -----

  /** The steps of an uninterrupted run. */
  predicate Smooth(step: Step) {
    !step.Crash? && !step.Reclaim?
  }

  ghost predicate AllInRange(s: System) {
    forall t :: 0 <= t < |s.tasks| ==> InRange(s.stream, s.tasks[t])
  }

  lemma OwnTokensAfter(w: Workflow, s: System, step: Step, side: Side, n: NodeId)
    requires Enabled(w, s, step) && Smooth(step) && AllInRange(s) && Actor(step).Some?
    ensures
      Tokens(side, NextStream(w, s, step), n, NextTasks(w, s, step)) +
        TokenOf(side, s.stream, n, s.tasks[Actor(step).value]) ==
      Tokens(side, s.stream, n, s.tasks) + TokenOf(side, s.stream, n, NextTask(w, s, step))
  {
    NextInRange(w, s, step);
    TokensStable(side, s.stream, NextStream(w, s, step), n, NextTasks(w, s, step));
    TokensUpdate(side, s.stream, n, s.tasks, Actor(step).value, NextTask(w, s, step));
  }

  lemma NewTokensAfter(w: Workflow, s: System, step: Step, side: Side, n: NodeId)
    requires Enabled(w, s, step) && Smooth(step) && AllInRange(s) && Actor(step).None?
    ensures
      Tokens(side, NextStream(w, s, step), n, NextTasks(w, s, step)) ==
      Tokens(side, s.stream, n, s.tasks) + Flag(side == Waits && NewlyNamed(s, step, n))
  {
    NextInRange(w, s, step);
    TokensStable(side, s.stream, NextStream(w, s, step), n, NextTasks(w, s, step));
    match step
    case Deliver(m) => TokensAppend(side, s.stream, n, s.tasks, Claiming(m));
    case RetryStep(x) =>
      var job := Job(x, s.db.rows[x].attempt + 1);
      TokensAppend(side, s.stream, n, s.tasks, Finishing(None, [job]));
      OwedOne(job, n);
    case ResolveStep(_) =>
  }

  /** The node that a new task carries. */
  predicate NewlyNamed(s: System, step: Step, n: NodeId) {
    match step
    case Deliver(m) => m < |s.stream| && NodeOf(s, m) == n
    case RetryStep(x) => x == n
    case _ => false
  }

  lemma OwedOne(job: Job, n: NodeId)
    ensures OwedCount([job], n) == Flag(job.node == n)
  {
    assert [job][1..] == [];
    assert OwedCount([job][1..], n) == 0;
  }

  lemma NextInRange(w: Workflow, s: System, step: Step)
    requires Enabled(w, s, step) && Smooth(step) && AllInRange(s)
    ensures forall t :: 0 <= t < |NextTasks(w, s, step)| ==> InRange(s.stream, NextTasks(w, s, step)[t])
    ensures |s.stream| <= |NextStream(w, s, step)|
    ensures forall m :: 0 <= m < |s.stream| ==> NextStream(w, s, step)[m].job == s.stream[m].job
  {
    if Actor(step).Some? { OwnMessageKept(w, s, step); }
    forall t | 0 <= t < |NextTasks(w, s, step)| ensures InRange(s.stream, NextTasks(w, s, step)[t]) {
      if t < |s.tasks| { assert InRange(s.stream, s.tasks[t]); }
    }
  }

  /** What the acting task carries before and after its own step. */
  lemma OwnTokens(w: Workflow, s: System, step: Step, n: NodeId)
    requires Enabled(w, s, step) && Smooth(step) && Actor(step).Some? && !step.RevertStep?
    requires step.ClaimStep? ==> HasStatus(s.db.rows, NodeOf(s, s.tasks[step.task].msg), QUEUED)
    ensures
      var before, after := s.tasks[Actor(step).value], NextTask(w, s, step);
      match step
      case ClaimStep(_) =>
        && TokenOf(Waits, s.stream, n, before) == TokenOf(Works, s.stream, n, after) == Flag(NodeOf(s, before.msg) == n)
        && TokenOf(Works, s.stream, n, before) == TokenOf(Waits, s.stream, n, after) == 0
      case CompleteStep(_, _, _) =>
        && TokenOf(Works, s.stream, n, before) == Flag(NodeOf(s, before.msg) == n)
        && TokenOf(Waits, s.stream, n, after) == OwedCount(step.owed, n)
        && TokenOf(Waits, s.stream, n, before) == TokenOf(Works, s.stream, n, after) == 0
      case PublishStep(_) =>
        && TokenOf(Waits, s.stream, n, before) == TokenOf(Waits, s.stream, n, after) + Flag(before.owed[0].node == n)
        && TokenOf(Works, s.stream, n, before) == TokenOf(Works, s.stream, n, after) == 0
      case _ =>
        && TokenOf(Waits, s.stream, n, before) == TokenOf(Waits, s.stream, n, after)
        && TokenOf(Works, s.stream, n, before) == TokenOf(Works, s.stream, n, after)
  {
  }

  lemma OpenAfter(w: Workflow, s: System, step: Step, n: NodeId)
    requires Enabled(w, s, step) && Smooth(step) && Ownership(s)
    ensures
      var before, after := Open(s.stream, n), Open(NextStream(w, s, step), n);
      match step
      case Deliver(m) => after + Flag(NodeOf(s, m) == n) == before
      case PublishStep(t) => after == before + Flag(s.tasks[t].owed[0].node == n)
      case _ => after == before
  {
    hide OwedAfter, Lists, Open, CanRetry;
    match step
    case Deliver(m) => OpenUpdate(s.stream, m, Pending(|s.tasks|), n);
    case PublishStep(t) => OpenAppend(s.stream, Message(s.tasks[t].owed[0], Undelivered), n);
    case AckStep(t) =>
      if s.tasks[t].source.Some? {
        assert OwnsEntry(s, t, s.tasks[t].source.value);
        OpenUpdate(s.stream, s.tasks[t].source.value, Acked, n);
      }
    case _ =>
  }

  /** Who carries `n` after a step: claiming turns a waiting job into a worker, completing ends a worker and adds what
      it owes, a manual retry adds a job; nothing else changes the counts. */
  lemma CarriedAfter(w: Workflow, s: System, step: Step, s': System, n: NodeId)
    requires Enabled(w, s, step) && Smooth(step) && Ownership(s) && AllInRange(s) && !step.RevertStep?
    requires s'.stream == NextStream(w, s, step) && s'.tasks == NextTasks(w, s, step)
    requires step.ClaimStep? ==> HasStatus(s.db.rows, NodeOf(s, s.tasks[step.task].msg), QUEUED)
    ensures
      match step
      case ClaimStep(_) =>
        && Waiting(s', n) + Flag(NodeOf(s, s.tasks[step.task].msg) == n) == Waiting(s, n)
        && Working(s', n) == Working(s, n) + Flag(NodeOf(s, s.tasks[step.task].msg) == n)
      case CompleteStep(_, _, _) =>
        && Waiting(s', n) == Waiting(s, n) + OwedCount(step.owed, n)
        && Working(s', n) + Flag(NodeOf(s, s.tasks[step.task].msg) == n) == Working(s, n)
      case RetryStep(_) => Waiting(s', n) == Waiting(s, n) + Flag(step.node == n) && Working(s', n) == Working(s, n)
      case _ => Waiting(s', n) == Waiting(s, n) && Working(s', n) == Working(s, n)
  {
    OpenAfter(w, s, step, n);
    if Actor(step).Some? {
      OwnTokens(w, s, step, n);
      OwnTokensAfter(w, s, step, Waits, n);
      OwnTokensAfter(w, s, step, Works, n);
    } else {
      NewTokensAfter(w, s, step, Waits, n);
      NewTokensAfter(w, s, step, Works, n);
    }
    hide Tokens, TokenOf, Open, NextTasks, NextTask, NextStream, Ownership;
  }

  // ----- one job per node -----

  /** A worker that is about to claim finds its node QUEUED, and one that is about to complete finds it RUNNING. */
  lemma CarrierKnows(s: System, t: nat, m: nat)
    requires Single(s) && t < |s.tasks| && MsgOf(s.tasks[t]) == Some(m) && m < |s.stream|
    ensures s.tasks[t].Claiming? ==> HasStatus(s.db.rows, NodeOf(s, m), QUEUED)
    ensures s.tasks[t].Reading? || s.tasks[t].Executing? ==> HasStatus(s.db.rows, NodeOf(s, m), RUNNING)
  {
    var n := NodeOf(s, m);
    assert SingleAt(s, n);
    TokensUpdate(Waits, s.stream, n, s.tasks, t, Stopped);
    TokensUpdate(Works, s.stream, n, s.tasks, t, Stopped);
  }

  /** Completion queues exactly the nodes it owes a job, and ends one worker. */
  lemma CompleteStatuses(w: Workflow, db: Db, c: NodeId, outcome: Outcome, owed: seq<Job>, n: NodeId)
    requires IsNode(w, c) && HasStatus(db.rows, c, RUNNING) && Lists(owed, OwedAfter(w, db, c, outcome))
    ensures
      var after := Complete(w, db, c, outcome).rows;
      && Flag(HasStatus(after, n, QUEUED)) == Flag(HasStatus(db.rows, n, QUEUED)) + OwedCount(owed, n)
      && Flag(HasStatus(after, n, RUNNING)) + Flag(c == n) == Flag(HasStatus(db.rows, n, RUNNING))
  {
    OwedNodesDiffer(w, db, c, outcome, owed);
    OwedCountIs(owed, n);
    OwedIffQueued(w, db, c, outcome, n);
    hide OwedAfter, NodesOf, OwedCount, Complete;
  }

  lemma OwedIffQueued(w: Workflow, db: Db, c: NodeId, outcome: Outcome, n: NodeId)
    requires IsNode(w, c) && HasStatus(db.rows, c, RUNNING)
    ensures
      var after := Complete(w, db, c, outcome).rows;
      var owes := exists j :: j in OwedAfter(w, db, c, outcome) && j.node == n;
      && (HasStatus(after, n, QUEUED) <==> HasStatus(db.rows, n, QUEUED) || owes)
      && !(HasStatus(db.rows, n, QUEUED) && owes)
      && (HasStatus(after, n, RUNNING) <==> HasStatus(db.rows, n, RUNNING) && n != c)
  {
    match outcome
    case Success(output) =>
      SuccessEffect(w, db.rows, c, output);
      if n in db.rows {
        assert SuccessAt(w, db.rows, c, output, n);
        OwedAfterSuccess(w, db, c, output, Job(n, db.rows[n].attempt + 1));
      }
    case Failure =>
      assert AttemptsLeft(db.rows[c]) ==> Job(c, db.rows[c].attempt + 1) in OwedAfter(w, db, c, outcome);
  }

  lemma StepKeepsSingleAt(w: Workflow, s: System, step: Step, s': System, n: NodeId)
    requires Single(s) && Held(s) && Ownership(s) && AllInRange(s) && StepTo(w, s, step, s') && Smooth(step)
    ensures SingleAt(s', n)
  {
    assert SingleAt(s, n);
    if step.ClaimStep? || step.CompleteStep? { CarrierKnows(s, step.task, s.tasks[step.task].msg); }
    CarriedAfter(w, s, step, s', n);
    if step.CompleteStep? {
      CompleteStatuses(w, s.db, NodeOf(s, s.tasks[step.task].msg), step.outcome, step.owed, n);
    }
    hide Waiting, Working, NextTasks, NextStream, Single, Held, Ownership, AllInRange, Complete, OwedAfter;
  }

  lemma StepKeepsHeld(w: Workflow, s: System, step: Step, s': System)
    requires Single(s) && Held(s) && Ownership(s) && AllInRange(s) && Enabled(w, s, step) && Smooth(step)
    requires s'.stream == NextStream(w, s, step) && s'.tasks == NextTasks(w, s, step)
    ensures Held(s')
  {
    if step.ClaimStep? { CarrierKnows(s, step.task, s.tasks[step.task].msg); }
    forall t | 0 <= t < |s'.tasks| ensures !s'.tasks[t].Recovering? {}
    forall m | 0 <= m < |s'.stream| && s'.stream[m].delivery.Pending? ensures HolderLives(s', m) {
      if m < |s.stream| && s.stream[m].delivery == s'.stream[m].delivery {
        assert HolderLives(s, m) && OwnerOk(s, m);
      }
    }
  }

  /** In such a state a reclaim would be a theft. */
  lemma ReclaimIsTheft(w: Workflow, s: System, step: Step)
    requires Held(s) && Enabled(w, s, step) && Careful(s, step)
    ensures !step.Reclaim?
  {
  }

  ghost predicate Undisturbed(s: System) {
    Single(s) && Held(s) && Ownership(s) && AllInRange(s)
  }

  lemma StepKeepsUndisturbed(w: Workflow, s: System, step: Step, s': System)
    requires Undisturbed(s) && TasksOk(w, s') && StepTo(w, s, step, s') && Careful(s, step) && !step.Crash?
    ensures Undisturbed(s') && Smooth(step)
  {
    ReclaimIsTheft(w, s, step);
    forall n ensures SingleAt(s', n) { StepKeepsSingleAt(w, s, step, s', n); }
    StepKeepsHeld(w, s, step, s');
    StepKeepsOwnership(w, s, step, s');
    RangesOk(w, s');
  }

  lemma RangesOk(w: Workflow, s: System)
    requires TasksOk(w, s)
    ensures AllInRange(s)
  {
    forall t | 0 <= t < |s.tasks| ensures InRange(s.stream, s.tasks[t]) { assert TaskOk(w, s, s.tasks[t]); }
  }

  lemma InitUndisturbed(w: Workflow, s: System)
    requires Init(w, s)
    ensures Undisturbed(s)
  {
    InitNothingLost(w, s);
    InitTasks(w, s);
    RangesOk(w, s);
    forall n ensures SingleAt(s, n) { InitSingleAt(w, s, n); }
  }

  lemma InitSingleAt(w: Workflow, s: System, n: NodeId)
    requires Init(w, s)
    ensures SingleAt(s, n)
  {
    var owed := s.tasks[0].owed;
    assert s.tasks == [] + [s.tasks[0]];
    TokensAppend(Waits, s.stream, n, [], s.tasks[0]);
    TokensAppend(Works, s.stream, n, [], s.tasks[0]);
    forall i, j | 0 <= i < j < |owed| ensures owed[i].node != owed[j].node {
      assert owed[i] in RootJobs(w) && owed[j] in RootJobs(w);
    }
    OwedCountIs(owed, n);
    assert n in NodesOf(owed) <==> Job(n, 1) in RootJobs(w);
  }

  ghost predicate UninterruptedRun(w: Workflow, states: seq<System>, steps: seq<Step>) {
    && ValidWorkflow(w) && w.nodes != [] && CarefulRun(w, states, steps)
    && forall k :: 0 <= k < |steps| ==> !steps[k].Crash?
  }

  lemma {:induction false} UndisturbedAlong(w: Workflow, states: seq<System>, steps: seq<Step>, i: nat)
    requires UninterruptedRun(w, states, steps) && i < |states|
    ensures Undisturbed(states[i]) && forall k :: 0 <= k < i ==> Smooth(steps[k])
    decreases i
  {
    hide Undisturbed, StepTo, Careful, SystemInv, Smooth;
    if i == 0 {
      InitUndisturbed(w, states[0]);
    } else {
      UndisturbedAlong(w, states, steps, i - 1);
      NextUndisturbed(w, states, steps, i - 1);
    }
  }

  lemma NextUndisturbed(w: Workflow, states: seq<System>, steps: seq<Step>, i: nat)
    requires UninterruptedRun(w, states, steps) && i < |steps| && Undisturbed(states[i])
    ensures Undisturbed(states[i + 1]) && Smooth(steps[i])
  {
    hide Undisturbed, StepTo, Careful, Init;
    RunInv(w, states, steps, i + 1);
    StepKeepsUndisturbed(w, states[i], steps[i], states[i + 1]);
  }

  /** In a careful run in which no process dies, every QUEUED node is carried by exactly one job and every RUNNING node
      by exactly one worker, no claim is turned away, and nothing is ever reclaimed. */
  lemma NothingIsReclaimed(w: Workflow, states: seq<System>, steps: seq<Step>, i: nat)
    requires UninterruptedRun(w, states, steps) && i < |states|
    ensures Single(states[i]) && forall k :: 0 <= k < i ==> !steps[k].Reclaim?
  {
    UndisturbedAlong(w, states, steps, i);
  }

  // ----- the length of such a run -----

  function Resolutions(steps: seq<Step>): nat {
    if steps == [] then 0 else Resolutions(steps[..|steps| - 1]) + Flag(steps[|steps| - 1].ResolveStep?)
  }

  lemma {:induction false} SmoothLength(steps: seq<Step>)
    requires forall k :: 0 <= k < |steps| ==> Smooth(steps[k])
    ensures Reclaims(steps) == 0
    ensures |steps| == Ordinaries(steps) + Retries(steps) + Resolutions(steps)
    decreases |steps|
  {
    if steps != [] {
      SmoothLength(steps[..|steps| - 1]);
      assert Smooth(steps[|steps| - 1]);
    }
  }

  /** An uninterrupted run is finite: at most six steps per configured attempt and one more, eight per manual retry, and
      one per manual resolution. */
  lemma UninterruptedRunsAreBounded(w: Workflow, states: seq<System>, steps: seq<Step>)
    requires UninterruptedRun(w, states, steps)
    ensures |steps| <= 6 * Budget(w, Ids(w.nodes)) + 1 + 8 * Retries(steps) + Resolutions(steps)
    ensures Budget(w, Ids(w.nodes)) <= 10 * |w.nodes|
  {
    hide Undisturbed, StepTo, Careful, Init;
    UndisturbedAlong(w, states, steps, |steps|);
    SmoothLength(steps);
    RunsAreBounded(w, states, steps);
  }
}
